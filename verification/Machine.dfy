/** Bytecode (src/runtime/bytecode.hpp) and one step of the register machine
    (src/runtime/vm.cpp) on an unbounded memory. The class in Engine.dfy runs the same
    steps on fixed buffers. */
module Machine {
  import opened Values

  datatype Mode = ImmMode | ConstMode | RegMode

  datatype Arg = Arg(mode: Mode, id: int)

  datatype Opcode =
    | Nop | MakeSeq | SeqObjPush | SeqObjGet | FrzSeqObj
    | Mov | Neg | Compute(op: Arith)
    | Jump | JumpElse | Call | NativeCall | Ret

  datatype Instr = Instr(op: Opcode, a: Arg, b: Arg, c: Arg)

  type Chunk = seq<Instr>

  datatype Code = Code(chunks: seq<Chunk>, consts: seq<Value>, entry: int)

  /** `RanOff`, `Aborted` and `Unmodelled` stand for runs the C++ engine gives no meaning
      to here: reading an instruction outside the chunk or a constant outside the pool, using
      an operand without a value, and the instructions left out of this model. */
  datatype Status = Ok | SetupError | OpError | ArgError | MemError | MathError | RanOff | Aborted | Unmodelled

  datatype Frame = Frame(fn: int, ip: int, rbp: int, rft: int)

  datatype State = State(
    fn: int, ip: int, rbp: int, rft: int,
    mem: map<int, Value>, heap: Heap, frames: seq<Frame>, status: Status)

  /** Every register starts as a dud. */
  function Read(mem: map<int, Value>, i: int): Value {
    if i in mem then mem[i] else Dud
  }

  function Max(a: int, b: int): int {
    if a >= b then a else b
  }

  predicate Running(s: State) {
    s.status == Ok && s.frames != []
  }

  /** The implicit call of `main` has returned. */
  predicate Finished(s: State) {
    s.status == Ok && s.frames == []
  }

  datatype Fetched = NoValue | Found(v: Value)

  function Fetch(code: Code, s: State, arg: Arg): Fetched {
    match arg.mode
    case ConstMode => if 0 <= arg.id < |code.consts| then Found(code.consts[arg.id]) else NoValue
    case RegMode => Found(Read(s.mem, s.rbp + arg.id))
    case ImmMode => NoValue
  }

  /** Store in a register of the current window and go on; `rft` tracks the highest cell. */
  function Store(s: State, reg: int, v: Value): State {
    s.(mem := s.mem[s.rbp + reg := v], rft := Max(s.rft, s.rbp + reg), ip := s.ip + 1)
  }

  function Fail(s: State, status: Status): State {
    s.(status := status)
  }

  function StepCompute(code: Code, s: State, i: Instr): State
    requires i.op.Compute?
  {
    match (Fetch(code, s, i.b), Fetch(code, s, i.c))
    case (Found(x), Found(y)) =>
      if MathFails(i.op.op, x, y) then Fail(s, MathError) else Store(s, i.a.id, Apply(i.op.op, x, y))
    case _ => Fail(s, Aborted)
  }

  function StepPush(code: Code, s: State, i: Instr): State {
    match Fetch(code, s, i.b)
    case NoValue => Fail(s, MemError)
    case Found(v) =>
      var dest := Read(s.mem, s.rbp + i.a.id);
      if dest.Obj? && dest.id < |s.heap|
      then s.(heap := s.heap[dest.id := s.heap[dest.id].(items := s.heap[dest.id].items + [v])], ip := s.ip + 1)
      else Fail(s, MemError)
  }

  function StepFreeze(s: State, i: Instr): State {
    var dest := Read(s.mem, s.rbp + i.a.id);
    if dest.Obj? && dest.id < |s.heap|
    then s.(heap := s.heap[dest.id := s.heap[dest.id].(frozen := true)], ip := s.ip + 1)
    else Fail(s, MemError)
  }

  /** Negation is only defined on booleans, and reports an error exactly when it succeeds. */
  function StepNeg(s: State, i: Instr): State {
    var cell := s.rbp + i.a.id;
    match Read(s.mem, cell)
    case Bool(b) => s.(mem := s.mem[cell := Bool(!b)], rft := Max(s.rft, cell), status := ArgError)
    case _ => s.(ip := s.ip + 1)
  }

  function StepCall(s: State, i: Instr): State {
    s.(fn := i.a.id, ip := 0, rbp := s.rft - i.b.id + 1,
       frames := s.frames + [Frame(s.fn, s.ip + 1, s.rbp, s.rft)])
  }

  function StepRet(code: Code, s: State, i: Instr): State
    requires s.frames != []
  {
    match Fetch(code, s, i.a)
    case NoValue => Fail(s, Aborted)
    case Found(v) =>
      var f := s.frames[|s.frames| - 1];
      State(f.fn, f.ip, f.rbp, f.rft, s.mem[s.rbp := v], s.heap, s.frames[..|s.frames| - 1], Ok)
  }

  function Execute(code: Code, s: State, i: Instr): State
    requires Running(s)
  {
    match i.op
    case Nop => s.(ip := s.ip + 1)
    case MakeSeq =>
      s.(mem := s.mem[s.rbp + i.a.id := Obj(|s.heap|)], heap := s.heap + [SeqObj([], false)], ip := s.ip + 1)
    case SeqObjPush => StepPush(code, s, i)
    case FrzSeqObj => StepFreeze(s, i)
    case Mov =>
      (match Fetch(code, s, i.b)
       case NoValue => Fail(s, MemError)
       case Found(v) => Store(s, i.a.id, v))
    case Neg => StepNeg(s, i)
    case Compute(_) => StepCompute(code, s, i)
    case Jump => s.(ip := i.a.id)
    case JumpElse => s.(ip := if Truthy(Read(s.mem, s.rbp + i.a.id)) then s.ip + 1 else i.b.id)
    case Call => StepCall(s, i)
    case Ret => StepRet(code, s, i)
    case SeqObjGet => Fail(s, Unmodelled)
    case NativeCall => Fail(s, Unmodelled)
  }

  predicate AtInstr(code: Code, s: State) {
    0 <= s.fn < |code.chunks| && 0 <= s.ip < |code.chunks[s.fn]|
  }

  /** One round of the fetch-execute loop; a run that has ended stays as it is. */
  function Step(code: Code, s: State): State {
    if !Running(s) then s
    else if !AtInstr(code, s) then Fail(s, RanOff)
    else Execute(code, s, code.chunks[s.fn][s.ip])
  }

  function Steps(code: Code, s: State, n: nat): State
    decreases n
  {
    if n == 0 then s else Steps(code, Step(code, s), n - 1)
  }

  /** The engine right after construction; the memory contents are left arbitrary. */
  function Initial(code: Code, mem: map<int, Value>): State {
    State(code.entry, 0, 0, 0, mem, [], [Frame(0, 0, 0, 0)], if code.entry >= 0 then Ok else SetupError)
  }

  lemma {:induction false} StepsAdd(code: Code, s: State, m: nat, n: nat)
    ensures Steps(code, s, m + n) == Steps(code, Steps(code, s, m), n)
    decreases m
  {
    if m > 0 {
      StepsAdd(code, Step(code, s), m - 1, n);
    }
  }

  lemma StepsNone(code: Code, s: State)
    ensures Steps(code, s, 0) == s
  {
  }

  lemma StepsSucc(code: Code, s: State, k: nat)
    ensures Steps(code, s, k + 1) == Step(code, Steps(code, s, k))
  {
    hide Step;
    StepsAdd(code, s, k, 1);
    assert Steps(code, Steps(code, s, k), 1) == Steps(code, Step(code, Steps(code, s, k)), 0);
  }

  lemma {:induction false} StoppedStays(code: Code, s: State, n: nat)
    requires !Running(s)
    ensures Steps(code, s, n) == s
  {
    if n > 0 {
      StoppedStays(code, s, n - 1);
    }
  }

  /** A run still going after `n` rounds was going after every earlier round. */
  lemma RunningBefore(code: Code, s: State, m: nat, n: nat)
    requires m <= n && Running(Steps(code, s, n))
    ensures Running(Steps(code, s, m))
  {
    StepsAdd(code, s, m, n - m);
    if !Running(Steps(code, s, m)) {
      StoppedStays(code, Steps(code, s, m), n - m);
    }
  }
}
