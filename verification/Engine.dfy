/** The virtual machine on its fixed buffers (src/runtime/vm.cpp): registers in one array,
    call frames in another, objects in the slot allocator. Every instruction is proved to do
    what the machine of Machine.dfy does, as long as it stays within the buffers. */
module Engine {
  import opened Values
  import opened ExprLowering
  import opened HeapStorage
  import opened M = Machine
  import opened Marking

  // ---------------------------------------------------------------- the abstract state

  /** The register array as the machine's memory. */
  function Registers(cells: seq<Value>): (m: map<int, Value>)
    ensures forall i :: i in m <==> 0 <= i < |cells|
    ensures forall i | 0 <= i < |cells| :: m[i] == cells[i]
  {
    map i | 0 <= i < |cells| :: cells[i]
  }

  /** The registers say what the cells are. */
  lemma CellsOf(a: seq<Value>, b: seq<Value>)
    requires |a| == |b| && Registers(a) == Registers(b)
    ensures a == b
  {
    forall i | 0 <= i < |a| ensures a[i] == b[i] {
      assert Registers(a)[i] == Registers(b)[i];
    }
  }

  lemma RegistersUpdate(cells: seq<Value>, i: int, v: Value)
    requires 0 <= i < |cells|
    ensures Registers(cells[i := v]) == Registers(cells)[i := v]
  {
  }

  /** No object has been freed: the first slots are taken, in creation order. */
  ghost predicate Packed(st: Store) {
    st.holes == [] && st.nextId <= |st.slots| && forall i | 0 <= i < st.nextId :: st.slots[i].Some?
  }

  function Contents(slots: seq<Slot>, count: nat): (h: Heap)
    requires count <= |slots| && forall i | 0 <= i < count :: slots[i].Some?
    ensures |h| == count && forall i | 0 <= i < count :: h[i] == slots[i].value
  {
    seq(count, i requires 0 <= i < count => slots[i].value)
  }

  // ---------------------------------------------------------------- staying within the buffers

  predicate ArgFits(code: Code, s: State, arg: Arg, size: int) {
    match arg.mode
    case ConstMode => 0 <= arg.id < |code.consts|
    case RegMode => 0 <= s.rbp + arg.id < size
    case ImmMode => true
  }

  /** An operand that has a value. */
  predicate Operand(code: Code, s: State, arg: Arg, size: int) {
    ArgFits(code, s, arg, size) && arg.mode != ImmMode
  }

  predicate InstrFits(code: Code, s: State, i: Instr, size: int, depth: int) {
    var inCells := 0 <= s.rbp + i.a.id < size;
    match i.op
    case Nop => true
    case Jump => true
    case MakeSeq => inCells && |s.heap| < CAPACITY
    case SeqObjPush => inCells && ArgFits(code, s, i.b, size)
    case FrzSeqObj => inCells
    case Mov => inCells && ArgFits(code, s, i.b, size)
    case Neg => inCells
    case Compute(_) => inCells && Operand(code, s, i.b, size) && Operand(code, s, i.c, size)
    case JumpElse => inCells
    case Call => |s.frames| < depth
    case Ret => 0 <= s.rbp < size && Operand(code, s, i.a, size) && 2 * |s.heap| < CAPACITY
    case SeqObjGet => false
    case NativeCall => false
  }

  /** The next round reads an instruction of the chunk, touches only existing cells, slots and
      frames, and triggers no collection. */
  predicate Fits(code: Code, s: State, size: int, depth: int) {
    Running(s) ==> AtInstr(code, s) && InstrFits(code, s, code.chunks[s.fn][s.ip], size, depth)
  }

  datatype Exit = ExitOk | UserError | Failed(status: Status)

  class Engine {
    const code: Code
    const memory: array<Value>
    const frames: array<Frame>
    const heap: Storage
    var fn: int
    var ip: int
    var rbp: int
    var rft: int
    var depth: nat
    var status: Status

    ghost predicate Valid()
      reads this, memory, frames, heap, heap.slots
    {
      && heap.Valid() && Packed(heap.Now()) && depth <= frames.Length
      && memory.Length > 0
    }

    ghost function Objects(): Heap
      requires Valid()
      reads this, memory, frames, heap, heap.slots
    {
      Contents(heap.slots[..], heap.nextId)
    }

    ghost function Now(): State
      requires Valid()
      reads this, memory, frames, heap, heap.slots
    {
      State(fn, ip, rbp, rft, Registers(memory[..]), Objects(), frames[..depth], status)
    }

    constructor (code: Code, limit: nat, maxDepth: nat)
      requires limit > 0 && maxDepth > 0
      ensures Valid() && this.code == code && memory.Length == limit && frames.Length == maxDepth
      ensures fresh(memory) && fresh(frames) && fresh(heap) && fresh(heap.slots)
      ensures Now() == Initial(code, Registers(memory[..])) && forall i | 0 <= i < limit :: memory[i] == Dud
    {
      this.code := code;
      memory := new Value[limit](_ => Dud);
      frames := new Frame[maxDepth](_ => Frame(0, 0, 0, 0));
      heap := new Storage();
      fn, ip, rbp, rft := code.entry, 0, 0, 0;
      depth := 1;
      status := if code.entry >= 0 then Ok else SetupError;
      new;
      assert frames[..1] == [Frame(0, 0, 0, 0)];
    }

    method FetchValue(arg: Arg) returns (v: Option<Value>)
      requires Valid() && ArgFits(code, Now(), arg, memory.Length)
      ensures v == match Fetch(code, Now(), arg) case NoValue => None case Found(x) => Some(x)
    {
      match arg.mode
      case ConstMode => v := Some(code.consts[arg.id]);
      case RegMode => v := Some(memory[rbp + arg.id]);
      case ImmMode => v := None;
    }

    /** Write a register; `rft` and `ip` are left alone. */
    method SetCell(cell: int, v: Value)
      requires Valid() && 0 <= cell < memory.Length
      modifies memory
      ensures Valid() && Now() == old(Now()).(mem := old(Now()).mem[cell := v])
    {
      RegistersUpdate(memory[..], cell, v);
      ghost var cells := memory[..];
      memory[cell] := v;
      assert memory[..] == cells[cell := v];
    }

    method HandleMakeSeq(i: Instr)
      requires Valid() && i.op == MakeSeq && Running(Now()) && InstrFits(code, Now(), i, memory.Length, frames.Length)
      modifies this, memory, heap, heap.slots
      ensures Valid() && Now() == Execute(code, old(Now()), i)
    {
      ghost var h := Objects();
      var id := heap.TryCreate(SequenceTag);
      assert Objects() == h + [SeqObj([], false)];
      SetCell(rbp + i.a.id, Obj(id.value));
      ip := ip + 1;
    }

    /** Replace an object; nothing else changes. */
    method SetObject(id: nat, obj: SeqObj)
      requires Valid() && id < heap.nextId
      modifies heap.slots
      ensures Valid() && Now() == old(Now()).(heap := old(Objects())[id := obj])
    {
      ghost var h := Objects();
      heap.Update(id, obj);
      assert Objects() == h[id := obj];
    }

    method HandleSeqObjPush(i: Instr)
      requires Valid() && i.op == SeqObjPush && Running(Now()) && InstrFits(code, Now(), i, memory.Length, frames.Length)
      modifies this, heap.slots
      ensures Valid() && Now() == Execute(code, old(Now()), i)
    {
      var src := FetchValue(i.b);
      if src.None? {
        status := MemError;
        return;
      }
      var dest := memory[rbp + i.a.id];
      if dest.Obj? && dest.id < heap.nextId {
        var obj := heap.slots[dest.id].value;
        SetObject(dest.id, obj.(items := obj.items + [src.value]));
        ip := ip + 1;
      } else {
        status := MemError;
      }
    }

    method HandleFrzSeqObj(i: Instr)
      requires Valid() && i.op == FrzSeqObj && Running(Now()) && InstrFits(code, Now(), i, memory.Length, frames.Length)
      modifies this, heap.slots
      ensures Valid() && Now() == Execute(code, old(Now()), i)
    {
      var dest := memory[rbp + i.a.id];
      if dest.Obj? && dest.id < heap.nextId {
        SetObject(dest.id, heap.slots[dest.id].value.(frozen := true));
        ip := ip + 1;
      } else {
        status := MemError;
      }
    }

    /** Store a result, raise the frame top and go on. */
    method Finish(cell: int, v: Value)
      requires Valid() && 0 <= cell < memory.Length
      modifies this, memory
      ensures Valid() && Now() == M.Store(old(Now()), cell - old(rbp), v)
    {
      SetCell(cell, v);
      rft := Max(rft, cell);
      ip := ip + 1;
    }

    method HandleMov(i: Instr)
      requires Valid() && i.op == Mov && Running(Now()) && InstrFits(code, Now(), i, memory.Length, frames.Length)
      modifies this, memory
      ensures Valid() && Now() == Execute(code, old(Now()), i)
    {
      var src := FetchValue(i.b);
      if src.None? {
        status := MemError;
        return;
      }
      Finish(rbp + i.a.id, src.value);
    }

    /** A boolean is flipped and an error reported; anything else is left as it is. */
    method HandleNeg(i: Instr)
      requires Valid() && i.op == Neg && Running(Now()) && InstrFits(code, Now(), i, memory.Length, frames.Length)
      modifies this, memory
      ensures Valid() && Now() == Execute(code, old(Now()), i)
      ensures var v, cell := old(memory[rbp + i.a.id]), old(rbp) + i.a.id;
              if v.Bool? then memory[..] == old(memory[..])[cell := Bool(!v.b)] && status == ArgError && ip == old(ip)
              else memory[..] == old(memory[..]) && status == Ok && ip == old(ip) + 1
    {
      var cell := rbp + i.a.id;
      match memory[cell]
      case Bool(b) =>
        ghost var cells := memory[..];
        SetCell(cell, Bool(!b));
        CellsOf(memory[..], cells[cell := Bool(!b)]);
        rft := Max(rft, cell);
        status := ArgError;
      case _ => ip := ip + 1;
    }

    /** The eleven arithmetic and comparison handlers. */
    method HandleCompute(i: Instr)
      requires Valid() && i.op.Compute? && Running(Now()) && InstrFits(code, Now(), i, memory.Length, frames.Length)
      modifies this, memory
      ensures Valid() && Now() == Execute(code, old(Now()), i)
    {
      var lhs := FetchValue(i.b);
      var rhs := FetchValue(i.c);
      if MathFails(i.op.op, lhs.value, rhs.value) {
        status := MathError;
      } else {
        Finish(rbp + i.a.id, Apply(i.op.op, lhs.value, rhs.value));
      }
    }

    method HandleJumpElse(i: Instr)
      requires Valid() && i.op == JumpElse && Running(Now()) && InstrFits(code, Now(), i, memory.Length, frames.Length)
      modifies this
      ensures Valid() && Now() == Execute(code, old(Now()), i)
      ensures var on := match memory[rbp + i.a.id]
                        case Bool(b) => b
                        case Int(n) => n > 0 || n < 0
                        case Flt(r) => r > 0.0 || r < 0.0
                        case _ => false;
              ip == if on then old(ip) + 1 else i.b.id
    {
      if !Truthy(memory[rbp + i.a.id]) {
        ip := i.b.id;
      } else {
        ip := ip + 1;
      }
    }

    method HandleCall(i: Instr)
      requires Valid() && i.op == Call && Running(Now()) && InstrFits(code, Now(), i, memory.Length, frames.Length)
      modifies this, frames
      ensures Valid() && Now() == Execute(code, old(Now()), i)
    {
      ghost var before := frames[..depth];
      frames[depth] := Frame(fn, ip + 1, rbp, rft);
      depth := depth + 1;
      fn := i.a.id;
      ip := 0;
      rbp := rft - i.b.id + 1;
      assert frames[..depth] == before + [frames[depth - 1]];
    }

    /** The result goes to the base of the window, the caller's registers come back. A heap
        below the threshold is left alone. */
    method HandleRet(i: Instr)
      requires Valid() && i.op == Ret && Running(Now()) && InstrFits(code, Now(), i, memory.Length, frames.Length)
      modifies this, memory
      ensures Valid() && Now() == Execute(code, old(Now()), i)
    {
      var src := FetchValue(i.a);
      SetCell(rbp, src.value);
      var caller := frames[depth - 1];
      assert frames[..depth - 1] == frames[..depth][..depth - 1];
      depth := depth - 1;
      fn, ip, rbp, rft := caller.fn, caller.ip, caller.rbp, caller.rft;
      var ripe := heap.IsRipe();
      PackedLive(heap.Now());
      assert !ripe;
    }

    method Dispatch(i: Instr)
      requires Valid() && Running(Now()) && InstrFits(code, Now(), i, memory.Length, frames.Length)
      modifies this, memory, frames, heap, heap.slots
      ensures Valid() && Now() == Execute(code, old(Now()), i)
    {
      match i.op
      case Nop => ip := ip + 1;
      case MakeSeq => HandleMakeSeq(i);
      case SeqObjPush => HandleSeqObjPush(i);
      case FrzSeqObj => HandleFrzSeqObj(i);
      case Mov => HandleMov(i);
      case Neg => HandleNeg(i);
      case Compute(_) => HandleCompute(i);
      case Jump => ip := i.a.id;
      case JumpElse => HandleJumpElse(i);
      case Call => HandleCall(i);
      case Ret => HandleRet(i);
    }

    /** Fetch and execute until `main` has returned or an error stops the run. `rounds`
        witnesses that this happens. */
    method Run(ghost rounds: nat) returns (exit: Exit)
      requires Valid() && !Running(Steps(code, Now(), rounds))
      requires forall k | 0 <= k < rounds :: Fits(code, Steps(code, Now(), k), memory.Length, frames.Length)
      modifies this, memory, frames, heap, heap.slots
      ensures Valid() && Now() == Steps(code, old(Now()), rounds)
      ensures exit == if Now().status != Ok then Failed(Now().status)
                      else if ValueEquals(Read(Now().mem, 0), Int(0)) then ExitOk else UserError
    {
      hide Execute, InstrFits;
      ghost var start := Now();
      ghost var k: nat := 0;
      StepsNone(code, start);
      while depth > 0 && status == Ok
        invariant Valid() && k <= rounds && Now() == Steps(code, start, k)
        decreases rounds - k
      {
        assert Running(Now());
        assert Fits(code, Steps(code, start, k), memory.Length, frames.Length);
        var i := code.chunks[fn][ip];
        StepsSucc(code, start, k);
        Dispatch(i);
        k := k + 1;
      }
      StepsAdd(code, start, k, rounds - k);
      StoppedStays(code, Now(), rounds - k);
      if status != Ok {
        return Failed(status);
      }
      exit := if ValueEquals(memory[0], Int(0)) then ExitOk else UserError;
    }

    /** The mark phase over the registers in use. */
    method TryMark() returns (live: set<nat>)
      requires Valid() && 0 <= rft < memory.Length && NoDangling(Objects())
      requires forall c | 0 <= c <= rft && memory[c].Obj? :: memory[c].id < heap.nextId
      ensures 2 * heap.nextId < CAPACITY ==> live == {}
      ensures 2 * heap.nextId >= CAPACITY ==>
                forall id: nat :: id in live <==> Marking.Reachable(Objects(), Roots(memory[..rft + 1]), id)
    {
      var ripe := heap.IsRipe();
      PackedLive(heap.Now());
      if !ripe {
        return {};
      }
      live := Mark(memory[..rft + 1], Contents(heap.slots[..], heap.nextId));
    }
  }

  lemma {:induction false} LivePrefix(slots: seq<Slot>, count: nat)
    requires count <= |slots| && (forall i | 0 <= i < count :: slots[i].Some?) && (forall i | count <= i < |slots| :: slots[i].None?)
    ensures Live(slots) == count
  {
    if slots != [] {
      LivePrefix(slots[1..], if count > 0 then count - 1 else 0);
    }
  }

  /** Without freed slots the live objects are those created. */
  lemma PackedLive(st: HeapStorage.Store)
    requires Consistent(st) && Packed(st)
    ensures Live(st.slots) == st.nextId
  {
    LivePrefix(st.slots, st.nextId);
  }
}
