/** How a machine state inside one activation matches a source environment, and what each
    single instruction does to that match. */
module SimulationBase {
  import opened Values
  import opened Syntax
  import opened Semantics
  import opened ExprLowering
  import opened Fragment
  import opened LoweringFacts
  import opened CompileFacts
  import opened Compositional
  import opened M = Machine
  import Ir

  /** A program with the code it was compiled to; `pools[i]` is the constant pool found by
      function `i` when its lowering began, `tables[i]` its local table in the end. */
  datatype Linked = Linked(
    sg: Signature, natives: map<string, int>, pools: seq<Pool>, tables: seq<map<string, Ir.Addr>>, code: M.Code)

  function Table(l: Linked, fn: int): map<string, Ir.Addr> {
    if 0 <= fn < |l.tables| then l.tables[fn] else map[]
  }

  /** Parameters occupy the first registers. */
  function ParamLocals(params: seq<string>): map<string, Ir.Addr> {
    if params == [] then map[]
    else ParamLocals(params[..|params| - 1])[params[|params| - 1] := Ir.TempAt(|params| - 1)]
  }

  ghost predicate FunctionPlaced(l: Linked, i: nat)
    requires i < |l.sg.fs| == |l.pools| == |l.code.chunks| == |l.tables|
  {
    var f := l.sg.fs[i];
    var c := CompileStmts(f.body, Names(l.natives, ParamLocals(f.params)), l.pools[i], |f.params|, 0, 0);
    l.code.chunks[i] == c.code && l.tables[i] == c.nm.locals && c.pool.consts <= l.code.consts && GoodPool(l.sg.fs, l.pools[i])
  }

  ghost predicate WellLinked(l: Linked) {
    && NamesOk(l.sg.fs) && l.natives.Keys == l.sg.natives
    && |l.sg.fs| == |l.pools| == |l.code.chunks| == |l.tables|
    && forall i | 0 <= i < |l.sg.fs| :: OkFunction(l.sg, l.sg.fs[i]) && FunctionPlaced(l, i)
  }

  lemma LinkedNames(l: Linked)
    requires WellLinked(l)
    ensures NamesOk(l.sg.fs)
  {
    hide OkFunction, FunctionPlaced;
  }

  /** The instructions found at an index of a chunk. */
  ghost predicate Placed(code: M.Code, fn: int, ip: int, instrs: Chunk) {
    && 0 <= fn < |code.chunks| && 0 <= ip && ip + |instrs| <= |code.chunks[fn]|
    && code.chunks[fn][ip..ip + |instrs|] == instrs
  }

  lemma PlacedSplit(code: M.Code, fn: int, ip: int, a: Chunk, b: Chunk)
    requires Placed(code, fn, ip, a + b)
    ensures Placed(code, fn, ip, a) && Placed(code, fn, ip + |a|, b)
  {
    var c := code.chunks[fn];
    assert c[ip..ip + |a|] == c[ip..ip + |a + b|][..|a|] == (a + b)[..|a|];
    assert c[ip + |a|..ip + |a| + |b|] == c[ip..ip + |a + b|][|a|..] == (a + b)[|a|..];
  }

  lemma PlacedOne(code: M.Code, s: State, i: Instr)
    requires Placed(code, s.fn, s.ip, [i]) && Running(s)
    ensures M.Step(code, s) == Execute(code, s, i)
  {
    assert code.chunks[s.fn][s.ip..s.ip + 1][0] == i;
  }

  /** Every variable in the environment has its value in its own register, below `top`. */
  ghost predicate Agree(s: State, all: map<string, Ir.Addr>, env: Env, top: int) {
    forall x | x in env :: x in all && 0 <= all[x].id < top && Read(s.mem, s.rbp + all[x].id) == env[x]
  }

  /** The names known at counter `next` keep their registers to the end of the function, and
      all others get later ones. In a second round of a loop, variables of the first round may
      hold values although they are not yet known at this place of the text. */
  ghost predicate Ahead(all: map<string, Ir.Addr>, nm: Names, next: int) {
    && (forall x | x in nm.locals :: x in all && all[x] == nm.locals[x])
    && (forall x | x in all :: x in nm.locals || all[x].id >= next)
    && (forall x, y | x in all && y in all && x != y :: all[x].id != all[y].id)
  }

  lemma AheadBefore(all: map<string, Ir.Addr>, later: Names, next: int, nm: Names, n: int)
    requires Ahead(all, later, next) && Keeps(later, nm) && NewFrom(later, nm, n) && n <= next
    ensures Ahead(all, nm, n)
  {
  }

  lemma AheadEarlier(all: map<string, Ir.Addr>, nm: Names, next: int, n: int)
    requires Ahead(all, nm, next) && n <= next
    ensures Ahead(all, nm, n)
  {
  }

  lemma AheadEnd(sg: Signature, nm: Names, n: int)
    requires GoodNames(sg, nm, n)
    ensures Ahead(nm.locals, nm, n)
  {
    hide FreshName;
  }

  ghost predicate TopBound(s: State, n: int, lim: int) {
    lim >= 1 && s.rft <= s.rbp + Max(n, lim) - 1
  }

  ghost predicate Ready(l: Linked, s: State, nm: Names, pool: Pool, env: Env, n: int, lim: int) {
    && Running(s) && n >= 0 && GoodPool(l.sg.fs, pool) && GoodNames(l.sg, nm, n)
    && Agree(s, Table(l, s.fn), env, Max(n, lim)) && TopBound(s, n, lim)
  }

  /** From `s` to `t` within one activation: `len` instructions further, only registers from
      `n` to `next` changed of those below `lim`, and at most `next` registers in use. */
  ghost predicate Advanced(s: State, t: State, len: int, n: int, next: int, lim: int, h: Heap) {
    && t == State(s.fn, s.ip + len, s.rbp, t.rft, t.mem, h, s.frames, Ok)
    && (forall i | i < s.rbp + n || s.rbp + next <= i < s.rbp + lim :: Read(t.mem, i) == Read(s.mem, i))
    && TopBound(t, next, lim)
  }

  /** How the machine shows that the source evaluation has no value; nothing is said about a
      source run that reads a name without a value. */
  ghost predicate Stopped(code: M.Code, s: State, k: nat, fuel: nat, why: Stop) {
    var t := M.Steps(code, s, k);
    match why
    case MathError => t.status == M.MathError
    case OffEnd => t.status == M.RanOff
    case Timeout => k >= fuel && Running(t)
    case Stuck => true
  }

  lemma StoppedLater(code: M.Code, s: State, j: nat, k: nat, fuel: nat, why: Stop)
    requires Stopped(code, M.Steps(code, s, j), k, fuel, why)
    ensures Stopped(code, s, j + k, fuel, why)
    ensures j > 0 ==> Stopped(code, s, j + k, fuel + 1, why)
  {
    StepsAdd(code, s, j, k);
  }

  lemma AdvancedTrans(s: State, t: State, u: State, len1: int, len2: int, n: int, n1: int, n2: int, lim: int, h1: Heap, h2: Heap)
    requires Advanced(s, t, len1, n, n1, lim, h1) && Advanced(t, u, len2, n1, n2, lim, h2) && n <= n1 <= n2
    ensures Advanced(s, u, len1 + len2, n, n2, lim, h2)
  {
  }

  lemma ReadyAfter(l: Linked, s: State, t: State, nm: Names, pool: Pool, pool': Pool, env: Env, len: int, n: int, n1: int, lim: int, h: Heap)
    requires Ready(l, s, nm, pool, env, n, lim) && Advanced(s, t, len, n, n1, lim, h) && n <= n1
    requires GoodPool(l.sg.fs, pool') && Ahead(Table(l, s.fn), nm, n1)
    ensures Ready(l, t, nm, pool', env, n1, lim)
  {
    hide GoodPool, Table;
    GoodNamesGrow(l.sg, nm, n, n1);
    AgreeKept(l.sg, s, t, Table(l, s.fn), nm, env, len, n, n1, lim, h);
  }

  /** No variable lives in a register that was written. */
  lemma AgreeKept(
    sg: Signature, s: State, t: State, all: map<string, Ir.Addr>, nm: Names, env: Env, len: int, n: int, next: int, lim: int, h: Heap)
    requires Agree(s, all, env, Max(n, lim)) && Advanced(s, t, len, n, next, lim, h) && n <= next
    requires Ahead(all, nm, next) && GoodNames(sg, nm, n)
    ensures Agree(t, all, env, Max(next, lim))
  {
    hide FreshName;
    forall x | x in env
      ensures x in all && 0 <= all[x].id < Max(next, lim) && Read(t.mem, t.rbp + all[x].id) == env[x]
    {
      var id := all[x].id;
      assert id < n || next <= id < lim;
      assert Read(t.mem, s.rbp + id) == Read(s.mem, s.rbp + id);
    }
  }

  lemma ReadyParts(l: Linked, s: State, nm: Names, pool: Pool, env: Env, n: int, lim: int)
    requires Ready(l, s, nm, pool, env, n, lim)
    ensures Running(s) && n >= 0 && GoodPool(l.sg.fs, pool) && GoodNames(l.sg, nm, n)
    ensures TopBound(s, n, lim) && Agree(s, Table(l, s.fn), env, Max(n, lim))
  {
    hide GoodPool, GoodNames;
  }

  lemma FetchKept(code: M.Code, t: State, u: State, aa: Ir.Addr, pool: Pool, len: int, n: int, n1: int, lim: int, h: Heap)
    requires Advanced(t, u, len, n, n1, lim, h) && ValidAddr(aa, pool, n)
    ensures Fetch(code, u, Translate(aa)) == Fetch(code, t, Translate(aa))
  {
  }

  lemma FetchConst(l: Linked, s: State, aa: Ir.Addr, pool: Pool)
    requires aa.tag == Ir.Constant && 0 <= aa.id < |pool.consts| && pool.consts <= l.code.consts
    ensures Fetch(l.code, s, Translate(aa)) == M.Found(pool.consts[aa.id])
  {
  }

  lemma StepMove(code: M.Code, s: State, src: Ir.Addr, v: Value, n: int, lim: int)
    requires Running(s) && Placed(code, s.fn, s.ip, [MovInstr(Ir.TempAt(n), src)])
    requires Fetch(code, s, Translate(src)) == M.Found(v) && TopBound(s, n, lim)
    ensures var t := M.Step(code, s);
            && Advanced(s, t, 1, n, n + 1, lim, s.heap) && Read(t.mem, s.rbp + n) == v
            && t.rft >= s.rbp + n
  {
    PlacedOne(code, s, MovInstr(Ir.TempAt(n), src));
  }

  lemma StepBinary(code: M.Code, s: State, a: Ir.Addr, b: Ir.Addr, x: Value, y: Value, op: Arith, n: int, lim: int)
    requires Running(s) && TopBound(s, n, lim)
    requires Placed(code, s.fn, s.ip, TranslateStep(Ir.TacBinary(Ir.TempAt(n), a, b, op)))
    requires Fetch(code, s, Translate(a)) == M.Found(x) && Fetch(code, s, Translate(b)) == M.Found(y)
    ensures var t := M.Step(code, s);
            if MathFails(op, x, y) then t.status == M.MathError
            else Advanced(s, t, 1, n, n + 1, lim, s.heap) && Read(t.mem, s.rbp + n) == Apply(op, x, y)
  {
    PlacedOne(code, s, M.Instr(M.Compute(op), Translate(Ir.TempAt(n)), Translate(a), Translate(b)));
  }

  lemma StepMakeSeq(code: M.Code, s: State, n: int, lim: int)
    requires Running(s) && TopBound(s, n, lim)
    requires Placed(code, s.fn, s.ip, TranslateStep(Ir.OperUnary(Ir.TempAt(n), Ir.MakeSeq)))
    ensures var t := M.Step(code, s);
            && Advanced(s, t, 1, n, n + 1, lim, s.heap + [SeqObj([], false)])
            && Read(t.mem, s.rbp + n) == Obj(|s.heap|)
  {
    PlacedOne(code, s, Single(M.MakeSeq, Translate(Ir.TempAt(n))));
  }

  lemma StepPushItem(code: M.Code, s: State, reg: int, id: nat, src: Ir.Addr, v: Value, n: int, lim: int)
    requires Running(s) && TopBound(s, n, lim)
    requires Placed(code, s.fn, s.ip, TranslateStep(Ir.OperTernary(Ir.TempAt(reg), src, Ir.Imm(1), Ir.SeqObjPush)))
    requires Fetch(code, s, Translate(src)) == M.Found(v) && Read(s.mem, s.rbp + reg) == Obj(id) && id < |s.heap|
    ensures Advanced(s, M.Step(code, s), 1, n, n, lim, PushItem(s.heap, id, v))
  {
    PlacedOne(code, s, M.Instr(M.SeqObjPush, Translate(Ir.TempAt(reg)), Translate(src), Translate(Ir.Imm(1))));
  }

  lemma StepFreezeSeq(code: M.Code, s: State, reg: int, id: nat, n: int, lim: int)
    requires Running(s) && TopBound(s, n, lim)
    requires Placed(code, s.fn, s.ip, TranslateStep(Ir.OperUnary(Ir.TempAt(reg), Ir.FrzSeqObj)))
    requires Read(s.mem, s.rbp + reg) == Obj(id) && id < |s.heap|
    ensures Advanced(s, M.Step(code, s), 1, n, n, lim, FreezeIf(s.heap, id, true))
  {
    PlacedOne(code, s, Single(M.FrzSeqObj, Translate(Ir.TempAt(reg))));
  }
}
