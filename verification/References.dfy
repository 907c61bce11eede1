/** No reference ever dangles: whatever a program computes refers to objects that exist. */
module References {
  import opened Values
  import opened Syntax
  import opened Semantics
  import opened Fragment
  import opened DefiniteAssignment
  import opened Ir
  import opened ExprLowering
  import opened StmtLowering
  import opened Cfg
  import opened Compiler
  import opened Correctness
  import Engine
  import Marking
  import M = Machine

  predicate ValueIn(v: Value, count: nat) {
    v.Obj? ==> v.id < count
  }

  predicate ValuesIn(vs: seq<Value>, count: nat) {
    forall i | 0 <= i < |vs| :: ValueIn(vs[i], count)
  }

  predicate HeapIn(heap: Heap, count: nat) {
    forall k | 0 <= k < |heap| :: ValuesIn(heap[k].items, count)
  }

  ghost predicate EnvIn(env: Env, count: nat) {
    forall x | x in env :: ValueIn(env[x], count)
  }

  /** The heap has only grown, and nothing in it or in the result dangles. */
  ghost predicate Sound(r: EvalResult, before: nat) {
    r.Val? ==> before <= |r.heap| && HeapIn(r.heap, |r.heap|) && ValueIn(r.v, |r.heap|)
  }

  ghost predicate AllSound(r: EvalsResult, before: nat) {
    r.Vals? ==> before <= |r.heaps| && HeapIn(r.heaps, |r.heaps|) && ValuesIn(r.vs, |r.heaps|)
  }

  ghost predicate ExecSound(r: ExecResult, before: nat) {
    match r
    case Next(env, h) => before <= |h| && HeapIn(h, |h|) && EnvIn(env, |h|)
    case Broke(env, h) => before <= |h| && HeapIn(h, |h|) && EnvIn(env, |h|)
    case Returned(v, h) => before <= |h| && HeapIn(h, |h|) && ValueIn(v, |h|)
    case Halts(_) => true
  }

  lemma EnvLater(env: Env, count: nat, count': nat)
    requires EnvIn(env, count) && count <= count'
    ensures EnvIn(env, count')
  {
  }

  lemma Made(heap: Heap)
    requires HeapIn(heap, |heap|)
    ensures HeapIn(heap + [SeqObj([], false)], |heap| + 1)
  {
  }

  lemma PushedIn(heap: Heap, id: nat, v: Value)
    requires HeapIn(heap, |heap|) && ValueIn(v, |heap|)
    ensures HeapIn(PushItem(heap, id, v), |heap|)
  {
  }

  lemma FrozenIn(heap: Heap, id: nat, isTuple: bool)
    requires HeapIn(heap, |heap|)
    ensures HeapIn(FreezeIf(heap, id, isTuple), |heap|)
  {
  }

  lemma {:induction false} EvalSound(fs: seq<Fun>, e: Expr, env: Env, heap: Heap, fuel: nat)
    requires EnvIn(env, |heap|) && HeapIn(heap, |heap|)
    ensures Sound(Eval(fs, e, env, heap, fuel), |heap|)
    decreases fuel, 1, e
  {
    hide EnvIn, HeapIn, PushItem, FreezeIf, ValuesIn, Invoke, EvalAll, EvalItems;
    match e
    case Literal(kind, lexeme) => LiteralIn(fs, e, env, heap, fuel);
    case Sequence(items, isTuple) =>
      var more := heap + [SeqObj([], false)];
      Made(heap);
      EnvLater(env, |heap|, |more|);
      ItemsSound(fs, items, |heap|, env, more, fuel);
      var r := EvalItems(fs, items, |heap|, env, more, fuel);
      if r.Val? {
        FrozenIn(r.heap, |heap|, isTuple);
      }
    case Call(callee, args) =>
      AllEvalSound(fs, args, env, heap, fuel);
      var r := EvalAll(fs, args, env, heap, fuel);
      if r.Vals? && callee.Literal? {
        InvokeSound(fs, callee.lexeme, r.vs, r.heaps, fuel);
      }
    case Binary(bop, left, right) =>
      EvalSound(fs, left, env, heap, fuel);
      var r := Eval(fs, left, env, heap, fuel);
      if r.Val? {
        EnvLater(env, |heap|, |r.heap|);
        EvalSound(fs, right, env, r.heap, fuel);
      }
    case _ =>
  }

  lemma LiteralIn(fs: seq<Fun>, e: Expr, env: Env, heap: Heap, fuel: nat)
    requires e.Literal? && EnvIn(env, |heap|) && HeapIn(heap, |heap|)
    ensures Sound(Eval(fs, e, env, heap, fuel), |heap|)
  {
    hide HeapIn;
  }

  lemma {:induction false} ItemsSound(fs: seq<Fun>, items: seq<Expr>, id: nat, env: Env, heap: Heap, fuel: nat)
    requires EnvIn(env, |heap|) && HeapIn(heap, |heap|) && id < |heap|
    ensures Sound(EvalItems(fs, items, id, env, heap, fuel), |heap|)
    decreases fuel, 1, items
  {
    hide Eval, EnvIn, HeapIn;
    if items != [] {
      EvalSound(fs, items[0], env, heap, fuel);
      var r := Eval(fs, items[0], env, heap, fuel);
      if r.Val? {
        PushedIn(r.heap, id, r.v);
        EnvLater(env, |heap|, |r.heap|);
        ItemsSound(fs, items[1..], id, env, PushItem(r.heap, id, r.v), fuel);
      }
    }
  }

  lemma {:induction false} AllEvalSound(fs: seq<Fun>, args: seq<Expr>, env: Env, heap: Heap, fuel: nat)
    requires EnvIn(env, |heap|) && HeapIn(heap, |heap|)
    ensures AllSound(EvalAll(fs, args, env, heap, fuel), |heap|)
    decreases fuel, 1, args
  {
    hide Eval, EnvIn, HeapIn;
    if args != [] {
      EvalSound(fs, args[0], env, heap, fuel);
      var r := Eval(fs, args[0], env, heap, fuel);
      if r.Val? {
        EnvLater(env, |heap|, |r.heap|);
        AllEvalSound(fs, args[1..], env, r.heap, fuel);
      }
    }
  }

  lemma {:induction false} BoundIn(params: seq<string>, vs: seq<Value>, count: nat)
    requires |params| == |vs| && ValuesIn(vs, count)
    ensures EnvIn(Bind(params, vs), count)
  {
    if params != [] {
      BoundIn(params[..|params| - 1], vs[..|vs| - 1], count);
    }
  }

  lemma {:induction false} InvokeSound(fs: seq<Fun>, name: string, vs: seq<Value>, heap: Heap, fuel: nat)
    requires ValuesIn(vs, |heap|) && HeapIn(heap, |heap|)
    ensures Sound(Invoke(fs, name, vs, heap, fuel), |heap|)
    decreases fuel, 0
  {
    hide FindFunction, HeapIn, Bind, ValuesIn, EnvIn;
    var k := FindFunction(fs, name);
    if k < |fs| && |fs[k].params| == |vs| && fuel > 0 {
      BoundIn(fs[k].params, vs, |heap|);
      ExecAllSound(fs, fs[k].body, Bind(fs[k].params, vs), heap, fuel - 1);
    }
  }

  lemma {:induction false} ExecAllSound(fs: seq<Fun>, ss: seq<Stmt>, env: Env, heap: Heap, fuel: nat)
    requires EnvIn(env, |heap|) && HeapIn(heap, |heap|)
    ensures ExecSound(Exec(fs, ss, env, heap, fuel), |heap|)
    decreases fuel, 1, ss
  {
    hide ExecStmt, EnvIn, HeapIn;
    if ss != [] {
      ExecStmtSound(fs, ss[0], env, heap, fuel);
      var r := ExecStmt(fs, ss[0], env, heap, fuel);
      if r.Next? {
        ExecAllSound(fs, ss[1..], r.env, r.heap, fuel);
      }
    }
  }

  lemma SetIn(env: Env, x: string, v: Value, count: nat)
    requires EnvIn(env, count) && ValueIn(v, count)
    ensures EnvIn(env[x := v], count)
  {
  }

  lemma {:induction false} ExecStmtSound(fs: seq<Fun>, s: Stmt, env: Env, heap: Heap, fuel: nat)
    requires EnvIn(env, |heap|) && HeapIn(heap, |heap|)
    ensures ExecSound(ExecStmt(fs, s, env, heap, fuel), |heap|)
    decreases fuel, 1, s
  {
    hide Eval, Exec, EnvIn, HeapIn, ValueIn;
    match s
    case Break =>
    case ExprStmt(_) => ValueSound(fs, s, if s.expr.Assign? then s.expr.value else s.expr, env, heap, fuel);
    case LocalDef(_, _) => ValueSound(fs, s, s.init, env, heap, fuel);
    case Return(_) => ValueSound(fs, s, s.result, env, heap, fuel);
    case If(cond, thn, els) =>
      EvalSound(fs, cond, env, heap, fuel);
      var c := Eval(fs, cond, env, heap, fuel);
      if c.Val? {
        EnvLater(env, |heap|, |c.heap|);
        ExecAllSound(fs, thn, env, c.heap, fuel);
        if els.Else? {
          ExecAllSound(fs, els.body, env, c.heap, fuel);
        }
      }
    case While(check, body) =>
      EvalSound(fs, check, env, heap, fuel);
      var c := Eval(fs, check, env, heap, fuel);
      if fuel > 0 && c.Val? {
        EnvLater(env, |heap|, |c.heap|);
        ExecAllSound(fs, body, env, c.heap, fuel);
        var r := Exec(fs, body, env, c.heap, fuel);
        if r.Next? {
          ExecStmtSound(fs, s, r.env, r.heap, fuel - 1);
        }
      }
  }

  /** A statement that evaluates one expression. */
  lemma {:induction false} ValueSound(fs: seq<Fun>, s: Stmt, e: Expr, env: Env, heap: Heap, fuel: nat)
    requires EnvIn(env, |heap|) && HeapIn(heap, |heap|)
    requires match s
             case ExprStmt(x) => e == if x.Assign? then x.value else x
             case LocalDef(_, x) => e == x
             case Return(x) => e == x
             case _ => false
    ensures ExecSound(ExecStmt(fs, s, env, heap, fuel), |heap|)
    decreases fuel, 1, s, 0
  {
    hide Eval, EnvIn, HeapIn, ValueIn;
    EvalSound(fs, e, env, heap, fuel);
    var r := Eval(fs, e, env, heap, fuel);
    if r.Val? {
      EnvLater(env, |heap|, |r.heap|);
      if s.LocalDef? {
        SetIn(env, s.name, r.v, |r.heap|);
      } else if s.ExprStmt? && s.expr.Assign? && s.expr.target.Literal? {
        SetIn(env, s.expr.target.lexeme, r.v, |r.heap|);
      }
    }
  }

  /** When the machine has returned, its result and every item on its heap refer to objects of
      that heap. */
  lemma NothingDangles(p: Program, natives: map<string, int>, mem: map<int, Value>, k: nat)
    requires WellFormed(p, natives.Keys) && DefinitelyAssigned(p)
    ensures Compile(natives, p).Some?
    ensures var t := After(Compile(natives, p).value, mem, k);
            M.Finished(t) ==> HeapIn(t.heap, |t.heap|) && ValueIn(M.Read(t.mem, 0), |t.heap|)
  {
    hide WellFormed, DefinitelyAssigned, Compile, Functions, Invoke, After, HeapIn, ValueIn, M.Read;
    Corresponds(p, natives, mem);
    assert HeapIn([], 0) by { EmptyIn(); }
    InvokeSound(Functions(p), "main", [], [], k + 2);
  }

  lemma EmptyIn()
    ensures HeapIn([], 0)
  {
  }

  // ---------------------------------------------------------------- the machine, on any code

  predicate Plain(vs: seq<Value>) {
    forall i | 0 <= i < |vs| :: !vs[i].Obj?
  }

  ghost predicate PlainMemory(mem: map<int, Value>) {
    forall c | c in mem :: !mem[c].Obj?
  }

  /** Registers and items refer to existing objects, and no frame top is negative. */
  ghost predicate Intact(s: M.State) {
    && HeapIn(s.heap, |s.heap|) && (forall c | c in s.mem :: ValueIn(s.mem[c], |s.heap|))
    && s.rft >= 0 && forall i | 0 <= i < |s.frames| :: s.frames[i].rft >= 0
  }

  lemma FetchedIn(code: M.Code, s: M.State, arg: M.Arg)
    requires Plain(code.consts) && Intact(s) && M.Fetch(code, s, arg).Found?
    ensures ValueIn(M.Fetch(code, s, arg).v, |s.heap|)
  {
  }

  lemma StoredIntact(s: M.State, t: M.State, cell: int, v: Value)
    requires Intact(s) && ValueIn(v, |s.heap|) && t.mem == s.mem[cell := v] && t.heap == s.heap
    requires t.rft >= 0 && forall i | 0 <= i < |t.frames| :: t.frames[i].rft >= 0
    ensures Intact(t)
  {
    hide HeapIn, ValueIn;
  }

  lemma StepIntact(code: M.Code, s: M.State)
    requires Plain(code.consts) && Intact(s)
    ensures Intact(M.Step(code, s))
  {
    hide HeapIn;
    if M.Running(s) && M.AtInstr(code, s) {
      var i, t := code.chunks[s.fn][s.ip], M.Step(code, s);
      match i.op
      case MakeSeq => Made(s.heap);
      case SeqObjPush => PushIntact(code, s, i);
      case FrzSeqObj => FreezeIntact(s, i);
      case Mov =>
        if M.Fetch(code, s, i.b).Found? {
          FetchedIn(code, s, i.b);
        }
      case Ret =>
        if M.Fetch(code, s, i.a).Found? {
          FetchedIn(code, s, i.a);
          StoredIntact(s, t, s.rbp, M.Fetch(code, s, i.a).v);
        }
      case _ =>
    }
  }

  lemma PushIntact(code: M.Code, s: M.State, i: M.Instr)
    requires Plain(code.consts) && Intact(s)
    ensures Intact(M.StepPush(code, s, i))
  {
    var r := M.Fetch(code, s, i.b);
    var dest := M.Read(s.mem, s.rbp + i.a.id);
    if r.Found? && dest.Obj? && dest.id < |s.heap| {
      FetchedIn(code, s, i.b);
      var heap := s.heap[dest.id := s.heap[dest.id].(items := s.heap[dest.id].items + [r.v])];
      assert HeapIn(heap, |heap|);
    }
  }

  lemma FreezeIntact(s: M.State, i: M.Instr)
    requires Intact(s)
    ensures Intact(M.StepFreeze(s, i))
  {
  }

  /** Whatever the code: with constants and start memory free of references, none dangles in any
      state that is reached. */
  lemma {:induction false} ReachedIntact(code: M.Code, mem: map<int, Value>, k: nat)
    requires Plain(code.consts) && PlainMemory(mem)
    ensures Intact(After(code, mem, k))
  {
    hide M.Step, Intact;
    if k == 0 {
      M.StepsNone(code, M.Initial(code, mem));
      assert Intact(M.Initial(code, mem)) by { StartIntact(code, mem); }
    } else {
      ReachedIntact(code, mem, k - 1);
      M.StepsSucc(code, M.Initial(code, mem), k - 1);
      StepIntact(code, After(code, mem, k - 1));
    }
  }

  lemma StartIntact(code: M.Code, mem: map<int, Value>)
    requires PlainMemory(mem)
    ensures Intact(M.Initial(code, mem))
  {
  }

  // ---------------------------------------------------------------- compiled code

  lemma LiteralPlain(kind: TokenKind, lexeme: string)
    ensures !LiteralValue(kind, lexeme).Obj?
  {
  }

  lemma {:induction false} ExprPools(nm: Names, e: Expr, pool: Pool, n: int)
    requires Plain(pool.consts)
    ensures Plain(LowerExpr(nm, e, pool, n).pool.consts)
    decreases e
  {
    hide LiteralValue, Lookup;
    match e
    case Literal(kind, lexeme) => LiteralPlain(kind, lexeme);
    case Sequence(items, _) => ItemPools(nm, items, TempAt(n), pool, n + 1);
    case Lambda =>
    case Call(callee, args) =>
      ExprPools(nm, callee, pool, n);
      var c := LowerExpr(nm, callee, pool, n);
      ArgPools(nm, args, c.pool, c.next);
    case Unary(_, inner) => ExprPools(nm, inner, pool, n);
    case Binary(_, left, right) =>
      ExprPools(nm, left, pool, n);
      var l := LowerExpr(nm, left, pool, n);
      ExprPools(nm, right, l.pool, l.next);
    case Assign(target, value) =>
      ExprPools(nm, target, pool, n);
      var l := LowerExpr(nm, target, pool, n);
      ExprPools(nm, value, l.pool, l.next);
  }

  lemma {:induction false} ItemPools(nm: Names, items: seq<Expr>, dest: Addr, pool: Pool, n: int)
    requires Plain(pool.consts)
    ensures Plain(LowerItems(nm, items, dest, pool, n).pool.consts)
    decreases items
  {
    hide LowerExpr, Plain;
    if items != [] {
      ExprPools(nm, items[0], pool, n);
      var h := LowerExpr(nm, items[0], pool, n);
      if h.addr.Some? {
        ItemPools(nm, items[1..], dest, h.pool, h.next);
      }
    }
  }

  lemma {:induction false} ArgPools(nm: Names, args: seq<Expr>, pool: Pool, n: int)
    requires Plain(pool.consts)
    ensures Plain(LowerArgs(nm, args, pool, n).pool.consts)
    decreases args
  {
    hide LowerExpr, Plain;
    if args != [] {
      ExprPools(nm, args[0], pool, n);
      var h := LowerExpr(nm, args[0], pool, n);
      if h.addr.Some? {
        ArgPools(nm, args[1..], h.pool, h.next + 1);
      }
    }
  }

  lemma {:induction false} StmtPools(s: Stmt, nm: Names, pool: Pool, n: int, here: int)
    requires Plain(pool.consts)
    ensures Plain(LowerStmt(s, nm, pool, n, here).pool.consts)
    decreases s, 1
  {
    hide LowerExpr, LowerStmts, Plain, Glue;
    match s
    case ExprStmt(e) => ExprPools(nm, e, pool, n);
    case LocalDef(_, init) => ExprPools(nm, init, pool, n);
    case Return(result) => ExprPools(nm, result, pool, n);
    case Break =>
    case If(cond, _, _) =>
      ExprPools(nm, cond, pool, n);
      IfPools(s, nm, pool, n, here);
    case While(check, body) =>
      ExprPools(nm, check, pool, n);
      var r := LowerExpr(nm, check, pool, n);
      if r.addr.Some? {
        StmtsPools(body, nm, r.pool, r.next, here + 1);
      }
  }

  lemma {:induction false} IfPools(s: Stmt, nm: Names, pool: Pool, n: int, here: int)
    requires s.If? && Plain(LowerExpr(nm, s.cond, pool, n).pool.consts)
    ensures Plain(LowerStmt(s, nm, pool, n, here).pool.consts)
    decreases s, 0
  {
    hide LowerExpr, LowerStmts, LowerBlock, Plain, BeginIf, BeginElse, EndIf, EndElse, Join;
    var r := LowerExpr(nm, s.cond, pool, n);
    if r.addr.Some? {
      var e := BeginIf(nm, pool, n, r);
      BeginPool(nm, pool, n, r);
      BlockPools(s.thn, nm, e.pool, e.next, here);
      var t := LowerBlock(s.thn, nm, e.pool, e.next, here);
      var e' := Connect(Join(e, t), here, if t.ok then here + 1 else -1);
      JoinPool(e, t);
      EndPools(e', here, if t.ok then here + 1 else -1);
      if s.els.Else? {
        var alt := BeginElse(e');
        var elseHere := here + |alt.blocks| - 1;
        BlockPools(s.els.body, alt.nm, alt.pool, alt.next, elseHere);
        var f := LowerBlock(s.els.body, alt.nm, alt.pool, alt.next, elseHere);
        JoinPool(alt, f);
        EndPools(Join(alt, f), here, if f.ok then elseHere + 1 else -1);
      }
    }
  }

  lemma BeginPool(nm: Names, pool: Pool, n: int, r: Lowered)
    requires r.addr.Some?
    ensures BeginIf(nm, pool, n, r).pool == r.pool && BeginIf(nm, pool, n, r).nm == nm
  {
  }

  lemma JoinPool(a: Emitted, b: Emitted)
    requires a.blocks != [] && b.blocks != []
    ensures Join(a, b).pool == b.pool
  {
  }

  lemma EndPools(e: Emitted, here: int, id: int)
    requires e.blocks != []
    ensures EndIf(e, here, id).pool == EndElse(e, here, id).pool == BeginElse(e).pool == e.pool
  {
  }

  lemma {:induction false} BlockPools(ss: seq<Stmt>, nm: Names, pool: Pool, n: int, here: int)
    requires Plain(pool.consts)
    ensures Plain(LowerBlock(ss, nm, pool, n, here).pool.consts)
    decreases ss, 1
  {
    hide LowerStmts, Plain;
    StmtsPools(ss, nm, pool, n, here + 1);
  }

  lemma {:induction false} StmtsPools(ss: seq<Stmt>, nm: Names, pool: Pool, n: int, here: int)
    requires Plain(pool.consts)
    ensures Plain(LowerStmts(ss, nm, pool, n, here).pool.consts)
    decreases ss, 0
  {
    hide LowerStmt, Plain;
    if ss != [] {
      StmtPools(ss[0], nm, pool, n, here);
      var h := LowerStmt(ss[0], nm, pool, n, here);
      if h.ok {
        StmtsPools(ss[1..], h.nm, h.pool, h.next, here + |h.blocks| - 1);
      }
    }
  }

  lemma {:induction false} DeclPools(natives: map<string, int>, p: Program, u: Unit)
    requires Plain(u.pool.consts) && LowerDecls(natives, p, u).Some?
    ensures Plain(LowerDecls(natives, p, u).value.pool.consts)
    decreases p
  {
    hide LowerStmts, ApplyLinks, RecordParams, Plain;
    if p != [] && p[0].Function? {
      var f := p[0].fun;
      StmtsPools(f.body, Names(natives, RecordParams(f.params).value), u.pool, |f.params|, 0);
      DeclPools(natives, p[1..], LowerFunction(natives, f, u).value);
    } else if p != [] {
      DeclPools(natives, p[1..], u);
    }
  }

  /** No constant of a compiled program is an object. */
  lemma ConstantsPlain(p: Program, natives: map<string, int>)
    requires Compile(natives, p).Some?
    ensures Plain(Compile(natives, p).value.consts)
  {
    hide LowerDecls, EmitChunks, CollectFunctions;
    var pre := CollectFunctions(p, Prepass(map[], 0, -1)).value;
    DeclPools(natives, p, Unit([], Pool(pre.globals, []), 0));
  }

  /** Any program that is compiled, in the fragment or not, in any state of any run: registers
      and items refer to objects that exist. */
  lemma NeverDangles(p: Program, natives: map<string, int>, mem: map<int, Value>, k: nat)
    requires Compile(natives, p).Some? && PlainMemory(mem)
    ensures Intact(After(Compile(natives, p).value, mem, k))
  {
    hide *;
    ConstantsPlain(p, natives);
    ReachedIntact(Compile(natives, p).value, mem, k);
  }

  // ---------------------------------------------------------------- the mark phase

  /** While a run stays within the registers, so does the frame top. */
  lemma {:induction false} TopInside(code: M.Code, mem: map<int, Value>, k: nat, size: nat, depth: nat)
    requires size > 0 && forall j | 0 <= j < k :: Engine.Fits(code, After(code, mem, j), size, depth)
    ensures var s := After(code, mem, k); s.rft < size && forall i | 0 <= i < |s.frames| :: s.frames[i].rft < size
  {
    if k == 0 {
      M.StepsNone(code, M.Initial(code, mem));
    } else {
      TopInside(code, mem, k - 1, size, depth);
      M.StepsSucc(code, M.Initial(code, mem), k - 1);
      assert Engine.Fits(code, After(code, mem, k - 1), size, depth);
      StepInside(code, After(code, mem, k - 1), size, depth);
    }
  }

  lemma StepInside(code: M.Code, s: M.State, size: nat, depth: nat)
    requires Engine.Fits(code, s, size, depth) && s.rft < size && forall i | 0 <= i < |s.frames| :: s.frames[i].rft < size
    ensures var t := M.Step(code, s); t.rft < size && forall i | 0 <= i < |t.frames| :: t.frames[i].rft < size
  {
  }

  /** An engine that runs a compiled program from plain registers meets what the mark phase asks
      for, whenever it is entered. */
  lemma ReadyToMark(e: Engine.Engine, p: Program, natives: map<string, int>, mem: map<int, Value>, k: nat)
    requires e.Valid() && Compile(natives, p) == Some(e.code) && PlainMemory(mem) && e.Now() == After(e.code, mem, k)
    requires forall j | 0 <= j < k :: Engine.Fits(e.code, After(e.code, mem, j), e.memory.Length, e.frames.Length)
    ensures 0 <= e.rft < e.memory.Length && Marking.NoDangling(e.Objects())
    ensures forall c | 0 <= c <= e.rft && e.memory[c].Obj? :: e.memory[c].id < e.heap.nextId
  {
    hide Compile, After, Engine.Fits;
    NeverDangles(p, natives, mem, k);
    TopInside(e.code, mem, k, e.memory.Length, e.frames.Length);
  }
}
