/** Evaluating the compiler, the machine and the source semantics on given programs, one
    construct at a time. */
module Evaluation {
  import opened Values
  import opened Syntax
  import opened Semantics
  import opened Fragment
  import opened ExprLowering
  import opened LoweringFacts
  import opened Compositional
  import opened CleanLowering
  import opened LostBlocks
  import opened Compiler
  import opened CompilerFacts
  import opened CleanPrograms
  import opened Correctness
  import opened FuelFacts
  import Ir
  import M = Machine

  // ---------------------------------------------------------------- unfolding

  function Constant(k: int): Ir.Addr { Ir.Addr(Ir.Constant, k) }

  /** The pool with one more constant. */
  function With(pool: Pool, lexeme: string, v: Value): Pool {
    Pool(pool.globals[lexeme := Constant(|pool.consts|)], pool.consts + [v])
  }

  /** A literal that is met for the first time. */
  lemma FirstUse(nm: Names, pool: Pool, kind: TokenKind, lexeme: string, n: int, v: Value)
    requires kind !in {TkIdent, TkOther} && lexeme !in pool.globals && v == LiteralValue(kind, lexeme)
    ensures LowerExpr(nm, Literal(kind, lexeme), pool, n) == Lowered([], Some(Constant(|pool.consts|)), With(pool, lexeme, v), n, 0)
  {
    hide LiteralValue;
  }

  lemma Reuse(nm: Names, pool: Pool, kind: TokenKind, lexeme: string, n: int)
    requires kind !in {TkIdent, TkOther} && lexeme in pool.globals
    ensures LowerExpr(nm, Literal(kind, lexeme), pool, n) == Lowered([], Some(pool.globals[lexeme]), pool, n, 0)
  {
    hide LiteralValue;
  }

  lemma Variable(nm: Names, pool: Pool, x: string, n: int)
    requires x !in nm.natives && x !in pool.globals && x in nm.locals
    ensures LowerExpr(nm, Literal(TkIdent, x), pool, n) == Lowered([], Some(nm.locals[x]), pool, n, 0)
  {
  }

  lemma Sum(nm: Names, pool: Pool, e: Expr, n: int)
    requires e.Binary? && e.bop.Arith? && LowerExpr(nm, e.left, pool, n).addr.Some?
    requires var l := LowerExpr(nm, e.left, pool, n); LowerExpr(nm, e.right, l.pool, l.next).addr.Some?
    ensures var l := LowerExpr(nm, e.left, pool, n);
            var r := LowerExpr(nm, e.right, l.pool, l.next);
            LowerExpr(nm, e, pool, n) ==
              Lowered(l.steps + r.steps + [Ir.TacBinary(Ir.TempAt(r.next), l.addr.value, r.addr.value, e.bop.op)], Some(Ir.TempAt(r.next)),
                      r.pool, r.next + 1, l.errors + r.errors)
  {
    hide LiteralValue, LowerItems, LowerArgs, Intern, Lookup;
  }

  /** A call without arguments. */
  lemma CallNothing(nm: Names, pool: Pool, f: string, n: int, id: int)
    requires f !in nm.natives && f in pool.globals && pool.globals[f] == Ir.Imm(id)
    ensures LowerExpr(nm, Call(Literal(TkIdent, f), []), pool, n) ==
              Lowered([Ir.OperBinary(Ir.Imm(id), Ir.Imm(0), Ir.CallOp)], Some(Ir.TempAt(n)), pool, n, 0)
  {
    var e := Call(Literal(TkIdent, f), []);
    assert LowerExpr(nm, e.callee, pool, n) == Lowered([], Some(Ir.Imm(id)), pool, n, 0);
    assert LowerArgs(nm, [], pool, n) == Lowered([], Some(Ir.Imm(0)), pool, n, 0);
  }

  lemma TwoSteps(a: Ir.Step, b: Ir.Step)
    requires !a.OperNonary? && !b.OperNonary?
    ensures NoMarkers([a, b]) && TranslateAll([a, b]) == TranslateStep(a) + TranslateStep(b)
  {
    hide TranslateStep;
    assert [a, b] == [a] + [b];
    TranslateAppend([a], [b]);
    NoMarkersAppend([a], [b]);
    TranslateOne(a);
    TranslateOne(b);
  }

  lemma ThreeSteps(a: Ir.Step, b: Ir.Step, c: Ir.Step)
    requires !a.OperNonary? && !b.OperNonary? && !c.OperNonary?
    ensures NoMarkers([a, b, c]) && TranslateAll([a, b, c]) == TranslateStep(a) + TranslateStep(b) + TranslateStep(c)
  {
    hide TranslateStep;
    assert [a, b, c] == [a, b] + [c];
    TwoSteps(a, b);
    TranslateAppend([a, b], [c]);
    NoMarkersAppend([a, b], [c]);
    TranslateOne(c);
  }

  /** What is known of code: its form, and that its lowering meets no error. */
  ghost predicate Becomes(ss: seq<Stmt>, nm: Names, pool: Pool, n: int, base: int, brk: int, inLoop: bool, c: Compiled) {
    CompileStmts(ss, nm, pool, n, base, brk) == c && CleanStmts(ss, nm, pool, n, inLoop)
  }

  ghost predicate BecomesOne(s: Stmt, nm: Names, pool: Pool, n: int, base: int, brk: int, inLoop: bool, c: Compiled) {
    CompileStmt(s, nm, pool, n, base, brk) == c && CleanStmt(s, nm, pool, n, inLoop)
  }

  lemma Nothing(nm: Names, pool: Pool, n: int, base: int, brk: int, inLoop: bool)
    ensures Becomes([], nm, pool, n, base, brk, inLoop, Compiled([], nm, pool, n))
  {
  }

  lemma First(
    ss: seq<Stmt>, s: Stmt, rest: seq<Stmt>, nm: Names, pool: Pool, n: int, base: int, brk: int, inLoop: bool,
    h: Compiled, t: Compiled, code: M.Chunk)
    requires ss == [s] + rest
    requires BecomesOne(s, nm, pool, n, base, brk, inLoop, h) && Becomes(rest, h.nm, h.pool, h.next, base + |h.code|, brk, inLoop, t)
    requires code == h.code + t.code
    ensures Becomes(ss, nm, pool, n, base, brk, inLoop, t.(code := code))
  {
    assert ss[0] == s && ss[1..] == rest;
    StmtShape(s, nm, pool, n, base, brk, 0, 0);
    hide CompileStmt, CleanStmt;
  }

  lemma Returns(e: Expr, nm: Names, pool: Pool, n: int, base: int, brk: int, inLoop: bool, code: M.Chunk)
    requires var r := LowerExpr(nm, e, pool, n);
             CleanExpr(r) && code == TranslateAll(r.steps) + [Single(M.Ret, Translate(r.addr.value))]
    ensures var r := LowerExpr(nm, e, pool, n);
            BecomesOne(Return(e), nm, pool, n, base, brk, inLoop, Compiled(code, nm, r.pool, r.next))
  {
    hide LowerExpr, TranslateAll;
  }

  lemma Defines(x: string, e: Expr, nm: Names, pool: Pool, n: int, base: int, brk: int, inLoop: bool, code: M.Chunk)
    requires var r := LowerExpr(nm, e, pool, n);
             CleanExpr(r) && x !in nm.locals && code == TranslateAll(r.steps) + [MovInstr(Ir.TempAt(r.next), r.addr.value)]
    ensures var r := LowerExpr(nm, e, pool, n);
            BecomesOne(LocalDef(x, e), nm, pool, n, base, brk, inLoop,
                       Compiled(code, nm.(locals := nm.locals[x := Ir.TempAt(r.next)]), r.pool, r.next + 1))
  {
    hide LowerExpr, TranslateAll;
  }

  lemma Branches(
    e: Expr, thn: seq<Stmt>, nm: Names, pool: Pool, n: int, base: int, brk: int, inLoop: bool, t: Compiled, code: M.Chunk)
    requires var r := LowerExpr(nm, e, pool, n);
             && CleanExpr(r)
             && Becomes(thn, nm, r.pool, r.next, base + |TranslateAll(r.steps)| + 1, brk, inLoop, t)
             && var check := TranslateAll(r.steps);
             code == check + [JumpElseTo(r.addr.value, base + |check| + 1 + |t.code|)] + t.code + [NOP]
    ensures BecomesOne(If(e, thn, NoElse), nm, pool, n, base, brk, inLoop, t.(code := code))
  {
    hide LowerExpr, TranslateAll, CompileStmts, CleanStmts;
    var r := LowerExpr(nm, e, pool, n);
    StmtsShape(thn, nm, r.pool, r.next, base + |TranslateAll(r.steps)| + 1, brk, 0, 0);
  }

  lemma Repeats(e: Expr, body: seq<Stmt>, nm: Names, pool: Pool, n: int, base: int, brk: int, inLoop: bool, b: Compiled, code: M.Chunk)
    requires var r := LowerExpr(nm, e, pool, n);
             && CleanExpr(r)
             && var check := TranslateAll(r.steps);
             var first := base + 1 + |check| + 1;
             var exit := first + |b.code| + 1;
             && Becomes(body, nm, r.pool, r.next, first, exit, true, b)
             && code == [NOP] + check + [JumpElseTo(r.addr.value, exit)] + b.code + [JumpTo(base), NOP]
    ensures BecomesOne(While(e, body), nm, pool, n, base, brk, inLoop, b.(code := code))
  {
    hide LowerExpr, TranslateAll, CompileStmts, CleanStmts;
    var r := LowerExpr(nm, e, pool, n);
    var first := base + 1 + |TranslateAll(r.steps)| + 1;
    StmtsShape(body, nm, r.pool, r.next, first, 0, first, first + |b.code| + 1);
  }

  lemma Assigns(x: string, e: Expr, nm: Names, pool: Pool, n: int, base: int, brk: int, inLoop: bool, code: M.Chunk)
    requires x !in nm.natives && x !in pool.globals && x in nm.locals
    requires var r := LowerExpr(nm, e, pool, n);
             CleanExpr(r) && code == TranslateAll(r.steps) + [MovInstr(nm.locals[x], r.addr.value)]
    ensures var r := LowerExpr(nm, e, pool, n);
            BecomesOne(ExprStmt(Assign(Literal(TkIdent, x), e)), nm, pool, n, base, brk, inLoop, Compiled(code, nm, r.pool, r.next))
  {
    var r := LowerExpr(nm, e, pool, n);
    Variable(nm, pool, x, n);
    var a := Assign(Literal(TkIdent, x), e);
    var move := Ir.TacMove(nm.locals[x], r.addr.value);
    assert LowerExpr(nm, a, pool, n) == Lowered(r.steps + [move], Some(nm.locals[x]), r.pool, r.next, r.errors) by {
      assert a.target == Literal(TkIdent, x) && a.value == e && [] + r.steps == r.steps;
    }
    hide LowerExpr, TranslateAll;
    TranslateAppend(r.steps, [move]);
    TranslateOne(move);
    NoMarkersAppend(r.steps, [move]);
  }

  lemma OneArgument(nm: Names, pool: Pool, arg: Expr, n: int)
    requires var h := LowerExpr(nm, arg, pool, n); h.addr.Some? && h.steps == [] && h.next == n && h.errors == 0
    ensures var h := LowerExpr(nm, arg, pool, n);
            LowerArgs(nm, [arg], pool, n) == Lowered([Ir.TacMove(Ir.TempAt(n), h.addr.value)], Some(Ir.Imm(0)), h.pool, n + 1, 0)
  {
    var h := LowerExpr(nm, arg, pool, n);
    assert LowerArgs(nm, [], h.pool, n + 1) == Lowered([], Some(Ir.Imm(0)), h.pool, n + 1, 0);
    assert [arg][0] == arg && [arg][1..] == [];
    assert [] + [Ir.TacMove(Ir.TempAt(n), h.addr.value)] + [] == [Ir.TacMove(Ir.TempAt(n), h.addr.value)];
    hide LowerExpr;
  }

  /** A call with a variable or a literal. */
  lemma CallAtom(nm: Names, pool: Pool, f: string, arg: Expr, n: int, id: int)
    requires f !in nm.natives && f in pool.globals && pool.globals[f] == Ir.Imm(id)
    requires var h := LowerExpr(nm, arg, pool, n); h.addr.Some? && h.steps == [] && h.next == n && h.errors == 0
    ensures var h := LowerExpr(nm, arg, pool, n);
            LowerExpr(nm, Call(Literal(TkIdent, f), [arg]), pool, n) ==
              Lowered([Ir.TacMove(Ir.TempAt(n), h.addr.value), Ir.OperBinary(Ir.Imm(id), Ir.Imm(1), Ir.CallOp)], Some(Ir.TempAt(n)),
                      h.pool, n + 1, 0)
  {
    OneArgument(nm, pool, arg, n);
    FunctionName(nm, pool, f, n, id);
    hide LowerArgs, LiteralValue, Lookup;
    var h := LowerExpr(nm, arg, pool, n);
    assert [] + [Ir.TacMove(Ir.TempAt(n), h.addr.value)] == [Ir.TacMove(Ir.TempAt(n), h.addr.value)];
  }

  lemma FunctionName(nm: Names, pool: Pool, f: string, n: int, id: int)
    requires f !in nm.natives && f in pool.globals && pool.globals[f] == Ir.Imm(id)
    ensures LowerExpr(nm, Literal(TkIdent, f), pool, n) == Lowered([], Some(Ir.Imm(id)), pool, n, 0)
  {
  }

  // ---------------------------------------------------------------- programs

  lemma Collects(p: Program, f: Fun, rest: Program, st: Prepass)
    requires p == [Function(f)] + rest && f.name !in st.globals
    ensures CollectFunctions(p, st) == CollectFunctions(rest, AfterFunction(f, st)) && Functions(p) == [f] + Functions(rest)
  {
    assert p[0].fun == f && p[1..] == rest;
  }

  lemma FlatFirst(ss: seq<Stmt>, s: Stmt, rest: seq<Stmt>)
    requires ss == [s] + rest && ElseFlat(s) && ElsesFlat(rest)
    ensures ElsesFlat(ss)
  {
    assert ss[0] == s && ss[1..] == rest;
  }

  lemma FlatPrograms(fs: seq<Fun>)
    requires forall i | 0 <= i < |fs| :: ElsesFlat(fs[i].body)
    ensures Whole(fs)
  {
    hide ElsesFlat, NothingLost;
    forall i | 0 <= i < |fs| ensures NothingLost(fs[i].body, true) {
      FlatLosesNothing(fs[i].body, true);
    }
  }

  /** The first function of a list, compiled. */
  lemma FirstFunction(fs: seq<Fun>, pool: Pool, c: Compiled)
    requires fs != [] && Distinct(fs[0].params)
    requires Becomes(fs[0].body, BodyNames(map[], fs[0]), pool, |fs[0].params|, 0, 0, false, c)
    ensures CleanFunctions(map[], fs, pool) <==> CleanFunctions(map[], fs[1..], c.pool)
    ensures Bodies(map[], fs, pool) == [c.code] + Bodies(map[], fs[1..], c.pool)
    ensures PoolAfter(map[], fs, pool) == PoolAfter(map[], fs[1..], c.pool)
  {
    hide CompileStmts, CleanStmts;
  }

  lemma NoFunctionsLeft(pool: Pool)
    ensures CleanFunctions(map[], [], pool) && Bodies(map[], [], pool) == [] && PoolAfter(map[], [], pool) == pool
  {
  }

  lemma OneStep(step: Ir.Step, steps: seq<Ir.Step>)
    requires steps == [] + [] + [step] && !step.OperNonary?
    ensures NoMarkers(steps) && TranslateAll(steps) == TranslateStep(step)
  {
    assert steps == [step] && [step][1..] == [];
    TranslateOne(step);
  }

  // ---------------------------------------------------------------- runs

  function CallCode(id: int, argc: int): M.Instr {
    M.Instr(M.Call, Translate(Ir.Imm(id)), Translate(Ir.Imm(argc)), NO_ARG)
  }

  function OpCode(op: Arith, dest: int, a: Ir.Addr, b: Ir.Addr): M.Instr {
    M.Instr(M.Compute(op), Translate(Ir.TempAt(dest)), Translate(a), Translate(b))
  }

  predicate At(code: M.Code, s: M.State, i: M.Instr) {
    M.Running(s) && M.AtInstr(code, s) && code.chunks[s.fn][s.ip] == i
  }

  lemma DoMove(code: M.Code, s: M.State, dest: int, src: Ir.Addr, v: Value)
    requires At(code, s, MovInstr(Ir.TempAt(dest), src)) && M.Fetch(code, s, Translate(src)) == M.Found(v)
    ensures M.Step(code, s) == M.Store(s, dest, v)
  {
  }

  lemma DoOp(code: M.Code, s: M.State, op: Arith, dest: int, a: Ir.Addr, b: Ir.Addr, x: Value, y: Value)
    requires At(code, s, OpCode(op, dest, a, b)) && !MathFails(op, x, y)
    requires M.Fetch(code, s, Translate(a)) == M.Found(x) && M.Fetch(code, s, Translate(b)) == M.Found(y)
    ensures M.Step(code, s) == M.Store(s, dest, Apply(op, x, y))
  {
  }

  lemma DoCall(code: M.Code, s: M.State, id: int, argc: int)
    requires At(code, s, CallCode(id, argc))
    ensures M.Step(code, s) == M.State(id, 0, s.rft - argc + 1, s.rft, s.mem, s.heap, s.frames + [M.Frame(s.fn, s.ip + 1, s.rbp, s.rft)], M.Ok)
  {
  }

  lemma DoReturn(code: M.Code, s: M.State, src: Ir.Addr, v: Value, frames: seq<M.Frame>, f: M.Frame)
    requires At(code, s, Single(M.Ret, Translate(src))) && M.Fetch(code, s, Translate(src)) == M.Found(v) && s.frames == frames + [f]
    ensures M.Step(code, s) == M.State(f.fn, f.ip, f.rbp, f.rft, s.mem[s.rbp := v], s.heap, frames, M.Ok)
  {
    assert s.frames[..|s.frames| - 1] == frames;
  }

  lemma DoTest(code: M.Code, s: M.State, reg: int, target: int, b: bool)
    requires At(code, s, JumpElseTo(Ir.TempAt(reg), target)) && M.Read(s.mem, s.rbp + reg) == Bool(b)
    ensures M.Step(code, s) == s.(ip := if b then s.ip + 1 else target)
  {
  }

  lemma DoJump(code: M.Code, s: M.State, target: int)
    requires At(code, s, JumpTo(target))
    ensures M.Step(code, s) == s.(ip := target)
  {
  }

  lemma DoNop(code: M.Code, s: M.State)
    requires At(code, s, NOP)
    ensures M.Step(code, s) == s.(ip := s.ip + 1)
  {
  }

  /** One round, then the others. */
  lemma Round(code: M.Code, s: M.State, t: M.State, k: nat)
    requires M.Step(code, s) == t
    ensures M.Steps(code, s, k + 1) == M.Steps(code, t, k)
  {
    hide M.Step;
  }

  /** A list of states, each one round after the one before it. */
  lemma {:induction false} Rounds(code: M.Code, states: seq<M.State>)
    requires states != [] && forall i | 0 <= i < |states| - 1 :: M.Step(code, states[i]) == states[i + 1]
    ensures M.Steps(code, states[0], |states| - 1) == states[|states| - 1]
  {
    hide M.Step;
    if |states| == 1 {
      M.StepsNone(code, states[0]);
    } else {
      Rounds(code, states[1..]);
      Round(code, states[0], states[1], |states| - 2);
    }
  }

  // ---------------------------------------------------------------- the source

  lemma More(p: Program, f: nat, g: nat)
    requires f <= g && RunMain(p, f) != Stops(Timeout)
    ensures RunMain(p, g) == RunMain(p, f)
  {
    hide Invoke, Functions;
    InvokeMore(Functions(p), "main", [], [], f, g);
  }

  lemma OneParameter(x: string, v: Value)
    ensures Bind([x], [v]) == map[x := v]
  {
    assert [x][..0] == [] && [v][..0] == [];
    assert Bind([x][..0], [v][..0]) == map[];
  }

  lemma Then(fs: seq<Fun>, ss: seq<Stmt>, s: Stmt, rest: seq<Stmt>, env: Env, fuel: nat, env': Env)
    requires ss == [s] + rest && ExecStmt(fs, s, env, [], fuel) == Next(env', [])
    ensures Exec(fs, ss, env, [], fuel) == Exec(fs, rest, env', [], fuel)
    ensures rest == [] ==> Exec(fs, ss, env, [], fuel) == Next(env', [])
  {
    assert ss[0] == s && ss[1..] == rest;
    hide ExecStmt;
  }

  lemma Ends(fs: seq<Fun>, ss: seq<Stmt>, env: Env, fuel: nat, v: Value)
    requires ss != [] && ExecStmt(fs, ss[0], env, [], fuel) == Returned(v, [])
    ensures Exec(fs, ss, env, [], fuel) == Returned(v, [])
  {
    hide ExecStmt;
  }
}
