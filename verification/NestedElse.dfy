/** Nested `else` bodies, after which a block is never emitted. Two programs that the compiler
    accepts and the machine gets wrong: once what is lost closes an enclosing `if`, once it is the
    statement that comes next. And one where the lost block has no steps. */
module NestedElse {
  import opened Values
  import opened Syntax
  import opened Semantics
  import opened Fragment
  import opened ExprLowering
  import opened LoweringFacts
  import opened Compositional
  import opened CompileFacts
  import opened StmtLowering
  import opened CleanLowering
  import opened LostBlocks
  import opened Emission
  import opened EmissionFacts
  import opened Compiler
  import opened CompilerFacts
  import opened CleanPrograms
  import opened Correctness
  import opened DefiniteAssignment
  import opened JumpSafety
  import opened Evaluation
  import Ir
  import M = Machine

  // ---------------------------------------------------------------- lowering

  /** Code without definitions, in a function without parameters, and the blocks it lowers to. */
  ghost predicate Makes(ss: seq<Stmt>, pool: Pool, n: int, bs: seq<Block>, pool': Pool, n': int) {
    var nm := Names(map[], map[]);
    var c := CompileStmts(ss, nm, pool, n, 0, 0);
    && CleanStmts(ss, nm, pool, n, false) && c.nm == nm && c.pool == pool' && c.next == n'
    && forall here: int :: LowerStmts(ss, nm, pool, n, here).blocks == bs
  }

  /** What a condition begins its block with. */
  function TestSteps(r: Lowered): Block
    requires r.addr.Some?
  {
    [Meta(Ir.BeginIfElse)] + r.steps + [JumpElseStep(r.addr.value)] + [Meta(Ir.MarkIfElseCheck)]
  }

  lemma TestBlock(pool: Pool, n: int, r: Lowered)
    requires r.addr.Some?
    ensures BeginIf(Names(map[], map[]), pool, n, r).blocks == [TestSteps(r)]
  {
    assert [] + [Meta(Ir.BeginIfElse)] == [Meta(Ir.BeginIfElse)];
  }

  lemma MakesReturn(e: Expr, pool: Pool, n: int)
    requires CleanExpr(LowerExpr(Names(map[], map[]), e, pool, n))
    ensures var r := LowerExpr(Names(map[], map[]), e, pool, n);
            Makes([Return(e)], pool, n, [r.steps + [Ir.OperUnary(r.addr.value, Ir.Ret)]], r.pool, r.next)
  {
    hide LowerExpr, NoMarkers;
    var nm, s := Names(map[], map[]), Return(e);
    var r := LowerExpr(nm, e, pool, n);
    assert [] + r.steps == r.steps;
    var bs := [r.steps + [Ir.OperUnary(r.addr.value, Ir.Ret)]];
    forall here: int ensures LowerStmts([s], nm, pool, n, here).blocks == bs {
      OnlyOne(s, pool, n, here);
    }
    OnlyOne(s, pool, n, 0);
  }

  /** A list of one statement. */
  lemma OnlyOne(s: Stmt, pool: Pool, n: int, here: int)
    requires CleanStmt(s, Names(map[], map[]), pool, n, false)
    ensures var nm := Names(map[], map[]);
            && CleanStmts([s], nm, pool, n, false)
            && LowerStmts([s], nm, pool, n, here).blocks == LowerStmt(s, nm, pool, n, here).blocks
            && SameShape(CompileStmts([s], nm, pool, n, 0, 0), CompileStmt(s, nm, pool, n, 0, 0))
  {
    hide LowerStmt, CompileStmt, CleanStmt;
    assert [s][0] == s && [s][1..] == [];
    GlueUnit(LowerStmt(s, Names(map[], map[]), pool, n, here).blocks);
    LowerStmtClean(s, Names(map[], map[]), pool, n, here, false);
  }

  lemma MakesIf(cond: Expr, thn: seq<Stmt>, pool: Pool, n: int, tb: seq<Block>, pool': Pool, n': int)
    requires var r := LowerExpr(Names(map[], map[]), cond, pool, n);
             CleanExpr(r) && Makes(thn, r.pool, r.next, tb, pool', n')
    ensures var r := LowerExpr(Names(map[], map[]), cond, pool, n);
            Makes([If(cond, thn, NoElse)], pool, n, [TestSteps(r)] + tb + [PASS_END], pool', n')
  {
    hide LowerExpr, LowerStmt, LowerStmts, NoMarkers, CleanStmts, CompileStmts, BeginIf, TestSteps, TranslateAll;
    var nm, s := Names(map[], map[]), If(cond, thn, NoElse);
    var r := LowerExpr(nm, cond, pool, n);
    TestBlock(pool, n, r);
    IfShape(s, nm, pool, n);
    assert CleanStmt(s, nm, pool, n, false);
    forall here: int ensures LowerStmts([s], nm, pool, n, here).blocks == [TestSteps(r)] + tb + [PASS_END] {
      OnlyOne(s, pool, n, here);
      IfBlocks(s, nm, pool, n, here, false);
    }
    OnlyOne(s, pool, n, 0);
  }

  lemma MakesElse(
    cond: Expr, thn: seq<Stmt>, els: seq<Stmt>, pool: Pool, n: int, tb: seq<Block>, pool1: Pool, n1: int, eb: seq<Block>, pool2: Pool, n2: int)
    requires var r := LowerExpr(Names(map[], map[]), cond, pool, n);
             CleanExpr(r) && tb != [] && eb != []
             && Makes(thn, r.pool, r.next, tb, pool1, n1) && Makes(els, pool1, n1, eb, pool2, n2)
    ensures var r := LowerExpr(Names(map[], map[]), cond, pool, n);
            Makes([If(cond, thn, Else(els))], pool, n,
                  [TestSteps(r)] + WithTail(tb, JUMP_ALT) + WithTail(eb, PASS_END) + [[]], pool2, n2)
  {
    hide LowerExpr, LowerStmt, LowerStmts, NoMarkers, CleanStmts, CompileStmts, BeginIf, TestSteps, TranslateAll, WithTail;
    var nm, s := Names(map[], map[]), If(cond, thn, Else(els));
    var r := LowerExpr(nm, cond, pool, n);
    TestBlock(pool, n, r);
    ElseShape(s, nm, pool, n);
    assert CleanStmt(s, nm, pool, n, false);
    var bs := [TestSteps(r)] + WithTail(tb, JUMP_ALT) + WithTail(eb, PASS_END) + [[]];
    forall here: int ensures LowerStmts([s], nm, pool, n, here).blocks == bs {
      OnlyOne(s, pool, n, here);
      ElseBlocks(s, nm, pool, n, here, false);
    }
    OnlyOne(s, pool, n, 0);
  }

  lemma MakesBoth(s: Stmt, rest: seq<Stmt>, pool: Pool, n: int, hb: seq<Block>, pool1: Pool, n1: int, tb: seq<Block>, pool2: Pool, n2: int)
    requires hb != [] && tb != [] && Makes([s], pool, n, hb, pool1, n1) && Makes(rest, pool1, n1, tb, pool2, n2)
    ensures Makes([s] + rest, pool, n, Glue(hb, tb), pool2, n2)
  {
    hide LowerStmt, CompileStmt, CleanStmt, Glue;
    var nm, ss := Names(map[], map[]), [s] + rest;
    assert ss[0] == [s][0] == s && ss[1..] == rest;
    var h := CompileStmt(s, nm, pool, n, 0, 0);
    OnlyOne(s, pool, n, 0);
    StmtsShape(rest, nm, pool1, n1, 0, 0, |h.code|, 0);
    hide CompileStmts, CleanStmts;
    forall here: int ensures LowerStmts(ss, nm, pool, n, here).blocks == Glue(hb, tb) {
      OnlyOne(s, pool, n, here);
      LowerStmtClean(s, nm, pool, n, here, false);
    }
  }

  // ---------------------------------------------------------------- emission

  lemma KeptFirst(es: EmitterState, bs: seq<Block>, rs: seq<bool>, es': EmitterState)
    requires |bs| == |rs| > 0 && rs[0] && EmitSteps(es, bs[0]) == Some(es')
    ensures EmitSteps(es, Kept(bs, rs)) == EmitSteps(es', Kept(bs[1..], rs[1..]))
  {
    EmitAppend(es, bs[0], Kept(bs[1..], rs[1..]));
  }

  lemma {:induction false} KeptNone(bs: seq<Block>, rs: seq<bool>)
    requires |bs| == |rs| && forall i | 0 <= i < |rs| :: !rs[i]
    ensures Kept(bs, rs) == []
  {
    if bs != [] {
      KeptNone(bs[1..], rs[1..]);
    }
  }

  lemma EmitsTest(es: EmitterState, pool: Pool, n: int, r: Lowered)
    requires CleanExpr(r)
    ensures var check := TranslateAll(r.steps);
            EmitSteps(es, TestSteps(r)) ==
              Some(EmitterState(es.code + check + [JumpElseTo(r.addr.value, 0)], es.ifs + [ActiveIf(|es.code| + |check|, -1, 0)], es.loops))
  {
    hide BeginIf, TestSteps, EmitSteps, TranslateAll, NoMarkers;
    TestBlock(pool, n, r);
    assert Flat([TestSteps(r)]) == TestSteps(r) + Flat([TestSteps(r)][1..]);
    RunBeginIf(es, Names(map[], map[]), pool, n, r);
    assert [TestSteps(r)][1..] == [] && TestSteps(r) + [] == TestSteps(r);
  }

  lemma EmitsReturn(es: EmitterState, k: int)
    ensures EmitSteps(es, [Ir.OperUnary(Constant(k), Ir.Ret)]) == Some(es.(code := es.code + [Single(M.Ret, Translate(Constant(k)))]))
  {
    EmitOne(es, Ir.OperUnary(Constant(k), Ir.Ret));
  }

  lemma EmitsAlt(es: EmitterState, ifs: seq<ActiveIf>, check: int)
    requires es.ifs == ifs + [ActiveIf(check, -1, 0)]
    ensures EmitSteps(es, JUMP_ALT) ==
              Some(EmitterState(es.code + [JumpTo(0), NOP], ifs + [ActiveIf(check, |es.code|, 0)], es.loops))
  {
    var es1 := es.(code := es.code + [JumpTo(0)]);
    var es2 := es1.(ifs := ifs + [ActiveIf(check, |es.code|, 0)]);
    AltSteps(es, ifs, check, es1, es2);
    hide EmitStep, EmitSteps;
    EmitOne(es, JumpStep());
    EmitOne(es1, Meta(Ir.MarkIfElseAlt));
    EmitOne(es2, Meta(Ir.Pass));
    EmitAppend(es, [JumpStep()], [Meta(Ir.MarkIfElseAlt)]);
    EmitAppend(es, [JumpStep()] + [Meta(Ir.MarkIfElseAlt)], [Meta(Ir.Pass)]);
  }

  lemma AltSteps(es: EmitterState, ifs: seq<ActiveIf>, check: int, es1: EmitterState, es2: EmitterState)
    requires es.ifs == ifs + [ActiveIf(check, -1, 0)] && es1 == es.(code := es.code + [JumpTo(0)])
    requires es2 == es1.(ifs := ifs + [ActiveIf(check, |es.code|, 0)])
    ensures EmitStep(es, JumpStep()) == Some(es1) && EmitStep(es1, Meta(Ir.MarkIfElseAlt)) == Some(es2)
    ensures EmitStep(es2, Meta(Ir.Pass)) == Some(es2.(code := es.code + [JumpTo(0), NOP]))
  {
    LastOf(ifs, ActiveIf(check, -1, 0), ActiveIf(check, |es.code|, 0));
    assert es.code + [JumpTo(0)] + [NOP] == es.code + [JumpTo(0), NOP];
  }

  lemma EmitsEnd(es: EmitterState)
    requires es.ifs != []
    ensures EmitSteps(es, PASS_END) == EndIfStep(es.(code := es.code + [NOP]))
  {
    hide EndIfStep;
    var es1 := es.(code := es.code + [NOP]);
    EmitOne(es, Meta(Ir.Pass));
    EmitOne(es1, Meta(Ir.EndIfElse));
    EmitAppend(es, [Meta(Ir.Pass)], [Meta(Ir.EndIfElse)]);
  }

  /** `if 0 > 1 { return k }`, with the test in register `i`, and the jump over an `else`. */
  function Head(i: int, past: int, k: int, end: int): (c: M.Chunk)
    ensures |c| == 5
  {
    [OpCode(Gt, i, Constant(0), Constant(1)), JumpElseTo(Ir.TempAt(i), past), Single(M.Ret, Translate(Constant(k))), JumpTo(end), NOP]
  }

  /** What `0 > 1` lowers to. */
  function Tested(i: int, pool: Pool): Lowered {
    Lowered([Ir.TacBinary(Ir.TempAt(i), Constant(0), Constant(1), Gt)], Some(Ir.TempAt(i)), pool, i + 1, 0)
  }

  function ReturnSteps(k: int): Block { [Ir.OperUnary(Constant(k), Ir.Ret)] }

  lemma EmitsTested(es: EmitterState, i: int, pool: Pool)
    ensures EmitSteps(es, TestSteps(Tested(i, pool))) ==
              Some(EmitterState(es.code + [OpCode(Gt, i, Constant(0), Constant(1)), JumpElseTo(Ir.TempAt(i), 0)],
                                es.ifs + [ActiveIf(|es.code| + 1, -1, 0)], es.loops))
  {
    var step := Ir.TacBinary(Ir.TempAt(i), Constant(0), Constant(1), Gt);
    assert [step][1..] == [] && NoMarkers([step]);
    TranslateOne(step);
    EmitsTest(es, pool, i, Tested(i, pool));
    hide TestSteps, EmitSteps, TranslateAll, NoMarkers;
    assert es.code + [OpCode(Gt, i, Constant(0), Constant(1))] + [JumpElseTo(Ir.TempAt(i), 0)]
           == es.code + [OpCode(Gt, i, Constant(0), Constant(1)), JumpElseTo(Ir.TempAt(i), 0)];
  }

  /** The block of the test and that of the branch. */
  lemma EmitsHead(es: EmitterState, i: int, k: int, pool: Pool, bs: seq<Block>, rs: seq<bool>)
    requires |bs| == |rs| >= 2 && rs[0] && rs[1] && bs[0] == TestSteps(Tested(i, pool)) && bs[1] == ReturnSteps(k) + JUMP_ALT
    ensures EmitSteps(es, Kept(bs, rs)) ==
              EmitSteps(EmitterState(es.code + Head(i, 0, k, 0), es.ifs + [ActiveIf(|es.code| + 1, |es.code| + 3, 0)], es.loops),
                        Kept(bs[2..], rs[2..]))
  {
    hide EmitSteps, TestSteps, Kept;
    var test := [OpCode(Gt, i, Constant(0), Constant(1)), JumpElseTo(Ir.TempAt(i), 0)];
    var ret := [Single(M.Ret, Translate(Constant(k)))];
    var es1 := EmitterState(es.code + test, es.ifs + [ActiveIf(|es.code| + 1, -1, 0)], es.loops);
    var es2 := es1.(code := es1.code + ret);
    var es3 := EmitterState(es2.code + [JumpTo(0), NOP], es.ifs + [ActiveIf(|es.code| + 1, |es2.code|, 0)], es.loops);
    EmitsTested(es, i, pool);
    KeptFirst(es, bs, rs, es1);
    EmitsReturn(es1, k);
    EmitsAlt(es2, es.ifs, |es.code| + 1);
    EmitAppend(es1, ReturnSteps(k), JUMP_ALT);
    KeptFirst(es1, bs[1..], rs[1..], es3);
    assert bs[1..][1..] == bs[2..] && rs[1..][1..] == rs[2..];
    assert es.code + test + ret + [JumpTo(0), NOP] == es.code + Head(i, 0, k, 0);
  }

  lemma HeadCloses(before: M.Chunk, i: int, k: int, f: M.Chunk, ifs: seq<ActiveIf>)
    ensures var at := |before|;
            EndIfStep(EmitterState(before + Head(i, 0, k, 0) + f + [NOP], ifs + [ActiveIf(at + 1, at + 3, 0)], [])) ==
              Some(EmitterState(before + Head(i, at + 4, k, at + 5 + |f|) + f + [NOP], ifs, []))
  {
    hide EndIfStep;
    var at, test, ret := |before|, [OpCode(Gt, i, Constant(0), Constant(1))], [Single(M.Ret, Translate(Constant(k)))];
    CloseElse(before, test, Ir.TempAt(i), ret, f, ifs, []);
    assert before + Head(i, 0, k, 0) + f + [NOP]
           == before + test + [JumpElseTo(Ir.TempAt(i), 0)] + ret + [JumpTo(0), NOP] + f + [NOP];
    assert before + Head(i, at + 4, k, at + 5 + |f|) + f + [NOP]
           == before + (test + [JumpElseTo(Ir.TempAt(i), at + 4)] + ret + [JumpTo(at + 5 + |f|), NOP] + f + [NOP]);
  }

  // ---------------------------------------------------------------- programs

  /** A program with one function is compiled to what the visited blocks of its body emit. */
  lemma OneFunctionCompiles(f: Fun, bs: seq<Block>, pool': Pool, n': int, es: EmitterState)
    requires f.name == "main" && f.params == []
    requires Makes(f.body, Pool(map["main" := Ir.Imm(0)], []), 0, bs, pool', n') && |bs| == |Reached(f.body)|
    requires EmitSteps(EmitterState([], [], []), Kept(bs, Reached(f.body))) == Some(es)
    ensures Compile(map[], [Function(f)]) == Some(M.Code([es.code], pool'.consts, 0))
  {
    hide LowerStmts, CompileStmts, CleanStmts, EmitSteps, Kept, Reached, LowerDecls, EmitChunk, Shaped;
    var p, pool := [Function(f)], Pool(map["main" := Ir.Imm(0)], []);
    Collects(p, f, [], Prepass(map[], 0, -1));
    assert Functions([]) == [];
    assert Functions(p) == [f] && [f][0] == f && [f][1..] == [];
    assert BodyNames(map[], f) == Names(map[], map[]);
    assert CleanFunctions(map[], [f], pool);
    ShapeRest(map[], p, Unit([], pool, 0));
    var u := LowerDecls(map[], p, Unit([], pool, 0)).value;
    NoFunctionsLeft(pool');
    assert PoolAfter(map[], [f], pool) == pool';
    assert u.graphs[0..] == u.graphs && Pools(map[], [f], pool)[0] == pool;
    assert u == Unit([u.graphs[0]], pool', 0);
    assert AfterFunction(f, Prepass(map[], 0, -1)) == Prepass(pool.globals, 1, 0);
    assert LowerProgram(map[], p) == Some(FullIr(u.graphs, pool'.consts, 0));
    assert LowerStmts(f.body, Names(map[], map[]), pool, 0, 0).blocks == bs;
    EmitsKept(map[], f, pool, u.graphs[0], EmitterState([], [], []));
    assert EmitChunk(u.graphs[0], EmitterState([], [], [])) == Some(es);
    assert u.graphs[1..] == [] && [] + [es.code] == [es.code];
    assert EmitChunks([], [es.code], es) == Some([es.code]);
    assert EmitChunks(u.graphs, [], EmitterState([], [], [])) == Some([es.code]);
  }

  // ---------------------------------------------------------------- an `if` that is not closed

  const TEST := Binary(Operator.Arith(Gt), Literal(TkInt, "0"), Literal(TkInt, "1"))

  /** `return d` for a digit. */
  function Gives(d: char): seq<Stmt> { [Return(Literal(TkInt, [d]))] }

  const INNER := If(TEST, Gives('3'), Else(Gives('4')))
  const MIDDLE := If(TEST, Gives('2'), Else([INNER]))
  const OUTER := If(TEST, Gives('1'), Else([MIDDLE]))

  /** `main` with `if 0 > 1 { return 1 } else { if 0 > 1 { return 2 } else { if 0 > 1 { return 3 } else { return 4 } } }`. */
  const THREE := Fun("main", [], [OUTER])
  const THREE_PROGRAM: Program := [Function(THREE)]

  const THREE_CHUNK: M.Chunk :=
    Head(0, 0, 1, 0) + Head(1, 9, 2, 17) + Head(2, 14, 3, 16) + [Single(M.Ret, Translate(Constant(4))), NOP, NOP]

  const THREE_CODE := M.Code([THREE_CHUNK], [Int(0), Int(1), Int(2), Int(3), Int(4)], 0)

  /** The pool after the constants of `0 > 1`, and after those up to the given one. */
  const START := Pool(map["main" := Ir.Imm(0)], [])
  const POOL1 := With(With(START, "0", Int(0)), "1", Int(1))
  const POOL2 := With(POOL1, "2", Int(2))
  const POOL3 := With(POOL2, "3", Int(3))
  const POOL4 := With(POOL3, "4", Int(4))

  lemma Digits()
    ensures LiteralValue(TkInt, "0") == Int(0) && LiteralValue(TkInt, "1") == Int(1) && LiteralValue(TkInt, "2") == Int(2)
    ensures LiteralValue(TkInt, "3") == Int(3) && LiteralValue(TkInt, "4") == Int(4) && LiteralValue(TkInt, "5") == Int(5)
    ensures "0" != "1" && "0" != "2" && "0" != "3" && "0" != "4" && "0" != "5" && "1" != "2" && "1" != "3" && "1" != "4" && "1" != "5"
    ensures "2" != "3" && "2" != "4" && "2" != "5" && "3" != "4" && "3" != "5" && "4" != "5"
  {
    assert "0"[0] == '0' && "1"[0] == '1' && "2"[0] == '2' && "3"[0] == '3' && "4"[0] == '4' && "5"[0] == '5';
  }

  lemma TestedClean(n: int, pool: Pool)
    ensures CleanExpr(Tested(n, pool))
  {
    var steps := Tested(n, pool).steps;
    assert [] + [] + [steps[0]] == steps;
    OneStep(steps[0], steps);
  }

  /** The test, where both its constants are known. */
  lemma TestLowers(pool: Pool, n: int)
    requires "0" in pool.globals && pool.globals["0"] == Constant(0) && "1" in pool.globals && pool.globals["1"] == Constant(1)
    ensures LowerExpr(Names(map[], map[]), TEST, pool, n) == Tested(n, pool) && CleanExpr(Tested(n, pool))
  {
    var nm := Names(map[], map[]);
    Reuse(nm, pool, TkInt, "0", n);
    Reuse(nm, pool, TkInt, "1", n);
    Sum(nm, pool, TEST, n);
    TestedClean(n, pool);
    hide LowerExpr, LiteralValue;
    assert [] + [] + Tested(n, pool).steps == Tested(n, pool).steps;
  }

  lemma FirstTestLowers()
    ensures LowerExpr(Names(map[], map[]), TEST, START, 0) == Tested(0, POOL1)
  {
    hide LiteralValue;
    Digits();
    var nm := Names(map[], map[]);
    FirstUse(nm, START, TkInt, "0", 0, Int(0));
    FirstUse(nm, With(START, "0", Int(0)), TkInt, "1", 0, Int(1));
    Sum(nm, START, TEST, 0);
    hide LowerExpr;
    assert [] + [] + Tested(0, POOL1).steps == Tested(0, POOL1).steps;
  }

  lemma MakesNumber(d: char, v: Value, pool: Pool, n: int)
    requires [d] !in pool.globals && LiteralValue(TkInt, [d]) == v
    ensures Makes(Gives(d), pool, n, [ReturnSteps(|pool.consts|)], With(pool, [d], v), n)
  {
    hide LiteralValue, Makes;
    FirstUse(Names(map[], map[]), pool, TkInt, [d], n, v);
    MakesReturn(Literal(TkInt, [d]), pool, n);
    assert [] + ReturnSteps(|pool.consts|) == ReturnSteps(|pool.consts|);
  }

  /** `return 1`, a constant of the test. */
  lemma MakesOne(pool: Pool, n: int)
    requires "1" in pool.globals && pool.globals["1"] == Constant(1)
    ensures Makes(Gives('1'), pool, n, [ReturnSteps(1)], pool, n)
  {
    hide LiteralValue, Makes;
    Reuse(Names(map[], map[]), pool, TkInt, "1", n);
    MakesReturn(Literal(TkInt, "1"), pool, n);
    assert [] + ReturnSteps(1) == ReturnSteps(1);
  }

  /** The blocks of an `if` with `0 > 1` and a returned constant. */
  function ElseBlocksOf(i: int, pool: Pool, k: int, eb: seq<Block>): (r: seq<Block>)
    requires eb != []
    ensures |r| == |eb| + 3
  {
    [TestSteps(Tested(i, pool)), ReturnSteps(k) + JUMP_ALT] + WithTail(eb, PASS_END) + [[]]
  }

  lemma MakesHead(
    pool: Pool, n: int, pool1: Pool, d: char, k: int, pool2: Pool, els: seq<Stmt>, eb: seq<Block>, pool': Pool, n': int)
    requires LowerExpr(Names(map[], map[]), TEST, pool, n) == Tested(n, pool1) && eb != []
    requires Makes(Gives(d), pool1, n + 1, [ReturnSteps(k)], pool2, n + 1) && Makes(els, pool2, n + 1, eb, pool', n')
    ensures Makes([If(TEST, Gives(d), Else(els))], pool, n, ElseBlocksOf(n, pool1, k, eb), pool', n')
  {
    hide Makes, LowerExpr, TestSteps;
    TestedClean(n, pool1);
    MakesElse(TEST, Gives(d), els, pool, n, [ReturnSteps(k)], pool2, n + 1, eb, pool', n');
    assert WithTail([ReturnSteps(k)], JUMP_ALT) == [ReturnSteps(k) + JUMP_ALT];
    assert [TestSteps(Tested(n, pool1))] + [ReturnSteps(k) + JUMP_ALT] == [TestSteps(Tested(n, pool1)), ReturnSteps(k) + JUMP_ALT];
  }

  const INNER_BLOCKS := ElseBlocksOf(2, POOL2, 3, [ReturnSteps(4)])
  const MIDDLE_BLOCKS := ElseBlocksOf(1, POOL1, 2, INNER_BLOCKS)
  const OUTER_BLOCKS := ElseBlocksOf(0, POOL1, 1, MIDDLE_BLOCKS)

  lemma ThreeMakes()
    ensures Makes(THREE.body, START, 0, OUTER_BLOCKS, POOL4, 3)
  {
    hide Makes, LowerExpr, LiteralValue, ElseBlocksOf;
    Digits();
    FirstTestLowers();
    TestLowers(POOL1, 1);
    TestLowers(POOL2, 2);
    MakesOne(POOL1, 1);
    MakesNumber('2', Int(2), POOL1, 2);
    MakesNumber('3', Int(3), POOL2, 3);
    MakesNumber('4', Int(4), POOL3, 3);
    MakesHead(POOL2, 2, POOL2, '3', 3, POOL3, Gives('4'), [ReturnSteps(4)], POOL4, 3);
    MakesHead(POOL1, 1, POOL1, '2', 2, POOL2, [INNER], INNER_BLOCKS, POOL4, 3);
    MakesHead(START, 0, POOL1, '1', 1, POOL1, [MIDDLE], MIDDLE_BLOCKS, POOL4, 3);
  }

  /** The two last blocks are lost. */
  lemma ThreeReached()
    ensures Reached(THREE.body) == [true, true, true, true, true, true, true, true, false, false]
  {
    hide Reached;
    assert !Straight([INNER]) && !Straight([MIDDLE]) && Straight(Gives('4')) by { assert Gives('4')[1..] == []; }
    hide Straight;
    ReachedNumber('4');
    ReachedAlone('3', Gives('4'));
    assert Reached([INNER]) == [true, true, true, true];
    ReachedAlone('2', [INNER]);
    assert Reached([MIDDLE]) == [true, true, true, true, true, true, false];
    ReachedAlone('1', [MIDDLE]);
    assert THREE.body == [OUTER];
  }

  lemma ReachedNumber(d: char)
    ensures Reached(Gives(d)) == [true]
  {
    var r := Gives(d)[0];
    assert Gives(d)[1..] == [] && Reached([]) == [true];
    assert ReachedOf(r) == [true];
    assert Chain([true], [true]) == [true];
  }

  lemma ReachedAlone(d: char, els: seq<Stmt>)
    ensures Reached([If(TEST, Gives(d), Else(els))]) == [true, true] + Reached(els) + [Straight(els)]
  {
    var s := If(TEST, Gives(d), Else(els));
    ReachedNumber(d);
    assert [s][0] == s && [s][1..] == [] && Reached([]) == [true];
    hide Reached, ReachedOf, Straight;
    ElseReached(s);
    ChainedElse([s]);
    assert [true] + [true] == [true, true];
  }

  lemma ThreeBlocks()
    ensures OUTER_BLOCKS == [TestSteps(Tested(0, POOL1)), ReturnSteps(1) + JUMP_ALT, TestSteps(Tested(1, POOL1)), ReturnSteps(2) + JUMP_ALT,
                             TestSteps(Tested(2, POOL2)), ReturnSteps(3) + JUMP_ALT, ReturnSteps(4) + PASS_END, PASS_END, PASS_END, []]
  {
    hide TestSteps;
    var head := [TestSteps(Tested(2, POOL2)), ReturnSteps(3) + JUMP_ALT];
    assert INNER_BLOCKS == head + [ReturnSteps(4) + PASS_END, []];
    assert [] + PASS_END == PASS_END;
    assert WithTail(INNER_BLOCKS, PASS_END) == head + [ReturnSteps(4) + PASS_END, PASS_END];
    var head1 := [TestSteps(Tested(1, POOL1)), ReturnSteps(2) + JUMP_ALT];
    assert MIDDLE_BLOCKS == head1 + head + [ReturnSteps(4) + PASS_END, PASS_END, []];
    assert WithTail(MIDDLE_BLOCKS, PASS_END) == head1 + head + [ReturnSteps(4) + PASS_END, PASS_END, PASS_END];
  }

  lemma ThreeEmits()
    requires |OUTER_BLOCKS| == |Reached(THREE.body)|
    ensures EmitSteps(EmitterState([], [], []), Kept(OUTER_BLOCKS, Reached(THREE.body)))
            == Some(EmitterState(THREE_CHUNK, [ActiveIf(1, 3, 0)], []))
  {
    hide EmitSteps, Kept, TestSteps, EndIfStep, Head, Reached;
    ThreeReached();
    ThreeBlocks();
    var bs, rs := OUTER_BLOCKS, Reached(THREE.body);
    var code1 := Head(0, 0, 1, 0);
    var code2 := code1 + Head(1, 0, 2, 0);
    var code3 := code2 + Head(2, 0, 3, 0);
    var ifs1 := [ActiveIf(1, 3, 0)];
    var ifs2 := ifs1 + [ActiveIf(6, 8, 0)];
    var ifs3 := ifs2 + [ActiveIf(11, 13, 0)];
    EmitsHead(EmitterState([], [], []), 0, 1, POOL1, bs, rs);
    assert [] + code1 == code1 && [] + ifs1 == ifs1;
    EmitsHead(EmitterState(code1, ifs1, []), 1, 2, POOL1, bs[2..], rs[2..]);
    assert bs[2..][2..] == bs[4..] && rs[2..][2..] == rs[4..];
    EmitsHead(EmitterState(code2, ifs2, []), 2, 3, POOL2, bs[4..], rs[4..]);
    assert bs[4..][2..] == bs[6..] && rs[4..][2..] == rs[6..];
    ThreeCloses(code2, ifs2, bs[6..], rs[6..]);
  }

  /** The two `if`s that are closed. */
  lemma ThreeCloses(code: M.Chunk, ifs: seq<ActiveIf>, bs: seq<Block>, rs: seq<bool>)
    requires code == Head(0, 0, 1, 0) + Head(1, 0, 2, 0) && ifs == [ActiveIf(1, 3, 0)] + [ActiveIf(6, 8, 0)]
    requires bs == [ReturnSteps(4) + PASS_END, PASS_END, PASS_END, []] && rs == [true, true, false, false]
    ensures EmitSteps(EmitterState(code + Head(2, 0, 3, 0), ifs + [ActiveIf(11, 13, 0)], []), Kept(bs, rs))
            == Some(EmitterState(THREE_CHUNK, [ActiveIf(1, 3, 0)], []))
  {
    hide EmitSteps, Kept, EndIfStep, Head;
    var ret := [Single(M.Ret, Translate(Constant(4)))];
    var es := EmitterState(code + Head(2, 0, 3, 0), ifs + [ActiveIf(11, 13, 0)], []);
    var es1 := es.(code := es.code + ret);
    EmitsReturn(es, 4);
    EmitsEnd(es1);
    EmitAppend(es, ReturnSteps(4), PASS_END);
    HeadCloses(code, 2, 3, ret, ifs);
    var es2 := EmitterState(code + Head(2, 14, 3, 16) + ret + [NOP], ifs, []);
    KeptFirst(es, bs, rs, es2);
    EmitsEnd(es2);
    var f := Head(2, 14, 3, 16) + ret + [NOP];
    var first := Head(0, 0, 1, 0);
    assert es2.code + [NOP] == first + Head(1, 0, 2, 0) + f + [NOP];
    HeadCloses(first, 1, 2, f, [ActiveIf(1, 3, 0)]);
    var es3 := EmitterState(first + Head(1, 9, 2, 17) + f + [NOP], [ActiveIf(1, 3, 0)], []);
    KeptFirst(es2, bs[1..], rs[1..], es3);
    assert es3.code == THREE_CHUNK;
    KeptNone(bs[1..][1..], rs[1..][1..]);
    assert EmitSteps(es3, []) == Some(es3) by { EmitsNone(es3); }
  }

  lemma EmitsNone(es: EmitterState)
    ensures EmitSteps(es, []) == Some(es)
  {
  }

  lemma ThreeCompiles()
    ensures Compile(map[], THREE_PROGRAM) == Some(THREE_CODE)
  {
    hide Makes, EmitSteps, Kept, Reached, Compile, WithTail;
    ThreeMakes();
    ThreeBlocks();
    ThreeReached();
    ThreeEmits();
    assert POOL4.consts == THREE_CODE.consts;
    OneFunctionCompiles(THREE, OUTER_BLOCKS, POOL4, 3, EmitterState(THREE_CHUNK, [ActiveIf(1, 3, 0)], []));
  }

  lemma TestSource(fs: seq<Fun>, fuel: nat)
    ensures Eval(fs, TEST, map[], [], fuel) == Val(Bool(false), [])
  {
    Digits();
    hide LiteralValue;
    assert Eval(fs, TEST.left, map[], [], fuel) == Val(Int(0), []) && Eval(fs, TEST.right, map[], [], fuel) == Val(Int(1), []);
  }

  lemma NumberSource(fs: seq<Fun>, d: char, v: Value, fuel: nat)
    requires LiteralValue(TkInt, [d]) == v
    ensures Exec(fs, Gives(d), map[], [], fuel) == Returned(v, [])
  {
    hide LiteralValue;
    assert ExecStmt(fs, Return(Literal(TkInt, [d])), map[], [], fuel) == Returned(v, []);
    Ends(fs, Gives(d), map[], fuel, v);
  }

  /** The test fails: what the `else` body does. */
  lemma ElseSource(fs: seq<Fun>, thn: seq<Stmt>, els: seq<Stmt>, fuel: nat)
    ensures ExecStmt(fs, If(TEST, thn, Else(els)), map[], [], fuel) == Exec(fs, els, map[], [], fuel)
  {
    TestSource(fs, fuel);
    hide Eval;
  }

  lemma ThreeSource()
    ensures RunMain(THREE_PROGRAM, 1) == Val(Int(4), [])
  {
    hide LiteralValue, Exec, ExecStmt;
    Digits();
    var fs := [THREE];
    assert Functions(THREE_PROGRAM) == fs && FindFunction(fs, "main") == 0;
    NumberSource(fs, '4', Int(4), 0);
    ElseSource(fs, Gives('3'), Gives('4'), 0);
    Ends(fs, [INNER], map[], 0, Int(4));
    ElseSource(fs, Gives('2'), [INNER], 0);
    Ends(fs, [MIDDLE], map[], 0, Int(4));
    ElseSource(fs, Gives('1'), [MIDDLE], 0);
    Ends(fs, [OUTER], map[], 0, Int(4));
  }

  /** Two rounds lead back to the first instruction. */
  lemma ThreeRound(mem: map<int, Value>)
    ensures var s := M.Initial(THREE_CODE, mem);
            M.Running(M.Step(THREE_CODE, s)) && M.Step(THREE_CODE, M.Step(THREE_CODE, s)) == M.Initial(THREE_CODE, mem[0 := Bool(false)])
  {
    hide M.Step;
    var s := M.Initial(THREE_CODE, mem);
    assert THREE_CHUNK[0] == OpCode(Gt, 0, Constant(0), Constant(1)) && THREE_CHUNK[1] == JumpElseTo(Ir.TempAt(0), 0);
    DoOp(THREE_CODE, s, Gt, 0, Constant(0), Constant(1), Int(0), Int(1));
    DoTest(THREE_CODE, M.Store(s, 0, Bool(false)), 0, 0, false);
  }

  lemma {:induction false} ThreeRuns(mem: map<int, Value>, k: nat)
    ensures M.Running(After(THREE_CODE, mem, k))
    decreases k
  {
    hide M.Step;
    ThreeRound(mem);
    var s := M.Initial(THREE_CODE, mem);
    if k == 1 {
      M.StepsNone(THREE_CODE, s);
      M.StepsSucc(THREE_CODE, s, 0);
    } else if k >= 2 {
      ThreeRuns(mem[0 := Bool(false)], k - 2);
      Round(THREE_CODE, s, M.Step(THREE_CODE, s), k - 1);
      Round(THREE_CODE, M.Step(THREE_CODE, s), M.Step(THREE_CODE, M.Step(THREE_CODE, s)), k - 2);
    }
  }

  /** The conditional jump that no target was given to goes to the comparison. */
  lemma ThreeJumps()
    ensures !JumpsLand(THREE_CHUNK)
  {
    assert THREE_CHUNK[1] == JumpElseTo(Ir.TempAt(0), 0) && THREE_CHUNK[0] != NOP;
    hide Head;
    assert !JumpFine(THREE_CHUNK, 0, THREE_CHUNK[1], 0, false);
  }

  /** The block that would close the outermost `if` is lost: its test is never given a target and
      leads back to itself, so the machine runs for ever where the source returns 4. */
  lemma UnclosedIfGoesWrong(mem: map<int, Value>)
    ensures forall fuel: nat | fuel > 0 :: RunMain(THREE_PROGRAM, fuel) == Val(Int(4), [])
    ensures Compile(map[], THREE_PROGRAM).Some?
    ensures forall k: nat :: M.Running(After(Compile(map[], THREE_PROGRAM).value, mem, k))
    ensures Compile(map[], THREE_PROGRAM).value.chunks == [THREE_CHUNK] && !JumpsLand(THREE_CHUNK)
  {
    hide Compile, RunMain, After, JumpsLand;
    ThreeJumps();
    ThreeCompiles();
    ThreeSource();
    forall fuel: nat | fuel > 0 ensures RunMain(THREE_PROGRAM, fuel) == Val(Int(4), []) {
      More(THREE_PROGRAM, 1, fuel);
    }
    forall k: nat ensures M.Running(After(THREE_CODE, mem, k)) {
      ThreeRuns(mem, k);
    }
  }

  // ---------------------------------------------------------------- a statement that is lost

  const LONE := If(TEST, Gives('2'), NoElse)
  const CHOICE := If(TEST, Gives('1'), Else([LONE]))

  /** `main` with `if 0 > 1 { return 1 } else { if 0 > 1 { return 2 } } return 5`. */
  const LAST := Fun("main", [], [CHOICE] + Gives('5'))
  const LAST_PROGRAM: Program := [Function(LAST)]

  const LAST_CHUNK: M.Chunk :=
    Head(0, 4, 1, 9)
    + [OpCode(Gt, 1, Constant(0), Constant(1)), JumpElseTo(Ir.TempAt(1), 8), Single(M.Ret, Translate(Constant(2))), NOP, NOP]

  const LAST_CODE := M.Code([LAST_CHUNK], [Int(0), Int(1), Int(2), Int(5)], 0)

  const POOL5 := With(POOL2, "5", Int(5))

  const LONE_BLOCKS := [TestSteps(Tested(1, POOL1))] + [ReturnSteps(2)] + [PASS_END]
  const CHOICE_BLOCKS := ElseBlocksOf(0, POOL1, 1, LONE_BLOCKS)
  const LAST_BLOCKS := Glue(CHOICE_BLOCKS, [ReturnSteps(3)])

  lemma LastMakes()
    ensures Makes(LAST.body, START, 0, LAST_BLOCKS, POOL5, 2)
  {
    hide Makes, LowerExpr, LiteralValue, ElseBlocksOf;
    Digits();
    FirstTestLowers();
    TestLowers(POOL1, 1);
    MakesOne(POOL1, 1);
    MakesNumber('2', Int(2), POOL1, 2);
    MakesNumber('5', Int(5), POOL2, 2);
    MakesIf(TEST, Gives('2'), POOL1, 1, [ReturnSteps(2)], POOL2, 2);
    MakesHead(START, 0, POOL1, '1', 1, POOL1, [LONE], LONE_BLOCKS, POOL2, 2);
    MakesBoth(CHOICE, Gives('5'), START, 0, CHOICE_BLOCKS, POOL2, 2, [ReturnSteps(3)], POOL5, 2);
  }

  lemma LastBlocks()
    ensures LAST_BLOCKS == [TestSteps(Tested(0, POOL1)), ReturnSteps(1) + JUMP_ALT, TestSteps(Tested(1, POOL1)), ReturnSteps(2),
                            PASS_END + PASS_END, ReturnSteps(3)]
  {
    hide TestSteps;
    var test := TestSteps(Tested(1, POOL1));
    assert LONE_BLOCKS == [test, ReturnSteps(2), PASS_END];
    assert WithTail(LONE_BLOCKS, PASS_END) == [test, ReturnSteps(2), PASS_END + PASS_END];
    assert [] + ReturnSteps(3) == ReturnSteps(3);
  }

  lemma LoneReached()
    ensures Reached([LONE]) == [true, true, true]
  {
    ReachedNumber('2');
    assert [LONE][0] == LONE && [LONE][1..] == [] && Reached([]) == [true];
    assert ReachedOf(LONE) == [true] + Reached(Gives('2')) + [true];
    assert Reached([LONE]) == Chain(ReachedOf(LONE), [true]);
    hide Reached, ReachedOf;
  }

  lemma ReachedThen(d: char, els: seq<Stmt>, d': char)
    requires !Straight(els)
    ensures Reached([If(TEST, Gives(d), Else(els))] + Gives(d')) == [true, true] + Reached(els) + [false]
  {
    var s := If(TEST, Gives(d), Else(els));
    var ss := [s] + Gives(d');
    ReachedNumber(d);
    ReachedNumber(d');
    assert ss[0] == s && ss[1..] == Gives(d');
    hide Reached, ReachedOf, Straight;
    ElseReached(s);
    ChainedElse(ss);
    assert [true] + [true] == [true, true] && Never(1) == [false];
  }

  /** The block of the last statement is lost. */
  lemma LastReached()
    ensures Reached(LAST.body) == [true, true, true, true, true, false]
  {
    assert !Straight([LONE]);
    hide Reached, Straight;
    LoneReached();
    ReachedThen('1', [LONE], '5');
  }

  lemma LastEmits()
    requires |LAST_BLOCKS| == |Reached(LAST.body)|
    ensures EmitSteps(EmitterState([], [], []), Kept(LAST_BLOCKS, Reached(LAST.body))) == Some(EmitterState(LAST_CHUNK, [], []))
  {
    hide EmitSteps, Kept, TestSteps, EndIfStep, Head, Reached;
    LastReached();
    LastBlocks();
    var bs, rs := LAST_BLOCKS, Reached(LAST.body);
    var first, test, ret := Head(0, 0, 1, 0), [OpCode(Gt, 1, Constant(0), Constant(1))], [Single(M.Ret, Translate(Constant(2)))];
    var ifs := [ActiveIf(1, 3, 0)];
    EmitsHead(EmitterState([], [], []), 0, 1, POOL1, bs, rs);
    assert [] + first == first && [] + ifs == ifs;
    var es := EmitterState(first, ifs, []);
    var es1 := EmitterState(first + test + [JumpElseTo(Ir.TempAt(1), 0)], ifs + [ActiveIf(6, -1, 0)], []);
    EmitsTested(es, 1, POOL1);
    assert first + [test[0], JumpElseTo(Ir.TempAt(1), 0)] == es1.code;
    KeptFirst(es, bs[2..], rs[2..], es1);
    EmitsReturn(es1, 2);
    var es2 := es1.(code := es1.code + ret);
    KeptFirst(es1, bs[2..][1..], rs[2..][1..], es2);
    EmitsEnd(es2);
    CloseIf(first, test, Ir.TempAt(1), ret, ifs, []);
    LastCloses(first, test, ret, es2, bs[4..], rs[4..]);
    assert bs[2..][1..][1..] == bs[4..] && rs[2..][1..][1..] == rs[4..];
  }

  /** Both `if`s are closed in one block, and the function ends there. */
  lemma LastCloses(first: M.Chunk, test: M.Chunk, ret: M.Chunk, es: EmitterState, bs: seq<Block>, rs: seq<bool>)
    requires first == Head(0, 0, 1, 0) && test == [OpCode(Gt, 1, Constant(0), Constant(1))] && ret == [Single(M.Ret, Translate(Constant(2)))]
    requires EmitSteps(es, PASS_END)
             == Some(EmitterState(first + (test + [JumpElseTo(Ir.TempAt(1), 8)] + ret + [NOP]), [ActiveIf(1, 3, 0)], []))
    requires bs == [PASS_END + PASS_END, ReturnSteps(3)] && rs == [true, false]
    ensures EmitSteps(es, Kept(bs, rs)) == Some(EmitterState(LAST_CHUNK, [], []))
  {
    hide EmitSteps, Kept, EndIfStep, Head;
    var f := test + [JumpElseTo(Ir.TempAt(1), 8)] + ret + [NOP];
    var es1, es2 := EmitterState(first + f, [ActiveIf(1, 3, 0)], []), EmitterState(LAST_CHUNK, [], []);
    EmitsEnd(es1);
    HeadCloses([], 0, 1, f, []);
    assert [] + Head(0, 0, 1, 0) == first && [] + [ActiveIf(1, 3, 0)] == [ActiveIf(1, 3, 0)];
    assert [] + Head(0, 4, 1, 9) + f + [NOP] == LAST_CHUNK;
    EmitAppend(es, PASS_END, PASS_END);
    KeptFirst(es, bs, rs, es2);
    KeptNone(bs[1..], rs[1..]);
    EmitsNone(es2);
  }

  lemma LastCompiles()
    ensures Compile(map[], LAST_PROGRAM) == Some(LAST_CODE)
  {
    hide Makes, EmitSteps, Kept, Reached, Compile, WithTail;
    LastMakes();
    LastBlocks();
    LastReached();
    LastEmits();
    assert POOL5.consts == LAST_CODE.consts;
    OneFunctionCompiles(LAST, LAST_BLOCKS, POOL5, 2, EmitterState(LAST_CHUNK, [], []));
  }

  lemma LastSource()
    ensures RunMain(LAST_PROGRAM, 1) == Val(Int(5), [])
  {
    hide LiteralValue, Exec, ExecStmt;
    Digits();
    var fs := [LAST];
    assert Functions(LAST_PROGRAM) == fs && FindFunction(fs, "main") == 0;
    NumberSource(fs, '5', Int(5), 0);
    LoneSource(fs);
    ElseSource(fs, Gives('1'), [LONE], 0);
    Then(fs, LAST.body, CHOICE, Gives('5'), map[], 0, map[]);
  }

  lemma LoneSource(fs: seq<Fun>)
    ensures Exec(fs, [LONE], map[], [], 0) == Next(map[], [])
  {
    TestSource(fs, 0);
    assert ExecStmt(fs, LONE, map[], [], 0) == Next(map[], []) by { hide Eval, Exec; }
    Then(fs, [LONE], LONE, [], map[], 0, map[]);
  }

  lemma LastRun(mem: map<int, Value>)
    ensures After(LAST_CODE, mem, 8).status == M.RanOff
  {
    hide M.Step;
    var s := M.Initial(LAST_CODE, mem);
    assert LAST_CHUNK[0] == OpCode(Gt, 0, Constant(0), Constant(1)) && LAST_CHUNK[1] == JumpElseTo(Ir.TempAt(0), 4) && LAST_CHUNK[4] == NOP;
    assert LAST_CHUNK[5] == OpCode(Gt, 1, Constant(0), Constant(1)) && LAST_CHUNK[6] == JumpElseTo(Ir.TempAt(1), 8);
    assert LAST_CHUNK[8] == LAST_CHUNK[9] == NOP && |LAST_CHUNK| == 10;
    hide Head;
    var s1 := M.Store(s, 0, Bool(false));
    DoOp(LAST_CODE, s, Gt, 0, Constant(0), Constant(1), Int(0), Int(1));
    DoTest(LAST_CODE, s1, 0, 4, false);
    var s2, s3 := s1.(ip := 4), s1.(ip := 5);
    DoNop(LAST_CODE, s2);
    var s4 := M.Store(s3, 1, Bool(false));
    DoOp(LAST_CODE, s3, Gt, 1, Constant(0), Constant(1), Int(0), Int(1));
    DoTest(LAST_CODE, s4, 1, 8, false);
    var s5, s6, s7 := s4.(ip := 8), s4.(ip := 9), s4.(ip := 10);
    DoNop(LAST_CODE, s5);
    DoNop(LAST_CODE, s6);
    LastEnds(s7);
    Rounds(LAST_CODE, [s, s1, s2, s3, s4, s5, s6, s7, M.Step(LAST_CODE, s7)]);
  }

  lemma LastEnds(s: M.State)
    requires M.Running(s) && s.fn == 0 && s.ip == |LAST_CHUNK|
    ensures M.Step(LAST_CODE, s).status == M.RanOff
  {
  }

  /** The statement after the `if` is lost: the source returns 5, the machine comes to the end of
      the chunk. */
  lemma LostStatementGoesWrong(mem: map<int, Value>)
    ensures forall fuel: nat | fuel > 0 :: RunMain(LAST_PROGRAM, fuel) == Val(Int(5), [])
    ensures Compile(map[], LAST_PROGRAM).Some?
    ensures After(Compile(map[], LAST_PROGRAM).value, mem, 8).status == M.RanOff
  {
    hide Compile, RunMain, After;
    LastCompiles();
    LastSource();
    LastRun(mem);
    forall fuel: nat | fuel > 0 ensures RunMain(LAST_PROGRAM, fuel) == Val(Int(5), []) {
      More(LAST_PROGRAM, 1, fuel);
    }
  }

  // ---------------------------------------------------------------- one level less

  /** `main` with `if 0 > 1 { return 2 } else { if 0 > 1 { return 3 } else { return 4 } }`. */
  const TWO := Fun("main", [], [MIDDLE])
  const TWO_PROGRAM: Program := [Function(TWO)]

  /** Of the three bodies only the one of two levels keeps all its steps. */
  lemma NestingExactly()
    ensures NothingLost(TWO.body, true) && !NothingLost(THREE.body, true) && !NothingLost(LAST.body, true)
  {
    NumberWhole('4');
    NumberWhole('3');
    NumberWhole('2');
    NumberWhole('1');
    NumberWhole('5');
    assert Straight(Gives('4')) && Straight(Gives('3')) && !Straight([INNER]) && !Straight([LONE]) && !Straight([MIDDLE]) by {
      assert Gives('4')[1..] == [] && Gives('3')[1..] == [];
    }
    hide Straight;
    assert [INNER][1..] == [] && [MIDDLE][1..] == [] && [OUTER][1..] == [];
    assert NothingLost([INNER], false);
    assert !NothingLost([MIDDLE], false);
    assert LAST.body[0] == CHOICE && LAST.body[1..] == Gives('5') && !Silent(Gives('5'));
  }

  lemma NumberWhole(d: char)
    ensures NothingLost(Gives(d), false) && NothingLost(Gives(d), true)
  {
    assert Gives(d)[1..] == [];
  }

  lemma TestFits(sg: Signature, n: nat)
    ensures OkCondition(sg, TEST, {}, n, 1) && Temps(TEST) == 1
  {
    assert |"0"| == 1 && |"1"| == 1 && |"true"| == 4 && |"false"| == 5;
    assert Count("1"[1..], '-') == 0 && Count("0"[1..], '-') == 0 && Count("1"[1..], '.') == 0 && Count("0"[1..], '.') == 0;
    assert KindOf("0") == TkInt && KindOf("1") == TkInt;
    hide KindOf;
    assert OkExpr(sg, TEST.left, {}, n, 1) && OkExpr(sg, TEST.right, {}, n, 1);
  }

  lemma NumberFits(sg: Signature, d: char, n: nat)
    requires IsDigit(d)
    ensures OkStmts(sg, Gives(d), {}, n, 1, false) && BlockTemps(Gives(d)) == 0 && DefinedIn(Gives(d)) == {}
    ensures AllAssigned(Gives(d), {})
  {
    var s := [d];
    assert |s| == 1 && |"true"| == 4 && |"false"| == 5 && s[1..] == [] && Count([], '-') == 0 && Count([], '.') == 0;
    assert KindOf(s) == TkInt;
    hide KindOf;
    assert Gives(d)[1..] == [];
    assert OkStmt(sg, Gives(d)[0], {}, n, 1, false);
  }

  /** A branch of two numbers or of a number and another branch. */
  lemma BranchFits(sg: Signature, d: char, els: seq<Stmt>, n: nat)
    requires IsDigit(d) && OkStmts(sg, els, {}, n + 1, 1, false) && AllAssigned(els, {})
    ensures OkStmts(sg, [If(TEST, Gives(d), Else(els))], {}, n, 1, false) && AllAssigned([If(TEST, Gives(d), Else(els))], {})
  {
    TestFits(sg, n);
    NumberFits(sg, d, n + 1);
    var s := If(TEST, Gives(d), Else(els));
    assert ReadsOnly(TEST, {});
    assert [s][1..] == [] && {} + DefinedIn(Gives(d)) == {};
    hide OkStmts, OkCondition, AllAssigned;
    assert OkStmt(sg, s, {}, n, 1, false);
    assert Assigned(s, {});
  }

  lemma MainIsIdent()
    ensures IsIdent("main") && ParamNames([]) == {} && Functions(TWO_PROGRAM) == [TWO] && FindFunction([TWO], "main") == 0
  {
    assert |"main"| == 4 && "main"[0] == 'm' && "main"[2] == 'i' && "match"[2] == 't' && |"true"| == 4 && "true"[0] == 't' && |"false"| == 5;
    assert "main" !in KEYWORDS;
    assert Functions([]) == [];
    assert Functions(TWO_PROGRAM) == [TWO] + [] == [TWO];
  }

  lemma TwoFits(natives: set<string>)
    ensures WellFormed(TWO_PROGRAM, natives) && DefinitelyAssigned(TWO_PROGRAM)
  {
    hide OkStmts, AllAssigned, NothingLost, KindOf, Functions, FindFunction;
    MainIsIdent();
    var sg := Signature([TWO], natives);
    NumberFits(sg, '4', 2);
    BranchFits(sg, '3', Gives('4'), 1);
    BranchFits(sg, '2', [INNER], 0);
    NestingExactly();
  }

  lemma TwoSource()
    ensures RunMain(TWO_PROGRAM, 1) == Val(Int(4), [])
  {
    hide LiteralValue, Exec, ExecStmt;
    Digits();
    var fs := [TWO];
    assert Functions(TWO_PROGRAM) == fs && FindFunction(fs, "main") == 0;
    NumberSource(fs, '4', Int(4), 0);
    ElseSource(fs, Gives('3'), Gives('4'), 0);
    Ends(fs, [INNER], map[], 0, Int(4));
    ElseSource(fs, Gives('2'), [INNER], 0);
    Ends(fs, [MIDDLE], map[], 0, Int(4));
  }

  /** An `else` body with an `if` of its own that ends the function: what is lost has no steps,
      and the machine returns what the source does. */
  lemma NestedEndIsRight(natives: map<string, int>, mem: map<int, Value>)
    ensures WellFormed(TWO_PROGRAM, natives.Keys) && RunMain(TWO_PROGRAM, 1) == Val(Int(4), [])
    ensures Compile(natives, TWO_PROGRAM).Some?
    ensures exists k: nat ::
              var t := After(Compile(natives, TWO_PROGRAM).value, mem, k); M.Finished(t) && M.Read(t.mem, 0) == Int(4)
  {
    TwoFits(natives.Keys);
    TwoSource();
    hide WellFormed, DefinitelyAssigned, Compile, RunMain, After;
    ReturnsExactly(TWO_PROGRAM, natives, mem, Int(4), []);
  }
}
