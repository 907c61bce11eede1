/** Programs outside the fragment that the compiler accepts and the machine gets wrong: one for
    each condition on literals, calls and loops. Nested `else` bodies are in NestedElse.dfy. */
module Counterexamples {
  import opened Values
  import opened Syntax
  import opened Semantics
  import opened Fragment
  import opened ExprLowering
  import opened LoweringFacts
  import opened Compositional
  import opened CleanLowering
  import opened Compiler
  import opened CompilerFacts
  import opened CleanPrograms
  import opened Correctness
  import opened FuelFacts
  import opened Evaluation
  import Ir
  import M = Machine

  // ---------------------------------------------------------------- a literal condition

  /** `main` with `if true { return 0 } return 1`. */
  const IF_TRUE := Fun("main", [], [If(Literal(TkTrue, "true"), [Return(Literal(TkInt, "0"))], NoElse), Return(Literal(TkInt, "1"))])

  const IF_TRUE_CODE := M.Code(
    [[JumpElseTo(Ir.Addr(Ir.Constant, 0), 2), Single(M.Ret, Translate(Ir.Addr(Ir.Constant, 1))), NOP,
      Single(M.Ret, Translate(Ir.Addr(Ir.Constant, 2)))]],
    [Bool(true), Int(0), Int(1)], 0)

  lemma Numerals()
    ensures LiteralValue(TkInt, "0") == Int(0) && LiteralValue(TkInt, "1") == Int(1) && LiteralValue(TkInt, "2") == Int(2)
    ensures LiteralValue(TkInt, "5") == Int(5) && LiteralValue(TkTrue, "true") == Bool(true)
  {
  }

  lemma IfTrueBody(pool: Pool) returns (c: Compiled)
    requires pool == Pool(map["main" := Ir.Imm(0)], [])
    ensures Becomes(IF_TRUE.body, Names(map[], map[]), pool, 0, 0, 0, false, c)
    ensures c.code == IF_TRUE_CODE.chunks[0] && c.pool.consts == IF_TRUE_CODE.consts
  {
    hide Becomes, BecomesOne, LiteralValue, LowerExpr;
    Numerals();
    assert "0"[0] != "1"[0];
    var nm := Names(map[], map[]);
    var yes, zero, one := Literal(TkTrue, "true"), Literal(TkInt, "0"), Literal(TkInt, "1");
    var pool1 := With(pool, "true", Bool(true));
    var pool2 := With(pool1, "0", Int(0));
    var pool3 := With(pool2, "1", Int(1));
    FirstUse(nm, pool, TkTrue, "true", 0, Bool(true));
    FirstUse(nm, pool1, TkInt, "0", 0, Int(0));
    FirstUse(nm, pool2, TkInt, "1", 0, Int(1));
    var code := IF_TRUE_CODE.chunks[0];
    Returns(zero, nm, pool1, 0, 1, 0, false, code[1..2]);
    Nothing(nm, pool2, 0, 2, 0, false);
    First([Return(zero)], Return(zero), [], nm, pool1, 0, 1, 0, false, Compiled(code[1..2], nm, pool2, 0), Compiled([], nm, pool2, 0), code[1..2]);
    Branches(yes, [Return(zero)], nm, pool, 0, 0, 0, false, Compiled(code[1..2], nm, pool2, 0), code[..3]);
    Returns(one, nm, pool2, 0, 3, 0, false, code[3..]);
    Nothing(nm, pool3, 0, 4, 0, false);
    First([Return(one)], Return(one), [], nm, pool2, 0, 3, 0, false, Compiled(code[3..], nm, pool3, 0), Compiled([], nm, pool3, 0), code[3..]);
    First(IF_TRUE.body, If(yes, [Return(zero)], NoElse), [Return(one)], nm, pool, 0, 0, 0, false,
          Compiled(code[..3], nm, pool2, 0), Compiled(code[3..], nm, pool3, 0), code);
    c := Compiled(code, nm, pool3, 0);
  }

  const IF_TRUE_PROGRAM: Program := [Function(IF_TRUE)]

  lemma IfTruePrepass()
    ensures CollectFunctions(IF_TRUE_PROGRAM, Prepass(map[], 0, -1)) == Some(Prepass(map["main" := Ir.Imm(0)], 1, 0))
    ensures Functions(IF_TRUE_PROGRAM) == [IF_TRUE]
  {
    assert IF_TRUE_PROGRAM[0].fun.name == "main";
  }

  lemma IfTrueCompiles()
    ensures Compile(map[], IF_TRUE_PROGRAM) == Some(IF_TRUE_CODE)
  {
    hide CompileStmts, Becomes, CleanFunctions, Bodies, PoolAfter, CollectFunctions, Functions, Compile;
    var pool := Pool(map["main" := Ir.Imm(0)], []);
    IfTruePrepass();
    var c := IfTrueBody(pool);
    FirstFunction([IF_TRUE], pool, c);
    NoFunctionsLeft(c.pool);
    assert [c.code] + [] == IF_TRUE_CODE.chunks && [IF_TRUE][1..] == [];
    FlatPrograms([IF_TRUE]);
    CompilesClean(IF_TRUE_PROGRAM, map[], Prepass(pool.globals, 1, 0));
  }

  lemma IfTrueRun(mem: map<int, Value>)
    ensures var t := After(IF_TRUE_CODE, mem, 3);
            M.Finished(t) && M.Read(t.mem, 0) == if Truthy(M.Read(mem, 0)) then Int(0) else Int(1)
  {
    var s := M.Initial(IF_TRUE_CODE, mem);
    hide M.Steps;
    M.StepsSucc(IF_TRUE_CODE, s, 0);
    M.StepsSucc(IF_TRUE_CODE, s, 1);
    M.StepsSucc(IF_TRUE_CODE, s, 2);
    M.StepsNone(IF_TRUE_CODE, s);
  }

  /** A condition that is a bare literal: the source returns 0, the machine whatever register 0
      asks for, which holds a dud when the engine starts. */
  lemma LiteralConditionGoesWrong(mem: map<int, Value>)
    ensures forall fuel: nat | fuel > 0 :: RunMain(IF_TRUE_PROGRAM, fuel) == Val(Int(0), [])
    ensures Compile(map[], IF_TRUE_PROGRAM).Some?
    ensures var t := After(Compile(map[], IF_TRUE_PROGRAM).value, mem, 3);
            M.Finished(t) && (M.Read(t.mem, 0) == Int(0) <==> Truthy(M.Read(mem, 0)))
  {
    hide Compile;
    IfTrueCompiles();
    IfTrueRun(mem);
    forall fuel: nat | fuel > 0 ensures RunMain(IF_TRUE_PROGRAM, fuel) == Val(Int(0), []) {
      IfTrueSource();
      More(IF_TRUE_PROGRAM, 1, fuel);
    }
  }

  lemma IfTrueSource()
    ensures RunMain(IF_TRUE_PROGRAM, 1) == Val(Int(0), [])
  {
  }

  // ---------------------------------------------------------------- calls without arguments

  /** `one` returns 1, `two` returns 2; `main` has `def z = 5` and returns `one() + two()`. */
  const ONE := Fun("one", [], [Return(Literal(TkInt, "1"))])
  const TWO := Fun("two", [], [Return(Literal(TkInt, "2"))])
  const SUM := Binary(Operator.Arith(Add), Call(Literal(TkIdent, "one"), []), Call(Literal(TkIdent, "two"), []))
  const ADD := Fun("main", [], [LocalDef("z", Literal(TkInt, "5")), Return(SUM)])

  const SHARED_PROGRAM: Program := [Function(ONE), Function(TWO), Function(ADD)]

  const ADD_CODE: M.Chunk :=
    [MovInstr(Ir.TempAt(0), Constant(2)), CallCode(0, 0), CallCode(1, 0), OpCode(Add, 1, Ir.TempAt(1), Ir.TempAt(1)),
     Single(M.Ret, Translate(Ir.TempAt(1)))]

  const SHARED_CODE := M.Code([[Single(M.Ret, Translate(Constant(0)))], [Single(M.Ret, Translate(Constant(1)))], ADD_CODE],
                              [Int(1), Int(2), Int(5)], 2)

  lemma SharedPrepass()
    ensures CollectFunctions(SHARED_PROGRAM, Prepass(map[], 0, -1))
            == Some(Prepass(map["one" := Ir.Imm(0), "two" := Ir.Imm(1), "main" := Ir.Imm(2)], 3, 2))
    ensures Functions(SHARED_PROGRAM) == [ONE, TWO, ADD]
  {
    assert "one"[0] != "two"[0] && |"main"| != |"one"| && |"main"| != |"two"|;
    var st1 := AfterFunction(ONE, Prepass(map[], 0, -1));
    var st2 := AfterFunction(TWO, st1);
    Collects(SHARED_PROGRAM, ONE, [Function(TWO), Function(ADD)], Prepass(map[], 0, -1));
    Collects([Function(TWO), Function(ADD)], TWO, [Function(ADD)], st1);
    Collects([Function(ADD)], ADD, [], st2);
    assert Functions([]) == [];
  }

  /** A function that returns a number. */
  lemma ReturnsNumber(lexeme: string, v: Value, pool: Pool)
    requires lexeme !in pool.globals && LiteralValue(TkInt, lexeme) == v
    ensures Becomes([Return(Literal(TkInt, lexeme))], Names(map[], map[]), pool, 0, 0, 0, false,
                    Compiled([Single(M.Ret, Translate(Constant(|pool.consts|)))], Names(map[], map[]), With(pool, lexeme, v), 0))
  {
    hide Becomes, BecomesOne, LiteralValue, LowerExpr;
    var nm := Names(map[], map[]);
    var e, code := Literal(TkInt, lexeme), [Single(M.Ret, Translate(Constant(|pool.consts|)))];
    FirstUse(nm, pool, TkInt, lexeme, 0, v);
    Returns(e, nm, pool, 0, 0, 0, false, code);
    Nothing(nm, With(pool, lexeme, v), 0, 1, 0, false);
    First([Return(e)], Return(e), [], nm, pool, 0, 0, 0, false, Compiled(code, nm, With(pool, lexeme, v), 0),
          Compiled([], nm, With(pool, lexeme, v), 0), code);
  }

  lemma AddBody(pool: Pool, f: Names)
    requires "one" in pool.globals && pool.globals["one"] == Ir.Imm(0) && "two" in pool.globals && pool.globals["two"] == Ir.Imm(1)
    requires "5" !in pool.globals && |pool.consts| == 2 && f == Names(map[], map["z" := Ir.TempAt(0)])
    ensures Becomes(ADD.body, Names(map[], map[]), pool, 0, 0, 0, false, Compiled(ADD_CODE, f, With(pool, "5", Int(5)), 2))
  {
    hide Becomes, BecomesOne, LiteralValue, LowerExpr;
    Numerals();
    assert "5"[0] != "one"[0] && "5"[0] != "two"[0];
    var nm, pool1 := Names(map[], map[]), With(pool, "5", Int(5));
    FirstUse(nm, pool, TkInt, "5", 0, Int(5));
    Defines("z", Literal(TkInt, "5"), nm, pool, 0, 0, 0, false, ADD_CODE[..1]);
    CallNothing(f, pool1, "one", 1, 0);
    CallNothing(f, pool1, "two", 1, 1);
    Sum(f, pool1, SUM, 1);
    var one, two := Ir.OperBinary(Ir.Imm(0), Ir.Imm(0), Ir.CallOp), Ir.OperBinary(Ir.Imm(1), Ir.Imm(0), Ir.CallOp);
    var add := Ir.TacBinary(Ir.TempAt(1), Ir.TempAt(1), Ir.TempAt(1), Add);
    assert LowerExpr(f, SUM, pool1, 1).steps == [one, two, add];
    ThreeSteps(one, two, add);
    Returns(SUM, f, pool1, 1, 1, 0, false, ADD_CODE[1..]);
    Nothing(f, pool1, 2, 5, 0, false);
    First([Return(SUM)], Return(SUM), [], f, pool1, 1, 1, 0, false, Compiled(ADD_CODE[1..], f, pool1, 2), Compiled([], f, pool1, 2), ADD_CODE[1..]);
    First(ADD.body, LocalDef("z", Literal(TkInt, "5")), [Return(SUM)], nm, pool, 0, 0, 0, false,
          Compiled(ADD_CODE[..1], f, pool1, 1), Compiled(ADD_CODE[1..], f, pool1, 2), ADD_CODE);
  }

  lemma SharedCompiles()
    ensures Compile(map[], SHARED_PROGRAM) == Some(SHARED_CODE)
  {
    hide CompileStmts, Becomes, CleanFunctions, Bodies, PoolAfter, CollectFunctions, Functions, Compile, LiteralValue;
    Numerals();
    SharedPrepass();
    var pool := Pool(map["one" := Ir.Imm(0), "two" := Ir.Imm(1), "main" := Ir.Imm(2)], []);
    var pool1, pool2 := With(pool, "1", Int(1)), With(With(pool, "1", Int(1)), "2", Int(2));
    assert "1"[0] != "2"[0] && "1"[0] != "5"[0] && "2"[0] != "5"[0] && |"1"| == |"2"| == |"5"| == 1;
    var nm, f := Names(map[], map[]), Names(map[], map["z" := Ir.TempAt(0)]);
    ReturnsNumber("1", Int(1), pool);
    ReturnsNumber("2", Int(2), pool1);
    AddBody(pool2, f);
    var c := Compiled(ADD_CODE, f, With(pool2, "5", Int(5)), 2);
    FirstFunction([ONE, TWO, ADD], pool, Compiled(SHARED_CODE.chunks[0], nm, pool1, 0));
    assert [ONE, TWO, ADD][1..] == [TWO, ADD] && [TWO, ADD][1..] == [ADD] && [ADD][1..] == [];
    FirstFunction([TWO, ADD], pool1, Compiled(SHARED_CODE.chunks[1], nm, pool2, 0));
    assert ADD.body[1..] == [Return(SUM)] && ElsesFlat([Return(SUM)]);
    FlatPrograms([ONE, TWO, ADD]);
    FirstFunction([ADD], pool2, c);
    NoFunctionsLeft(c.pool);
    assert [SHARED_CODE.chunks[0]] + ([SHARED_CODE.chunks[1]] + ([ADD_CODE] + [])) == SHARED_CODE.chunks;
    assert c.pool.consts == SHARED_CODE.consts;
    CompilesClean(SHARED_PROGRAM, map[], Prepass(pool.globals, 3, 2));
  }

  lemma SharedRun(mem: map<int, Value>)
    ensures var t := After(SHARED_CODE, mem, 7);
            M.Finished(t) && M.Read(t.mem, 0) == Int(4)
  {
    hide M.Step;
    var s := M.Initial(SHARED_CODE, mem);
    var f := M.Frame(0, 0, 0, 0);
    var mem1 := mem[0 := Int(5)];
    var s1 := M.State(2, 1, 0, 0, mem1, [], [f], M.Ok);
    DoMove(SHARED_CODE, s, 0, Constant(2), Int(5));
    var s2 := M.State(0, 0, 1, 0, mem1, [], [f, M.Frame(2, 2, 0, 0)], M.Ok);
    DoCall(SHARED_CODE, s1, 0, 0);
    assert [f] + [M.Frame(2, 2, 0, 0)] == [f, M.Frame(2, 2, 0, 0)];
    var s3 := M.State(2, 2, 0, 0, mem1[1 := Int(1)], [], [f], M.Ok);
    DoReturn(SHARED_CODE, s2, Constant(0), Int(1), [f], M.Frame(2, 2, 0, 0));
    var s4 := M.State(1, 0, 1, 0, s3.mem, [], [f, M.Frame(2, 3, 0, 0)], M.Ok);
    DoCall(SHARED_CODE, s3, 1, 0);
    assert [f] + [M.Frame(2, 3, 0, 0)] == [f, M.Frame(2, 3, 0, 0)];
    var s5 := M.State(2, 3, 0, 0, s3.mem[1 := Int(2)], [], [f], M.Ok);
    DoReturn(SHARED_CODE, s4, Constant(1), Int(2), [f], M.Frame(2, 3, 0, 0));
    var s6 := M.Store(s5, 1, Int(4));
    DoOp(SHARED_CODE, s5, Add, 1, Ir.TempAt(1), Ir.TempAt(1), Int(2), Int(2));
    DoReturn(SHARED_CODE, s6, Ir.TempAt(1), Int(4), [], f);
    var s7 := M.State(0, 0, 0, 0, s6.mem[0 := Int(4)], [], [], M.Ok);
    Rounds(SHARED_CODE, [s, s1, s2, s3, s4, s5, s6, s7]);
  }

  /** Calling a function that returns a number. */
  lemma InvokesNumber(fs: seq<Fun>, name: string, lexeme: string, v: Value, heap: Heap, fuel: nat)
    requires var k := FindFunction(fs, name); k < |fs| && fs[k].params == [] && fs[k].body == [Return(Literal(TkInt, lexeme))]
    requires LiteralValue(TkInt, lexeme) == v && fuel > 0
    ensures Invoke(fs, name, [], heap, fuel) == Val(v, heap)
  {
    hide LiteralValue, FindFunction;
    var e := Return(Literal(TkInt, lexeme));
    assert ExecStmt(fs, e, map[], heap, fuel - 1) == Returned(v, heap);
    assert Exec(fs, [e], map[], heap, fuel - 1) == Returned(v, heap);
  }

  lemma SharedNames()
    ensures var fs := [ONE, TWO, ADD];
            FindFunction(fs, "one") == 0 && FindFunction(fs, "two") == 1 && FindFunction(fs, "main") == 2
  {
    assert "one"[0] != "two"[0] && |"main"| != |"one"| && |"main"| != |"two"|;
    assert [ONE, TWO, ADD][1..] == [TWO, ADD] && [TWO, ADD][1..] == [ADD];
    assert FindFunction([ADD], "main") == 0 && FindFunction([TWO, ADD], "main") == 1;
  }

  lemma SharedSource()
    ensures RunMain(SHARED_PROGRAM, 2) == Val(Int(3), [])
  {
    hide LiteralValue, FindFunction, Functions, Invoke;
    Numerals();
    SharedPrepass();
    SharedNames();
    var fs := [ONE, TWO, ADD];
    InvokesNumber(fs, "one", "1", Int(1), [], 1);
    InvokesNumber(fs, "two", "2", Int(2), [], 1);
    var env: Env := map["z" := Int(5)];
    assert EvalAll(fs, [], env, [], 1) == Vals([], []);
    assert Eval(fs, SUM.left, env, [], 1) == Val(Int(1), []);
    assert Eval(fs, SUM.right, env, [], 1) == Val(Int(2), []);
    assert Eval(fs, SUM, env, [], 1) == Val(Int(3), []);
    SharedMain(fs);
  }

  lemma SharedMain(fs: seq<Fun>)
    requires fs == [ONE, TWO, ADD] && FindFunction(fs, "main") == 2
    requires Eval(fs, SUM, map["z" := Int(5)], [], 1) == Val(Int(3), [])
    ensures Invoke(fs, "main", [], [], 2) == Val(Int(3), [])
  {
    hide LiteralValue, FindFunction;
    Numerals();
    var def, ret := LocalDef("z", Literal(TkInt, "5")), Return(SUM);
    var env: Env := map[];
    assert ExecStmt(fs, def, env, [], 1) == Next(env["z" := Int(5)], []);
    hide Eval;
    assert ExecStmt(fs, ret, env["z" := Int(5)], [], 1) == Returned(Int(3), []);
    assert ADD.body[1..] == [ret];
    assert Exec(fs, [ret], env["z" := Int(5)], [], 1) == Returned(Int(3), []);
    assert Exec(fs, ADD.body, env, [], 1) == Returned(Int(3), []);
  }

  /** Two calls without arguments in one expression leave their results in one register: the
      machine adds the second result to itself. */
  lemma SharedResultGoesWrong(mem: map<int, Value>)
    ensures forall fuel: nat | fuel > 1 :: RunMain(SHARED_PROGRAM, fuel) == Val(Int(3), [])
    ensures Compile(map[], SHARED_PROGRAM).Some?
    ensures var t := After(Compile(map[], SHARED_PROGRAM).value, mem, 7); M.Finished(t) && M.Read(t.mem, 0) == Int(4)
  {
    hide Compile, RunMain;
    SharedCompiles();
    SharedRun(mem);
    SharedSource();
    forall fuel: nat | fuel > 1 ensures RunMain(SHARED_PROGRAM, fuel) == Val(Int(3), []) {
      More(SHARED_PROGRAM, 2, fuel);
    }
  }

  /** `main` returns `one()`. */
  const FORWARD := Fun("main", [], [Return(Call(Literal(TkIdent, "one"), []))])

  const MISSED_PROGRAM: Program := [Function(ONE), Function(FORWARD)]

  const FORWARD_CODE: M.Chunk := [CallCode(0, 0), Single(M.Ret, Translate(Ir.TempAt(0)))]

  const MISSED_CODE := M.Code([[Single(M.Ret, Translate(Constant(0)))], FORWARD_CODE], [Int(1)], 1)

  lemma MissedPrepass()
    ensures CollectFunctions(MISSED_PROGRAM, Prepass(map[], 0, -1)) == Some(Prepass(map["one" := Ir.Imm(0), "main" := Ir.Imm(1)], 2, 1))
    ensures Functions(MISSED_PROGRAM) == [ONE, FORWARD]
  {
    assert |"main"| != |"one"|;
    var st1 := AfterFunction(ONE, Prepass(map[], 0, -1));
    Collects(MISSED_PROGRAM, ONE, [Function(FORWARD)], Prepass(map[], 0, -1));
    Collects([Function(FORWARD)], FORWARD, [], st1);
    assert Functions([]) == [];
  }

  lemma ForwardBody(pool: Pool)
    requires "one" in pool.globals && pool.globals["one"] == Ir.Imm(0)
    ensures Becomes(FORWARD.body, Names(map[], map[]), pool, 0, 0, 0, false, Compiled(FORWARD_CODE, Names(map[], map[]), pool, 0))
  {
    hide Becomes, BecomesOne, LowerExpr;
    var nm, e := Names(map[], map[]), Call(Literal(TkIdent, "one"), []);
    CallNothing(nm, pool, "one", 0, 0);
    var call := Ir.OperBinary(Ir.Imm(0), Ir.Imm(0), Ir.CallOp);
    assert [call][1..] == [] && NoMarkers([call]);
    TranslateOne(call);
    Returns(e, nm, pool, 0, 0, 0, false, FORWARD_CODE);
    Nothing(nm, pool, 0, 2, 0, false);
    First(FORWARD.body, Return(e), [], nm, pool, 0, 0, 0, false, Compiled(FORWARD_CODE, nm, pool, 0), Compiled([], nm, pool, 0), FORWARD_CODE);
  }

  lemma MissedCompiles()
    ensures Compile(map[], MISSED_PROGRAM) == Some(MISSED_CODE)
  {
    hide CompileStmts, Becomes, CleanFunctions, Bodies, PoolAfter, CollectFunctions, Functions, Compile, LiteralValue;
    Numerals();
    MissedPrepass();
    var pool := Pool(map["one" := Ir.Imm(0), "main" := Ir.Imm(1)], []);
    var nm, pool1 := Names(map[], map[]), With(pool, "1", Int(1));
    assert |"1"| == 1;
    ReturnsNumber("1", Int(1), pool);
    ForwardBody(pool1);
    FirstFunction([ONE, FORWARD], pool, Compiled(MISSED_CODE.chunks[0], nm, pool1, 0));
    assert [ONE, FORWARD][1..] == [FORWARD] && [FORWARD][1..] == [];
    FirstFunction([FORWARD], pool1, Compiled(FORWARD_CODE, nm, pool1, 0));
    NoFunctionsLeft(pool1);
    FlatPrograms([ONE, FORWARD]);
    assert [MISSED_CODE.chunks[0]] + ([FORWARD_CODE] + []) == MISSED_CODE.chunks && pool1.consts == MISSED_CODE.consts;
    CompilesClean(MISSED_PROGRAM, map[], Prepass(pool.globals, 2, 1));
  }

  lemma MissedRun(mem: map<int, Value>)
    ensures var t := After(MISSED_CODE, mem, 3);
            M.Finished(t) && M.Read(t.mem, 0) == M.Read(mem, 0)
  {
    var s := M.Initial(MISSED_CODE, mem);
    var s1 := M.Step(MISSED_CODE, s);
    var s2 := M.Step(MISSED_CODE, s1);
    assert s2 == M.State(1, 1, 0, 0, mem[1 := Int(1)], [], s.frames, M.Ok);
    var s3 := M.Step(MISSED_CODE, s2);
    hide M.Step;
    Rounds(MISSED_CODE, [s, s1, s2, s3]);
  }

  lemma MissedSource()
    ensures RunMain(MISSED_PROGRAM, 2) == Val(Int(1), [])
  {
    hide LiteralValue, Functions, Invoke;
    Numerals();
    MissedPrepass();
    var fs, e := [ONE, FORWARD], Call(Literal(TkIdent, "one"), []);
    assert |"main"| != |"one"| && fs[1..] == [FORWARD];
    assert FindFunction([FORWARD], "main") == 0 && FindFunction(fs, "main") == 1 && FindFunction(fs, "one") == 0;
    InvokesNumber(fs, "one", "1", Int(1), [], 1);
    MissedMain(fs, e);
  }

  lemma MissedMain(fs: seq<Fun>, e: Expr)
    requires fs == [ONE, FORWARD] && FindFunction(fs, "main") == 1 && e == Call(Literal(TkIdent, "one"), [])
    requires Invoke(fs, "one", [], [], 1) == Val(Int(1), [])
    ensures Invoke(fs, "main", [], [], 2) == Val(Int(1), [])
  {
    hide FindFunction;
    assert EvalAll(fs, [], map[], [], 1) == Vals([], []);
    assert Eval(fs, e, map[], [], 1) == Val(Int(1), []);
    hide Eval;
    assert ExecStmt(fs, Return(e), map[], [], 1) == Returned(Int(1), []);
    assert Exec(fs, [Return(e)], map[], [], 1) == Returned(Int(1), []);
  }

  /** A call without arguments before any temporary exists: the callee's window begins one
      register too high, and the caller returns what register 0 held when the engine started. */
  lemma MissedResultGoesWrong(mem: map<int, Value>)
    ensures forall fuel: nat | fuel > 1 :: RunMain(MISSED_PROGRAM, fuel) == Val(Int(1), [])
    ensures Compile(map[], MISSED_PROGRAM).Some?
    ensures var t := After(Compile(map[], MISSED_PROGRAM).value, mem, 3); M.Finished(t) && M.Read(t.mem, 0) == M.Read(mem, 0)
  {
    hide Compile, RunMain;
    MissedCompiles();
    MissedRun(mem);
    MissedSource();
    forall fuel: nat | fuel > 1 ensures RunMain(MISSED_PROGRAM, fuel) == Val(Int(1), []) {
      More(MISSED_PROGRAM, 2, fuel);
    }
  }

  // ---------------------------------------------------------------- a call in a loop

  const A := Literal(TkIdent, "a")
  const I := Literal(TkIdent, "i")
  const NEXT := Binary(Operator.Arith(Add), A, Literal(TkInt, "1"))
  const NEXT_I := Binary(Operator.Arith(Add), I, Literal(TkInt, "1"))
  const BELOW := Binary(Operator.Arith(Lt), I, Literal(TkInt, "2"))
  const CALL_INC := Call(Literal(TkIdent, "inc"), [I])

  /** `inc` returns `a + 1`. */
  const INC := Fun("inc", ["a"], [Return(NEXT)])

  /** `def i = 0  def s = 0  while i < 2 { s = inc(i)  i = i + 1 }  return s`. */
  const LOOP_BODY: seq<Stmt> := [ExprStmt(Assign(Literal(TkIdent, "s"), CALL_INC)), ExprStmt(Assign(I, NEXT_I))]

  const LOOP: seq<Stmt> := [While(BELOW, LOOP_BODY), Return(Literal(TkIdent, "s"))]

  const COUNT := Fun("main", [], [LocalDef("i", Literal(TkInt, "0")), LocalDef("s", Literal(TkInt, "0"))] + LOOP)

  const LOOP_PROGRAM: Program := [Function(INC), Function(COUNT)]

  const INC_CODE: M.Chunk := [OpCode(Add, 1, Ir.TempAt(0), Constant(0)), Single(M.Ret, Translate(Ir.TempAt(1)))]

  const ROUND_CODE: M.Chunk :=
    [MovInstr(Ir.TempAt(3), Ir.TempAt(0)), CallCode(0, 1), MovInstr(Ir.TempAt(1), Ir.TempAt(3)),
     OpCode(Add, 4, Ir.TempAt(0), Constant(0)), MovInstr(Ir.TempAt(0), Ir.TempAt(4))]

  const WHILE_CODE: M.Chunk :=
    [NOP, OpCode(Lt, 2, Ir.TempAt(0), Constant(2)), JumpElseTo(Ir.TempAt(2), 11)] + ROUND_CODE + [JumpTo(2), NOP]

  const COUNT_CODE: M.Chunk :=
    [MovInstr(Ir.TempAt(0), Constant(1)), MovInstr(Ir.TempAt(1), Constant(1))] + WHILE_CODE + [Single(M.Ret, Translate(Ir.TempAt(1)))]

  const LOOP_CODE := M.Code([INC_CODE, COUNT_CODE], [Int(1), Int(0), Int(2)], 1)

  lemma LoopPrepass()
    ensures CollectFunctions(LOOP_PROGRAM, Prepass(map[], 0, -1)) == Some(Prepass(map["inc" := Ir.Imm(0), "main" := Ir.Imm(1)], 2, 1))
    ensures Functions(LOOP_PROGRAM) == [INC, COUNT]
  {
    assert |"main"| != |"inc"|;
    var st1 := AfterFunction(INC, Prepass(map[], 0, -1));
    Collects(LOOP_PROGRAM, INC, [Function(COUNT)], Prepass(map[], 0, -1));
    Collects([Function(COUNT)], COUNT, [], st1);
    assert Functions([]) == [];
  }

  lemma IncBody(pool: Pool, nm: Names, pool1: Pool)
    requires pool == Pool(map["inc" := Ir.Imm(0), "main" := Ir.Imm(1)], []) && pool1 == With(pool, "1", Int(1))
    requires nm == Names(map[], map["a" := Ir.TempAt(0)])
    ensures Becomes(INC.body, nm, pool, 1, 0, 0, false, Compiled(INC_CODE, nm, pool1, 2))
  {
    hide Becomes, BecomesOne, LiteralValue, LowerExpr;
    Numerals();
    assert |"a"| == |"1"| == 1 && |"inc"| == 3 && |"main"| == 4;
    Variable(nm, pool, "a", 1);
    FirstUse(nm, pool, TkInt, "1", 1, Int(1));
    Sum(nm, pool, NEXT, 1);
    OneStep(Ir.TacBinary(Ir.TempAt(1), Ir.TempAt(0), Constant(0), Add), LowerExpr(nm, NEXT, pool, 1).steps);
    Returns(NEXT, nm, pool, 1, 0, 0, false, INC_CODE);
    Nothing(nm, pool1, 2, 2, 0, false);
    First(INC.body, Return(NEXT), [], nm, pool, 1, 0, 0, false, Compiled(INC_CODE, nm, pool1, 2), Compiled([], nm, pool1, 2), INC_CODE);
  }

  ghost predicate LoopPool(pool: Pool) {
    && "inc" in pool.globals && pool.globals["inc"] == Ir.Imm(0)
    && "1" in pool.globals && pool.globals["1"] == Constant(0) && "i" !in pool.globals && "s" !in pool.globals
  }

  function LoopNames(): Names {
    Names(map[], map["i" := Ir.TempAt(0), "s" := Ir.TempAt(1)])
  }

  lemma RoundBody(pool: Pool)
    requires LoopPool(pool)
    ensures Becomes(LOOP_BODY, LoopNames(), pool, 3, 5, 11, true, Compiled(ROUND_CODE, LoopNames(), pool, 5))
  {
    hide Becomes, BecomesOne, LiteralValue, LowerExpr;
    assert "i"[0] != "s"[0];
    var nm := LoopNames();
    Variable(nm, pool, "i", 3);
    CallAtom(nm, pool, "inc", I, 3, 0);
    TwoSteps(Ir.TacMove(Ir.TempAt(3), Ir.TempAt(0)), Ir.OperBinary(Ir.Imm(0), Ir.Imm(1), Ir.CallOp));
    Assigns("s", CALL_INC, nm, pool, 3, 5, 11, true, ROUND_CODE[..3]);
    Variable(nm, pool, "i", 4);
    Reuse(nm, pool, TkInt, "1", 4);
    Sum(nm, pool, NEXT_I, 4);
    OneStep(Ir.TacBinary(Ir.TempAt(4), Ir.TempAt(0), Constant(0), Add), LowerExpr(nm, NEXT_I, pool, 4).steps);
    Assigns("i", NEXT_I, nm, pool, 4, 8, 11, true, ROUND_CODE[3..]);
    Nothing(nm, pool, 5, 10, 11, true);
    First(LOOP_BODY[1..], LOOP_BODY[1], [], nm, pool, 4, 8, 11, true,
          Compiled(ROUND_CODE[3..], nm, pool, 5), Compiled([], nm, pool, 5), ROUND_CODE[3..]);
    First(LOOP_BODY, LOOP_BODY[0], LOOP_BODY[1..], nm, pool, 3, 5, 11, true,
          Compiled(ROUND_CODE[..3], nm, pool, 4), Compiled(ROUND_CODE[3..], nm, pool, 5), ROUND_CODE);
  }

  lemma LoopBody(pool: Pool)
    requires LoopPool(pool) && "2" !in pool.globals && |pool.consts| == 2
    ensures Becomes(LOOP, LoopNames(), pool, 2, 2, 0, false,
                    Compiled(WHILE_CODE + [Single(M.Ret, Translate(Ir.TempAt(1)))], LoopNames(), With(pool, "2", Int(2)), 5))
  {
    hide Becomes, BecomesOne, LiteralValue, LowerExpr;
    Numerals();
    assert "i"[0] != "s"[0] && "2"[0] != "1"[0] && "2"[0] != "i"[0] && "2"[0] != "s"[0];
    var nm, pool1 := LoopNames(), With(pool, "2", Int(2));
    Variable(nm, pool, "i", 2);
    FirstUse(nm, pool, TkInt, "2", 2, Int(2));
    Sum(nm, pool, BELOW, 2);
    OneStep(Ir.TacBinary(Ir.TempAt(2), Ir.TempAt(0), Constant(2), Lt), LowerExpr(nm, BELOW, pool, 2).steps);
    RoundBody(pool1);
    Repeats(BELOW, LOOP_BODY, nm, pool, 2, 2, 0, false, Compiled(ROUND_CODE, nm, pool1, 5), WHILE_CODE);
    var ret := [Single(M.Ret, Translate(Ir.TempAt(1)))];
    Variable(nm, pool1, "s", 5);
    Returns(Literal(TkIdent, "s"), nm, pool1, 5, 12, 0, false, ret);
    Nothing(nm, pool1, 5, 13, 0, false);
    First(LOOP[1..], LOOP[1], [], nm, pool1, 5, 12, 0, false, Compiled(ret, nm, pool1, 5), Compiled([], nm, pool1, 5), ret);
    First(LOOP, LOOP[0], LOOP[1..], nm, pool, 2, 2, 0, false, Compiled(WHILE_CODE, nm, pool1, 5), Compiled(ret, nm, pool1, 5), WHILE_CODE + ret);
  }

  lemma CountBody(pool: Pool)
    requires pool == With(Pool(map["inc" := Ir.Imm(0), "main" := Ir.Imm(1)], []), "1", Int(1))
    ensures Becomes(COUNT.body, Names(map[], map[]), pool, 0, 0, 0, false,
                    Compiled(COUNT_CODE, LoopNames(), With(With(pool, "0", Int(0)), "2", Int(2)), 5))
  {
    hide Becomes, BecomesOne, LiteralValue, LowerExpr;
    Numerals();
    assert "0"[0] != "1"[0] && "2"[0] != "1"[0] && "2"[0] != "0"[0] && "i"[0] != "s"[0];
    assert |"0"| == |"1"| == |"2"| == |"i"| == |"s"| == 1 && |"inc"| == 3 && |"main"| == 4;
    assert "i"[0] != "0"[0] && "i"[0] != "1"[0] && "s"[0] != "0"[0] && "s"[0] != "1"[0];
    var nm, pool1 := Names(map[], map[]), With(pool, "0", Int(0));
    var nm1 := Names(map[], map["i" := Ir.TempAt(0)]);
    var zero, rest := Literal(TkInt, "0"), COUNT.body[1..];
    FirstUse(nm, pool, TkInt, "0", 0, Int(0));
    Defines("i", zero, nm, pool, 0, 0, 0, false, COUNT_CODE[..1]);
    Reuse(nm1, pool1, TkInt, "0", 1);
    Defines("s", zero, nm1, pool1, 1, 1, 0, false, COUNT_CODE[1..2]);
    LoopBody(pool1);
    var c := Compiled(COUNT_CODE[2..], LoopNames(), With(pool1, "2", Int(2)), 5);
    assert COUNT_CODE[2..] == WHILE_CODE + [Single(M.Ret, Translate(Ir.TempAt(1)))];
    assert nm1.locals["s" := Ir.TempAt(1)] == LoopNames().locals;
    First(rest, LocalDef("s", zero), LOOP, nm1, pool1, 1, 1, 0, false, Compiled(COUNT_CODE[1..2], LoopNames(), pool1, 2), c, COUNT_CODE[1..]);
    First(COUNT.body, LocalDef("i", zero), rest, nm, pool, 0, 0, 0, false,
          Compiled(COUNT_CODE[..1], nm1, pool1, 1), c.(code := COUNT_CODE[1..]), COUNT_CODE);
  }

  lemma LoopCompiles()
    ensures Compile(map[], LOOP_PROGRAM) == Some(LOOP_CODE)
  {
    hide CompileStmts, Becomes, CleanFunctions, Bodies, PoolAfter, CollectFunctions, Functions, Compile, LiteralValue;
    LoopPrepass();
    var pool := Pool(map["inc" := Ir.Imm(0), "main" := Ir.Imm(1)], []);
    var nm, pool1 := Names(map[], map["a" := Ir.TempAt(0)]), With(pool, "1", Int(1));
    IncBody(pool, nm, pool1);
    CountBody(pool1);
    IncFits(nm);
    CountFlat();
    FirstFunction([INC, COUNT], pool, Compiled(INC_CODE, nm, pool1, 2));
    assert [INC, COUNT][1..] == [COUNT] && [COUNT][1..] == [];
    var c := Compiled(COUNT_CODE, LoopNames(), With(With(pool1, "0", Int(0)), "2", Int(2)), 5);
    FirstFunction([COUNT], pool1, c);
    NoFunctionsLeft(c.pool);
    FlatPrograms([INC, COUNT]);
    assert [INC_CODE] + ([COUNT_CODE] + []) == LOOP_CODE.chunks && c.pool.consts == LOOP_CODE.consts;
    CompilesClean(LOOP_PROGRAM, map[], Prepass(pool.globals, 2, 1));
  }

  lemma IncFits(nm: Names)
    requires nm == Names(map[], map["a" := Ir.TempAt(0)])
    ensures BodyNames(map[], INC) == nm && Distinct(INC.params)
  {
    assert ["a"][..0] == [];
  }

  lemma CountFlat()
    ensures ElsesFlat(COUNT.body)
  {
    FlatFirst(LOOP_BODY[1..], LOOP_BODY[1], []);
    FlatFirst(LOOP_BODY, LOOP_BODY[0], LOOP_BODY[1..]);
    FlatFirst(LOOP[1..], LOOP[1], []);
    FlatFirst(LOOP, LOOP[0], LOOP[1..]);
    FlatFirst(COUNT.body[1..], COUNT.body[1], LOOP);
    FlatFirst(COUNT.body, COUNT.body[0], COUNT.body[1..]);
  }

  const HALT := M.Frame(0, 0, 0, 0)

  function InLoop(ip: int, rft: int, mem: map<int, Value>): M.State {
    M.State(1, ip, 0, rft, mem, [], [HALT], M.Ok)
  }

  /** The test at the head of the loop. */
  lemma LoopTest(mem: map<int, Value>, rft: int, i: int)
    requires M.Read(mem, 0) == Int(i)
    ensures var t := InLoop(if i < 2 then 5 else 11, M.Max(rft, 2), mem[2 := Bool(i < 2)]);
            M.Steps(LOOP_CODE, InLoop(2, rft, mem), 3) == t
  {
    hide M.Step;
    var s, s1 := InLoop(2, rft, mem), InLoop(3, rft, mem);
    var s2 := InLoop(4, M.Max(rft, 2), mem[2 := Bool(i < 2)]);
    DoNop(LOOP_CODE, s);
    DoOp(LOOP_CODE, s1, Lt, 2, Ir.TempAt(0), Constant(2), Int(i), Int(2));
    DoTest(LOOP_CODE, s2, 2, 11, i < 2);
    Rounds(LOOP_CODE, [s, s1, s2, M.Step(LOOP_CODE, s2)]);
  }

  /** The call: the argument goes to register 3, the callee works at the frame top. */
  lemma LoopCall(mem: map<int, Value>, rft: int, i: int, w: int, c: int)
    requires M.Read(mem, 0) == Int(i) && 0 <= c < 2 && w == M.Max(rft, 3) && M.Read(mem[3 := Int(i)], w) == Int(c)
    ensures M.Steps(LOOP_CODE, InLoop(5, rft, mem), 4) == InLoop(7, w, mem[3 := Int(i)][w + 1 := Int(c + 1)][w := Int(c + 1)])
  {
    hide M.Step;
    var mem2, back := mem[3 := Int(i)], M.Frame(1, 7, 0, w);
    var mem3 := mem2[w + 1 := Int(c + 1)];
    var s, s1 := InLoop(5, rft, mem), InLoop(6, w, mem2);
    DoMove(LOOP_CODE, s, 3, Ir.TempAt(0), Int(i));
    var s2 := M.State(0, 0, w, w, mem2, [], [HALT, back], M.Ok);
    DoCall(LOOP_CODE, s1, 0, 1);
    assert [HALT] + [back] == [HALT, back];
    var s3 := M.State(0, 1, w, w + 1, mem3, [], [HALT, back], M.Ok);
    DoOp(LOOP_CODE, s2, Add, 1, Ir.TempAt(0), Constant(0), Int(c), Int(1));
    DoReturn(LOOP_CODE, s3, Ir.TempAt(1), Int(c + 1), [HALT], back);
    Rounds(LOOP_CODE, [s, s1, s2, s3, M.Step(LOOP_CODE, s3)]);
  }

  /** The rest of the body: `s` gets register 3, `i` is increased. */
  lemma LoopRest(mem: map<int, Value>, w: int, i: int, r: Value)
    requires M.Read(mem, 0) == Int(i) && 0 <= i < 2 && M.Read(mem, 3) == r && w >= 3
    ensures M.Steps(LOOP_CODE, InLoop(7, w, mem), 4) == InLoop(2, M.Max(w, 4), mem[1 := r][4 := Int(i + 1)][0 := Int(i + 1)])
  {
    hide M.Step;
    var mem1 := mem[1 := r];
    var mem2 := mem1[4 := Int(i + 1)];
    var s, s1, s2 := InLoop(7, w, mem), InLoop(8, w, mem1), InLoop(9, M.Max(w, 4), mem2);
    var s3 := InLoop(10, M.Max(w, 4), mem2[0 := Int(i + 1)]);
    DoMove(LOOP_CODE, s, 1, Ir.TempAt(3), r);
    DoOp(LOOP_CODE, s1, Add, 4, Ir.TempAt(0), Constant(0), Int(i), Int(1));
    DoMove(LOOP_CODE, s2, 0, Ir.TempAt(4), Int(i + 1));
    DoJump(LOOP_CODE, s3, 2);
    Rounds(LOOP_CODE, [s, s1, s2, s3, M.Step(LOOP_CODE, s3)]);
  }

  /** One round. The callee's window begins at the frame top `w`, which is the register of the
      argument in the first round only; the result is read from register 3 in any round. */
  lemma LoopRound(mem: map<int, Value>, rft: int, i: int, w: int, c: int) returns (mem': map<int, Value>)
    requires M.Read(mem, 0) == Int(i) && 0 <= i < 2 && 0 <= c < 2 && w == M.Max(M.Max(rft, 2), 3)
    requires M.Read(mem[2 := Bool(true)][3 := Int(i)], w) == Int(c)
    ensures M.Steps(LOOP_CODE, InLoop(2, rft, mem), 11) == InLoop(2, M.Max(w, 4), mem')
    ensures M.Read(mem', 0) == Int(i + 1) && M.Read(mem', 4) == Int(i + 1)
    ensures M.Read(mem', 1) == if w == 3 then Int(c + 1) else Int(i)
  {
    hide M.Steps;
    var s, mem1 := InLoop(2, rft, mem), mem[2 := Bool(true)];
    var mem2 := mem1[3 := Int(i)][w + 1 := Int(c + 1)][w := Int(c + 1)];
    var r := M.Read(mem2, 3);
    LoopTest(mem, rft, i);
    LoopCall(mem1, M.Max(rft, 2), i, w, c);
    LoopRest(mem2, w, i, r);
    M.StepsAdd(LOOP_CODE, s, 3, 4);
    M.StepsAdd(LOOP_CODE, s, 7, 4);
    mem' := mem2[1 := r][4 := Int(i + 1)][0 := Int(i + 1)];
  }

  lemma LoopStart(mem: map<int, Value>)
    ensures After(LOOP_CODE, mem, 2) == InLoop(2, 1, mem[0 := Int(0)][1 := Int(0)])
  {
    hide M.Step;
    var s, s1 := M.Initial(LOOP_CODE, mem), InLoop(1, 0, mem[0 := Int(0)]);
    DoMove(LOOP_CODE, s, 0, Constant(1), Int(0));
    DoMove(LOOP_CODE, s1, 1, Constant(1), Int(0));
    Rounds(LOOP_CODE, [s, s1, M.Step(LOOP_CODE, s1)]);
  }

  lemma LoopExit(mem: map<int, Value>, rft: int, v: Value)
    requires M.Read(mem, 0) == Int(2) && M.Read(mem, 1) == v
    ensures var t := M.Steps(LOOP_CODE, InLoop(2, rft, mem), 5); M.Finished(t) && M.Read(t.mem, 0) == v
  {
    LoopTest(mem, rft, 2);
    hide M.Step;
    var s := InLoop(2, rft, mem);
    var s3 := InLoop(11, M.Max(rft, 2), mem[2 := Bool(false)]);
    var s4 := s3.(ip := 12);
    DoNop(LOOP_CODE, s3);
    DoReturn(LOOP_CODE, s4, Ir.TempAt(1), v, [], HALT);
    Rounds(LOOP_CODE, [s3, s4, M.Step(LOOP_CODE, s4)]);
    M.StepsAdd(LOOP_CODE, s, 3, 2);
  }

  lemma LoopRun(mem: map<int, Value>)
    ensures var t := After(LOOP_CODE, mem, 29); M.Finished(t) && M.Read(t.mem, 0) == Int(1)
  {
    hide M.Steps;
    var s, mem0 := M.Initial(LOOP_CODE, mem), mem[0 := Int(0)][1 := Int(0)];
    LoopStart(mem);
    var mem1 := LoopRound(mem0, 1, 0, 3, 0);
    var mem2 := LoopRound(mem1, 4, 1, 4, 1);
    LoopExit(mem2, 4, Int(1));
    M.StepsAdd(LOOP_CODE, s, 2, 11);
    M.StepsAdd(LOOP_CODE, s, 13, 11);
    M.StepsAdd(LOOP_CODE, s, 24, 5);
  }

  lemma LoopNamesFound()
    ensures var fs := [INC, COUNT]; FindFunction(fs, "inc") == 0 && FindFunction(fs, "main") == 1
  {
    assert |"main"| != |"inc"| && [INC, COUNT][1..] == [COUNT];
    assert FindFunction([COUNT], "main") == 0;
  }

  lemma InvokesInc(fs: seq<Fun>, i: int, fuel: nat)
    requires fs == [INC, COUNT] && FindFunction(fs, "inc") == 0 && 0 <= i < 2 && fuel > 0
    ensures Invoke(fs, "inc", [Int(i)], [], fuel) == Val(Int(i + 1), [])
  {
    hide LiteralValue, FindFunction;
    Numerals();
    var env := Bind(["a"], [Int(i)]);
    OneParameter("a", Int(i));
    assert Eval(fs, A, env, [], fuel - 1) == Val(Int(i), []);
    assert Eval(fs, Literal(TkInt, "1"), env, [], fuel - 1) == Val(Int(1), []);
    assert Eval(fs, NEXT, env, [], fuel - 1) == Val(Int(i + 1), []);
    hide Eval;
    assert ExecStmt(fs, Return(NEXT), env, [], fuel - 1) == Returned(Int(i + 1), []);
    assert Exec(fs, [Return(NEXT)], env, [], fuel - 1) == Returned(Int(i + 1), []);
  }

  /** The values of `i` and `s` at the head of the loop. */
  function LoopEnv(i: int, s: int): Env {
    map["i" := Int(i), "s" := Int(s)]
  }

  /** The first statement of the body. */
  lemma CallSource(fs: seq<Fun>, i: int, s: int, fuel: nat)
    requires fs == [INC, COUNT] && FindFunction(fs, "inc") == 0 && 0 <= i < 2 && fuel > 0
    ensures ExecStmt(fs, LOOP_BODY[0], LoopEnv(i, s), [], fuel) == Next(LoopEnv(i, i + 1), [])
  {
    hide LiteralValue, FindFunction, Invoke;
    InvokesInc(fs, i, fuel);
    assert "i"[0] != "s"[0];
    var env := LoopEnv(i, s);
    assert Eval(fs, I, env, [], fuel) == Val(Int(i), []);
    assert [I][1..] == [] && EvalAll(fs, [], env, [], fuel) == Vals([], []);
    assert EvalAll(fs, [I], env, [], fuel) == Vals([Int(i)], []) by { assert [Int(i)] + [] == [Int(i)]; }
    assert Eval(fs, CALL_INC, env, [], fuel) == Val(Int(i + 1), []);
    hide Eval, EvalAll;
    assert env["s" := Int(i + 1)] == LoopEnv(i, i + 1);
  }

  /** The second statement of the body. */
  lemma NextSource(fs: seq<Fun>, i: int, s: int, fuel: nat)
    requires 0 <= i < 2
    ensures ExecStmt(fs, LOOP_BODY[1], LoopEnv(i, s), [], fuel) == Next(LoopEnv(i + 1, s), [])
  {
    hide LiteralValue, FindFunction, Invoke;
    Numerals();
    assert "i"[0] != "s"[0];
    var env := LoopEnv(i, s);
    assert Eval(fs, I, env, [], fuel) == Val(Int(i), []) && Eval(fs, Literal(TkInt, "1"), env, [], fuel) == Val(Int(1), []);
    assert Eval(fs, NEXT_I, env, [], fuel) == Val(Int(i + 1), []);
    hide Eval;
    assert env["i" := Int(i + 1)] == LoopEnv(i + 1, s);
  }

  lemma BodySource(fs: seq<Fun>, i: int, s: int, fuel: nat)
    requires fs == [INC, COUNT] && FindFunction(fs, "inc") == 0 && 0 <= i < 2 && fuel > 0
    ensures Exec(fs, LOOP_BODY, LoopEnv(i, s), [], fuel) == Next(LoopEnv(i + 1, i + 1), [])
  {
    hide Exec, ExecStmt, FindFunction, LoopEnv;
    CallSource(fs, i, s, fuel);
    NextSource(fs, i, i + 1, fuel);
    Then(fs, LOOP_BODY[1..], LOOP_BODY[1], [], LoopEnv(i, i + 1), fuel, LoopEnv(i + 1, i + 1));
    Then(fs, LOOP_BODY, LOOP_BODY[0], LOOP_BODY[1..], LoopEnv(i, s), fuel, LoopEnv(i, i + 1));
  }

  lemma BelowSource(fs: seq<Fun>, i: int, s: int, fuel: nat)
    ensures Eval(fs, BELOW, LoopEnv(i, s), [], fuel) == Val(Bool(i < 2), [])
  {
    hide LiteralValue;
    Numerals();
    assert "i"[0] != "s"[0];
    assert Eval(fs, I, LoopEnv(i, s), [], fuel) == Val(Int(i), []);
    assert Eval(fs, Literal(TkInt, "2"), LoopEnv(i, s), [], fuel) == Val(Int(2), []);
  }

  lemma {:induction false} LoopSource(fs: seq<Fun>, i: int, fuel: nat)
    requires fs == [INC, COUNT] && FindFunction(fs, "inc") == 0 && 0 <= i <= 2 && fuel > 2 - i
    ensures ExecStmt(fs, LOOP[0], LoopEnv(i, i), [], fuel) == Next(LoopEnv(2, 2), [])
    decreases 2 - i
  {
    BelowSource(fs, i, i, fuel);
    if i < 2 {
      BodySource(fs, i, i, fuel);
      LoopSource(fs, i + 1, fuel - 1);
    }
    hide Eval, Exec, FindFunction;
  }

  lemma CountSource()
    ensures RunMain(LOOP_PROGRAM, 4) == Val(Int(2), [])
  {
    hide LiteralValue, FindFunction, Functions, Exec, ExecStmt, Eval;
    LoopPrepass();
    LoopNamesFound();
    var fs := [INC, COUNT];
    LoopSource(fs, 0, 3);
    CountExec(fs);
  }

  lemma CountExec(fs: seq<Fun>)
    requires ExecStmt(fs, LOOP[0], LoopEnv(0, 0), [], 3) == Next(LoopEnv(2, 2), [])
    ensures Exec(fs, COUNT.body, map[], [], 3) == Returned(Int(2), [])
  {
    hide LiteralValue, Exec;
    Numerals();
    var zero, env: Env := Literal(TkInt, "0"), map[];
    var env1: Env := map["i" := Int(0)];
    assert env["i" := Int(0)] == env1 && env1["s" := Int(0)] == LoopEnv(0, 0) && "i"[0] != "s"[0];
    assert Eval(fs, zero, env, [], 3) == Eval(fs, zero, env1, [], 3) == Val(Int(0), []);
    assert Eval(fs, Literal(TkIdent, "s"), LoopEnv(2, 2), [], 3) == Val(Int(2), []);
    hide Eval;
    assert ExecStmt(fs, COUNT.body[0], env, [], 3) == Next(env1, []);
    assert ExecStmt(fs, COUNT.body[1], env1, [], 3) == Next(LoopEnv(0, 0), []);
    assert ExecStmt(fs, LOOP[1], LoopEnv(2, 2), [], 3) == Returned(Int(2), []);
    hide ExecStmt;
    Then(fs, COUNT.body, COUNT.body[0], COUNT.body[1..], env, 3, env1);
    Then(fs, COUNT.body[1..], COUNT.body[1], LOOP, env1, 3, LoopEnv(0, 0));
    Then(fs, LOOP, LOOP[0], LOOP[1..], LoopEnv(0, 0), 3, LoopEnv(2, 2));
    Ends(fs, LOOP[1..], LoopEnv(2, 2), 3, Int(2));
  }

  /** A call in a loop with temporaries after it: from the second round on the frame top is not
      the argument's register, the callee works on another one, and its result is lost. */
  lemma LoopCallGoesWrong(mem: map<int, Value>)
    ensures forall fuel: nat | fuel > 3 :: RunMain(LOOP_PROGRAM, fuel) == Val(Int(2), [])
    ensures Compile(map[], LOOP_PROGRAM).Some?
    ensures var t := After(Compile(map[], LOOP_PROGRAM).value, mem, 29); M.Finished(t) && M.Read(t.mem, 0) == Int(1)
  {
    hide Compile, RunMain;
    LoopCompiles();
    LoopRun(mem);
    CountSource();
    forall fuel: nat | fuel > 3 ensures RunMain(LOOP_PROGRAM, fuel) == Val(Int(2), []) {
      More(LOOP_PROGRAM, 4, fuel);
    }
  }
}
