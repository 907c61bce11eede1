/** Blocks open no scope: a name defined in one branch is used after the `if`, where the other
    branch has returned. */
module BranchDefinition {
  import opened Values
  import opened Syntax
  import opened Semantics
  import opened Fragment
  import opened DefiniteAssignment
  import opened ExprLowering
  import opened Compiler
  import opened Correctness
  import opened LostBlocks
  import M = Machine

  const ONE := Literal(TkInt, "1")
  const ZERO := Literal(TkInt, "0")
  const R := Literal(TkIdent, "r")
  /** `main` with `if 1 > 0 { def r = 1 } else { return 0 } return r`. */
  const CHOICE := If(Binary(Operator.Arith(Gt), ONE, ZERO), [LocalDef("r", ONE)], Else([Return(ZERO)]))
  const BRANCHES := Fun("main", [], [CHOICE, Return(R)])

  const PROGRAM: Program := [Function(BRANCHES)]

  lemma Kinds()
    ensures KindOf("1") == TkInt && KindOf("0") == TkInt && KindOf("r") == TkIdent && KindOf("main") == TkIdent
  {
    assert |"1"| == 1 && |"0"| == 1 && |"r"| == 1 && |"main"| == 4 && |"true"| == 4 && |"false"| == 5;
    assert "main"[0] != "true"[0];
    assert Count("1"[1..], '-') == 0 && Count("0"[1..], '-') == 0 && Count("1"[1..], '.') == 0 && Count("0"[1..], '.') == 0;
    assert "r" !in KEYWORDS && "main" !in KEYWORDS by {
      assert "match"[2] == 't' && "main"[2] == 'i' && "r"[0] != "_"[0];
    }
  }

  lemma Empty(sg: Signature, scope: set<string>, n: nat)
    ensures OkStmts(sg, [], scope, n, 1, false) && ElsesFlat([]) && Straight([]) && AllAssigned([], scope)
  {
  }

  lemma BranchesFit(natives: set<string>)
    requires "r" !in natives
    ensures WellFormed(PROGRAM, natives) && DefinitelyAssigned(PROGRAM)
  {
    Kinds();
    var sg := Signature([BRANCHES], natives);
    assert Functions(PROGRAM) == [BRANCHES];
    BranchesOk(sg);
    assert "r"[0] != "main"[0];
    hide KindOf, OkStmts, AllAssigned, NothingLost;
    assert FindFunction([BRANCHES], "main") == 0;
    assert ParamNames([]) == {};
  }

  lemma BranchesOk(sg: Signature)
    requires sg.fs == [BRANCHES] && "r" !in sg.natives
    ensures OkStmts(sg, BRANCHES.body, {}, 0, 1, false) && NothingLost(BRANCHES.body, true) && AllAssigned(BRANCHES.body, {})
  {
    Kinds();
    hide KindOf;
    assert |"main"| != |"r"| && FindFunction(sg.fs, "r") == 1;
    Empty(sg, {"r"}, 2);
    Empty(sg, {}, 1);
    assert CHOICE.thn[1..] == [] && CHOICE.els.body[1..] == [] && BRANCHES.body[1..] == [Return(R)] && [Return(R)][1..] == [];
    assert DefinedIn([]) == {} && DefinedIn(CHOICE.thn) == {"r"} && BlockTemps([]) == 0 && BlockTemps(CHOICE.thn) == 1;
    assert OkStmts(sg, CHOICE.thn, {}, 1, 1, false);
    assert OkStmts(sg, CHOICE.els.body, {"r"}, 2, 1, false);
    assert OkExpr(sg, ONE, {}, 0, 1) && OkExpr(sg, ZERO, {}, 0, 1) && Temps(ONE) == 0 && Temps(CHOICE.cond) == 1;
    assert OkExpr(sg, CHOICE.cond, {}, 0, 1) && {} + DefinedIn(CHOICE.thn) == {"r"};
    assert OkStmt(sg, CHOICE, {}, 0, 1, false);
    assert OkStmts(sg, [Return(R)], {"r"}, 2, 1, false);
    assert BlockTemps(CHOICE.els.body) == 0 && StmtTemps(CHOICE) == 2 && DefinedBy(CHOICE) == {"r"};
    assert OkStmts(sg, BRANCHES.body, {}, 0, 1, false);
    BranchesFlow();
    hide *;
    FlatLosesNothing(BRANCHES.body, true);
  }

  /** A list of one statement. */
  lemma Alone(s: Stmt, have: set<string>)
    ensures FlowIn([s], have) == FlowOf(s, have) && (AllAssigned([s], have) <==> Assigned(s, have))
    ensures ElsesFlat([s]) <==> ElseFlat(s)
  {
    assert [s][1..] == [];
    hide FlowOf, Assigned, ElseFlat;
  }

  lemma BranchesFlow()
    ensures ElsesFlat(BRANCHES.body) && AllAssigned(BRANCHES.body, {})
  {
    Alone(LocalDef("r", ONE), {});
    Alone(Return(ZERO), {});
    Alone(Return(R), {"r"});
    assert Straight([Return(ZERO)]) by { assert [Return(ZERO)][1..] == []; }
    hide ElsesFlat, AllAssigned, FlowIn;
    assert ReadsOnly(ONE, {}) && ReadsOnly(ZERO, {}) && ReadsOnly(CHOICE.cond, {});
    assert FlowOf(LocalDef("r", ONE), {}) == Falls({"r"}) && FlowOf(CHOICE, {}) == Falls({"r"});
    Both(CHOICE, Return(R), {}, {"r"});
  }

  lemma Both(s: Stmt, s': Stmt, have: set<string>, more: set<string>)
    requires FlowOf(s, have) == Falls(more) && Assigned(s, have) && AllAssigned([s'], more) && ElseFlat(s) && ElsesFlat([s'])
    ensures AllAssigned([s, s'], have) && ElsesFlat([s, s'])
  {
    hide FlowOf, Assigned, ElseFlat;
    assert [s, s'][1..] == [s'];
  }

  lemma BranchesRun(p: Program)
    requires p == PROGRAM
    ensures RunMain(p, 1) == Val(Int(1), [])
  {
    var fs, env: Env := [BRANCHES], map[];
    assert Functions(p) == fs;
    assert LiteralValue(TkInt, "1") == Int(1) && LiteralValue(TkInt, "0") == Int(0);
    hide LiteralValue;
    assert Eval(fs, ONE, env, [], 0) == Val(Int(1), []) && Eval(fs, ZERO, env, [], 0) == Val(Int(0), []);
    assert Eval(fs, CHOICE.cond, env, [], 0) == Val(Bool(true), []);
    hide Eval;
    assert ExecStmt(fs, CHOICE.thn[0], env, [], 0) == Next(env["r" := Int(1)], []);
    assert CHOICE.thn[1..] == [] && Exec(fs, CHOICE.thn, env, [], 0) == Next(env["r" := Int(1)], []);
    assert ExecStmt(fs, CHOICE, env, [], 0) == Next(env["r" := Int(1)], []);
    assert BRANCHES.body[1..] == [Return(R)];
    BranchesEnd(fs, env["r" := Int(1)]);
  }

  lemma BranchesEnd(fs: seq<Fun>, env: Env)
    requires env == map["r" := Int(1)]
    ensures Exec(fs, [Return(R)], env, [], 0) == Returned(Int(1), [])
  {
    assert Eval(fs, R, env, [], 0) == Val(Int(1), []);
    hide Eval;
    assert ExecStmt(fs, Return(R), env, [], 0) == Returned(Int(1), []);
  }

  /** The program is in the fragment, its name is definitely assigned, and the machine returns
      what the source does. */
  lemma UsedAfterBranch(natives: map<string, int>, mem: map<int, Value>)
    requires "r" !in natives
    ensures WellFormed(PROGRAM, natives.Keys) && DefinitelyAssigned(PROGRAM) && RunMain(PROGRAM, 1) == Val(Int(1), [])
    ensures Compile(natives, PROGRAM).Some?
    ensures exists k: nat ::
              var t := After(Compile(natives, PROGRAM).value, mem, k); M.Finished(t) && M.Read(t.mem, 0) == Int(1)
  {
    BranchesFit(natives.Keys);
    BranchesRun(PROGRAM);
    hide WellFormed, DefinitelyAssigned, Compile, RunMain, After;
    ReturnsExactly(PROGRAM, natives, mem, Int(1), []);
  }
}
