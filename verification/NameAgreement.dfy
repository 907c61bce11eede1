/** The analyzer and the lowering agree on names: a body that the analyzer accepts lowers
    without error, with every name in the one register its definition was given
    (src/semantics/analyzer.cpp:391-434, src/ir/convert_ast.cpp:141-154, 442-472). */
module NameAgreement {
  import opened Values
  import opened Syntax
  import opened Semantics
  import opened ExprLowering
  import opened Fragment
  import opened LoweringFacts
  import opened Compositional
  import opened CompileFacts
  import opened StmtLowering
  import opened CleanLowering
  import opened SimulationBase
  import opened Compiler
  import opened Cfg
  import opened BlockGraph
  import opened CompilerFacts
  import opened Analysis
  import opened JumpSafety
  import S = Simulation
  import Ir

  /** What the parser produces, without calls and strings. */
  predicate Modest(e: Expr) {
    match e
    case Literal(kind, lexeme) => kind == KindOf(lexeme) && kind != TkOther
    case Sequence(items, _) => AllModest(items)
    case Unary(uop, inner) => uop == Negate && Modest(inner)
    case Binary(bop, left, right) => (bop.Arith? || bop == Access) && Modest(left) && Modest(right)
    case Assign(target, value) => Modest(target) && Modest(value)
    case _ => false
  }

  predicate AllModest(es: seq<Expr>) {
    es == [] || (Modest(es[0]) && AllModest(es[1..]))
  }

  /** Statements of such expressions that define no name of a function or native procedure. */
  predicate ModestStmt(sg: Signature, s: Stmt) {
    match s
    case ExprStmt(e) => Modest(e)
    case LocalDef(name, init) => FreshName(sg, name) && Modest(init)
    case If(cond, thn, els) => Modest(cond) && ModestStmts(sg, thn) && (els.Else? ==> ModestStmts(sg, els.body))
    case Return(result) => Modest(result)
    case While(check, body) => Modest(check) && ModestStmts(sg, body)
    case Break => true
  }

  predicate ModestStmts(sg: Signature, ss: seq<Stmt>) {
    ss == [] || (ModestStmt(sg, ss[0]) && ModestStmts(sg, ss[1..]))
  }

  /** The function scope has the names of the local table; the global scope only has names
      that the lowering knows as well. */
  ghost predicate SameNames(sg: Signature, scopes: seq<Scope>, nm: Names) {
    && |scopes| == 2 && scopes[1].Keys == nm.locals.Keys
    && forall x | x in scopes[0] :: x in sg.natives || FindFunction(sg.fs, x) < |sg.fs|
  }

  ghost predicate Agreeing(sg: Signature, scopes: seq<Scope>, nm: Names, pool: Pool, n: int) {
    n >= 0 && NamesOk(sg.fs) && GoodPool(sg.fs, pool) && GoodNames(sg, nm, n) && SameNames(sg, scopes, nm)
  }

  ghost predicate ExprAgreed(sg: Signature, r: Lowered, n: int) {
    CleanExpr(r) && GoodPool(sg.fs, r.pool) && r.next >= n
  }

  lemma AgreeingLater(sg: Signature, scopes: seq<Scope>, nm: Names, pool: Pool, n: int, pool': Pool, n': int)
    requires Agreeing(sg, scopes, nm, pool, n) && GoodPool(sg.fs, pool') && n' >= n
    ensures Agreeing(sg, scopes, nm, pool', n')
  {
    hide GoodPool, NamesOk, SameNames;
    GoodNamesGrow(sg, nm, n, n');
  }

  /** A name that the analyzer finds is found by the lowering; a local one in its register. */
  lemma NameResolves(sg: Signature, scopes: seq<Scope>, nm: Names, pool: Pool, n: int, x: string)
    requires Agreeing(sg, scopes, nm, pool, n) && LookupItem(scopes, x).Some?
    ensures Lookup(nm, pool, x).Some?
    ensures x in scopes[1] ==> x in nm.locals && Lookup(nm, pool, x) == Some(nm.locals[x])
  {
    if x in scopes[1] {
      LookupLocal(sg, nm, pool, n, x);
    } else {
      assert x in scopes[0];
      if x !in sg.natives {
        LookupFunction(sg, nm, pool, x);
      }
    }
  }

  lemma {:induction false} ExprAgrees(sg: Signature, e: Expr, scopes: seq<Scope>, nm: Names, pool: Pool, n: int)
    requires Agreeing(sg, scopes, nm, pool, n) && Modest(e) && CheckExpr(scopes, e).Accepts?
    ensures ExprAgreed(sg, LowerExpr(nm, e, pool, n), n)
    decreases e, 1
  {
    hide Agreeing, ExprAgreed;
    match e
    case Literal(_, _) => LiteralAgrees(sg, e, scopes, nm, pool, n);
    case Sequence(items, _) =>
      ItemsAgree(sg, items, scopes, nm, Ir.TempAt(n), pool, n);
      SequenceAgrees(sg, e, nm, pool, n);
    case Unary(_, inner) =>
      ExprAgrees(sg, inner, scopes, nm, pool, n);
      UnaryAgrees(sg, e, nm, pool, n);
    case Binary(_, _, _) => TwoAgree(sg, e, e.left, e.right, scopes, nm, pool, n);
    case Assign(_, _) => TwoAgree(sg, e, e.target, e.value, scopes, nm, pool, n);
    case _ =>
  }

  lemma LiteralAgrees(sg: Signature, e: Expr, scopes: seq<Scope>, nm: Names, pool: Pool, n: int)
    requires e.Literal? && Agreeing(sg, scopes, nm, pool, n) && Modest(e) && CheckExpr(scopes, e).Accepts?
    ensures ExprAgreed(sg, LowerExpr(nm, e, pool, n), n)
  {
    hide GoodPool, GoodNames, NamesOk, LiteralValue, KindOf;
    if e.kind == TkIdent {
      NameResolves(sg, scopes, nm, pool, n, e.lexeme);
    } else {
      InternGood(sg.fs, pool, e.kind, e.lexeme);
    }
  }

  lemma SequenceAgrees(sg: Signature, e: Expr, nm: Names, pool: Pool, n: int)
    requires e.Sequence? && ExprAgreed(sg, LowerItems(nm, e.items, Ir.TempAt(n), pool, n + 1), n)
    ensures ExprAgreed(sg, LowerExpr(nm, e, pool, n), n)
  {
    hide LowerItems, GoodPool;
    var r := LowerItems(nm, e.items, Ir.TempAt(n), pool, n + 1);
    var made := [Ir.OperUnary(Ir.TempAt(n), Ir.MakeSeq)] + r.steps;
    NoMarkersAppend([Ir.OperUnary(Ir.TempAt(n), Ir.MakeSeq)], r.steps);
    NoMarkersAppend(made, [Ir.OperUnary(Ir.TempAt(n), Ir.FrzSeqObj)]);
  }

  lemma UnaryAgrees(sg: Signature, e: Expr, nm: Names, pool: Pool, n: int)
    requires e.Unary? && e.uop == Negate && ExprAgreed(sg, LowerExpr(nm, e.inner, pool, n), n)
    ensures ExprAgreed(sg, LowerExpr(nm, e, pool, n), n)
  {
    hide GoodPool;
    var r := LowerExpr(nm, e.inner, pool, n);
    NoMarkersAppend(r.steps, [Ir.TacNeg(r.addr.value, r.addr.value)]);
  }

  /** Two operands, one after the other, then one step. */
  lemma {:induction false} TwoAgree(sg: Signature, e: Expr, a: Expr, b: Expr, scopes: seq<Scope>, nm: Names, pool: Pool, n: int)
    requires (e.Binary? && a == e.left && b == e.right) || (e.Assign? && a == e.target && b == e.value)
    requires Agreeing(sg, scopes, nm, pool, n) && Modest(e) && CheckExpr(scopes, e).Accepts?
    ensures ExprAgreed(sg, LowerExpr(nm, e, pool, n), n)
    decreases e, 0
  {
    hide Agreeing, GoodPool, LowerExpr, NoMarkers;
    ExprAgrees(sg, a, scopes, nm, pool, n);
    var l := LowerExpr(nm, a, pool, n);
    AgreeingLater(sg, scopes, nm, pool, n, l.pool, l.next);
    ExprAgrees(sg, b, scopes, nm, l.pool, l.next);
    TwoLowered(sg, e, a, b, nm, pool, n);
  }

  lemma TwoLowered(sg: Signature, e: Expr, a: Expr, b: Expr, nm: Names, pool: Pool, n: int)
    requires (e.Binary? && a == e.left && b == e.right && (e.bop.Arith? || e.bop == Access))
             || (e.Assign? && a == e.target && b == e.value)
    requires var l := LowerExpr(nm, a, pool, n);
             ExprAgreed(sg, l, n) && ExprAgreed(sg, LowerExpr(nm, b, l.pool, l.next), l.next)
    ensures ExprAgreed(sg, LowerExpr(nm, e, pool, n), n)
  {
    hide GoodPool, NoMarkers;
    var l := LowerExpr(nm, a, pool, n);
    var r := LowerExpr(nm, b, l.pool, l.next);
    NoMarkersAppend(l.steps, r.steps);
    var all := LowerExpr(nm, e, pool, n).steps;
    var last := all[|all| - 1];
    assert all == l.steps + r.steps + [last];
    NoMarkersAppend(l.steps + r.steps, [last]);
    OneStep(last);
  }

  lemma OneStep(step: Ir.Step)
    ensures NoMarkers([step]) <==> !step.OperNonary?
  {
    assert [step][1..] == [];
  }

  lemma {:induction false} ItemsAgree(sg: Signature, items: seq<Expr>, scopes: seq<Scope>, nm: Names, dest: Ir.Addr, pool: Pool, n: int)
    requires Agreeing(sg, scopes, nm, pool, n) && AllModest(items) && CheckItems(scopes, items).Accepts?
    ensures ExprAgreed(sg, LowerItems(nm, items, dest, pool, n + 1), n)
    decreases items
  {
    hide GoodNames, NamesOk, SameNames, LowerExpr, CheckExpr, Modest, GoodPool;
    if items != [] {
      AgreeingLater(sg, scopes, nm, pool, n, pool, n + 1);
      ExprAgrees(sg, items[0], scopes, nm, pool, n + 1);
      var h := LowerExpr(nm, items[0], pool, n + 1);
      AgreeingLater(sg, scopes, nm, pool, n, h.pool, h.next - 1);
      ItemsAgree(sg, items[1..], scopes, nm, dest, h.pool, h.next - 1);
      NextItemAgrees(sg, items, nm, dest, pool, n);
    }
  }

  lemma NextItemAgrees(sg: Signature, items: seq<Expr>, nm: Names, dest: Ir.Addr, pool: Pool, n: int)
    requires items != [] && ExprAgreed(sg, LowerExpr(nm, items[0], pool, n + 1), n + 1)
    requires var h := LowerExpr(nm, items[0], pool, n + 1);
             ExprAgreed(sg, LowerItems(nm, items[1..], dest, h.pool, h.next), h.next - 1)
    ensures ExprAgreed(sg, LowerItems(nm, items, dest, pool, n + 1), n)
  {
    hide LowerExpr, GoodPool;
    var h := LowerExpr(nm, items[0], pool, n + 1);
    var t := LowerItems(nm, items[1..], dest, h.pool, h.next);
    var push := [Ir.OperTernary(dest, h.addr.value, Ir.Imm(1), Ir.SeqObjPush)];
    NoMarkersAppend(h.steps, push);
    NoMarkersAppend(h.steps + push, t.steps);
  }

  // ---------------------------------------------------------------- statements

  /** The statement lowers without error, and afterwards both tables agree again; no local
      has moved. */
  ghost predicate StmtAgreed(sg: Signature, after: seq<Scope>, c: Compiled, nm: Names) {
    Agreeing(sg, after, c.nm, c.pool, c.next) && Keeps(c.nm, nm)
  }

  lemma {:induction false} StmtAgrees(sg: Signature, s: Stmt, scopes: seq<Scope>, nm: Names, pool: Pool, n: int, inLoop: bool)
    requires Agreeing(sg, scopes, nm, pool, n) && ModestStmt(sg, s) && BreaksInside(s, inLoop) && CheckStmt(scopes, s).Accepts?
    ensures CleanStmt(s, nm, pool, n, inLoop)
    ensures StmtAgreed(sg, CheckStmt(scopes, s).value, CompileStmt(s, nm, pool, n, 0, 0), nm)
    decreases s, 1
  {
    match s
    case If(_, _, _) => IfAgrees(sg, s, scopes, nm, pool, n, inLoop);
    case While(_, _) => WhileAgrees(sg, s, scopes, nm, pool, n, inLoop);
    case LocalDef(_, _) => DefAgrees(sg, s, scopes, nm, pool, n, inLoop);
    case _ => SimpleAgrees(sg, s, scopes, nm, pool, n, inLoop);
  }

  lemma SimpleAgrees(sg: Signature, s: Stmt, scopes: seq<Scope>, nm: Names, pool: Pool, n: int, inLoop: bool)
    requires s.ExprStmt? || s.Return? || s.Break?
    requires Agreeing(sg, scopes, nm, pool, n) && ModestStmt(sg, s) && BreaksInside(s, inLoop) && CheckStmt(scopes, s).Accepts?
    ensures CleanStmt(s, nm, pool, n, inLoop)
    ensures StmtAgreed(sg, CheckStmt(scopes, s).value, CompileStmt(s, nm, pool, n, 0, 0), nm)
  {
    hide Agreeing, LowerExpr, CheckExpr, Modest, TranslateAll, CleanExpr, GoodPool, Keeps;
    S.KeepsRefl(nm);
    if !s.Break? {
      var e := if s.ExprStmt? then s.expr else s.result;
      ExprAgrees(sg, e, scopes, nm, pool, n);
      var r := LowerExpr(nm, e, pool, n);
      AgreeingLater(sg, scopes, nm, pool, n, r.pool, r.next);
    }
  }

  lemma DefAgrees(sg: Signature, s: Stmt, scopes: seq<Scope>, nm: Names, pool: Pool, n: int, inLoop: bool)
    requires s.LocalDef? && Agreeing(sg, scopes, nm, pool, n) && ModestStmt(sg, s) && CheckStmt(scopes, s).Accepts?
    ensures CleanStmt(s, nm, pool, n, inLoop)
    ensures StmtAgreed(sg, CheckStmt(scopes, s).value, CompileStmt(s, nm, pool, n, 0, 0), nm)
  {
    hide LowerExpr, CheckExpr, Modest, TranslateAll, CleanExpr, GoodPool, NamesOk, FreshName, GoodNames;
    ExprAgrees(sg, s.init, scopes, nm, pool, n);
    var r := LowerExpr(nm, s.init, pool, n);
    assert s.name !in scopes[1];
    DefineLocal(sg, nm, n, r.next, s.name);
  }

  lemma {:induction false} IfAgrees(sg: Signature, s: Stmt, scopes: seq<Scope>, nm: Names, pool: Pool, n: int, inLoop: bool)
    requires s.If? && Agreeing(sg, scopes, nm, pool, n) && ModestStmt(sg, s) && BreaksInside(s, inLoop) && CheckStmt(scopes, s).Accepts?
    ensures CleanStmt(s, nm, pool, n, inLoop)
    ensures StmtAgreed(sg, CheckStmt(scopes, s).value, CompileStmt(s, nm, pool, n, 0, 0), nm)
    decreases s, 0
  {
    hide Agreeing, LowerExpr, CheckExpr, Modest, TranslateAll, CleanExpr, GoodPool, Keeps, CompileStmt;
    ExprAgrees(sg, s.cond, scopes, nm, pool, n);
    var r := LowerExpr(nm, s.cond, pool, n);
    AgreeingLater(sg, scopes, nm, pool, n, r.pool, r.next);
    StmtsAgree(sg, s.thn, scopes, nm, r.pool, r.next, inLoop);
    var t := CompileStmts(s.thn, nm, r.pool, r.next, 0, 0);
    if s.els.Else? {
      var after := CheckStmts(scopes, s.thn).value;
      StmtsAgree(sg, s.els.body, after, t.nm, t.pool, t.next, inLoop);
      KeepsTrans(CompileStmts(s.els.body, t.nm, t.pool, t.next, 0, 0).nm, t.nm, nm);
      ElseShape(s, nm, pool, n);
    } else {
      IfShape(s, nm, pool, n);
    }
  }

  lemma KeepsTrans(a: Names, b: Names, c: Names)
    requires Keeps(a, b) && Keeps(b, c)
    ensures Keeps(a, c)
  {
  }

  lemma {:induction false} WhileAgrees(sg: Signature, s: Stmt, scopes: seq<Scope>, nm: Names, pool: Pool, n: int, inLoop: bool)
    requires s.While? && Agreeing(sg, scopes, nm, pool, n) && ModestStmt(sg, s) && BreaksInside(s, inLoop) && CheckStmt(scopes, s).Accepts?
    ensures CleanStmt(s, nm, pool, n, inLoop)
    ensures StmtAgreed(sg, CheckStmt(scopes, s).value, CompileStmt(s, nm, pool, n, 0, 0), nm)
    decreases s, 0
  {
    hide Agreeing, LowerExpr, CheckExpr, Modest, TranslateAll, CleanExpr, GoodPool, Keeps, CompileStmt;
    ExprAgrees(sg, s.check, scopes, nm, pool, n);
    var r := LowerExpr(nm, s.check, pool, n);
    AgreeingLater(sg, scopes, nm, pool, n, r.pool, r.next);
    StmtsAgree(sg, s.body, scopes, nm, r.pool, r.next, true);
    WhileShape(s, nm, pool, n);
  }

  lemma {:induction false} StmtsAgree(sg: Signature, ss: seq<Stmt>, scopes: seq<Scope>, nm: Names, pool: Pool, n: int, inLoop: bool)
    requires Agreeing(sg, scopes, nm, pool, n) && ModestStmts(sg, ss) && AllBreaksInside(ss, inLoop) && CheckStmts(scopes, ss).Accepts?
    ensures CleanStmts(ss, nm, pool, n, inLoop)
    ensures StmtAgreed(sg, CheckStmts(scopes, ss).value, CompileStmts(ss, nm, pool, n, 0, 0), nm)
    decreases ss, 2
  {
    hide Agreeing, CheckStmt, ModestStmt, BreaksInside, CompileStmt, CleanStmt, Keeps;
    if ss == [] {
      S.KeepsRefl(nm);
    } else {
      StmtAgrees(sg, ss[0], scopes, nm, pool, n, inLoop);
      var h := CompileStmt(ss[0], nm, pool, n, 0, 0);
      StmtsAgree(sg, ss[1..], CheckStmt(scopes, ss[0]).value, h.nm, h.pool, h.next, inLoop);
      StmtsShape(ss[1..], h.nm, h.pool, h.next, 0, 0, |h.code|, 0);
      KeepsTrans(CompileStmts(ss[1..], h.nm, h.pool, h.next, 0, 0).nm, h.nm, nm);
    }
  }

  // ---------------------------------------------------------------- functions

  /** Recording parameters succeeds exactly for distinct names. */
  lemma {:induction false} RecordAllExactly(scopes: seq<Scope>, params: seq<string>)
    requires |scopes| == 2
    ensures var r := RecordAll(scopes, params);
            && (r.Some? <==> Distinct(params) && forall i | 0 <= i < |params| :: params[i] !in scopes[1])
            && (r.Some? ==> |r.value| == 2 && r.value[0] == scopes[0] && r.value[1].Keys == scopes[1].Keys + ParamNames(params))
    decreases params
  {
    if params != [] {
      if params[0] !in scopes[1] {
        var more := RecordItem(scopes, params[0], Parameter()).value;
        RecordAllExactly(more, params[1..]);
        assert ParamNames(params) == {params[0]} + ParamNames(params[1..]);
        DistinctTail(params);
        assert forall i | 0 <= i < |params[1..]| :: params[1..][i] == params[i + 1];
      }
    }
  }

  lemma DistinctTail(params: seq<string>)
    requires params != []
    ensures Distinct(params) <==> Distinct(params[1..]) && forall i | 1 <= i < |params| :: params[i] != params[0]
  {
    var rest := params[1..];
    assert forall i | 0 <= i < |rest| :: rest[i] == params[i + 1];
    assert forall i | 1 <= i < |params| :: params[i] == rest[i - 1];
  }

  /** Neither pass asks where a `break` stands. */
  lemma {:induction false} BreaksAnywhere(ss: seq<Stmt>)
    ensures AllBreaksInside(ss, true)
  {
    if ss != [] {
      BreaksAnywhere(ss[1..]);
      match ss[0]
      case If(_, thn, els) =>
        BreaksAnywhere(thn);
        if els.Else? {
          BreaksAnywhere(els.body);
        }
      case While(_, body) => BreaksAnywhere(body);
      case _ =>
    }
  }

  /** A function that the analyzer accepts is lowered without error, whatever the constants
      interned before it: every name is found, no definition is rejected, every link has its
      blocks. */
  lemma AcceptedLowers(sg: Signature, natives: map<string, int>, global: Scope, f: Fun, u: Unit)
    requires natives.Keys == sg.natives && NamesOk(sg.fs) && GoodPool(sg.fs, u.pool)
    requires forall x | x in global :: x in sg.natives || FindFunction(sg.fs, x) < |sg.fs|
    requires (forall i | 0 <= i < |f.params| :: FreshName(sg, f.params[i])) && ModestStmts(sg, f.body)
    requires CheckFunction(global, f).Accepts?
    ensures LowerFunction(natives, f, u).Some? && LowerFunction(natives, f, u).value.errors == u.errors
    ensures GoodPool(sg.fs, LowerFunction(natives, f, u).value.pool)
  {
    hide NamesOk, GoodPool, ModestStmts, AllBreaksInside, CheckStmts, LowerStmts, CompileStmts, CleanStmts, ApplyLinks, RecordAll,
         RecordParams, ParamLocals, LinksIn, BlocksIn, FreshName, GoodNames, Distinct, ParamNames;
    var scopes: seq<Scope> := [global, map[]];
    RecordAllExactly(scopes, f.params);
    RecordExactly(f.params);
    var nm := BodyNames(natives, f);
    S.ParamFacts(f.params);
    S.ParamsGood(sg, nm, f.params);
    var ready := RecordAll(scopes, f.params).value;
    BreaksAnywhere(f.body);
    StmtsAgree(sg, f.body, ready, nm, u.pool, |f.params|, true);
    LowerStmtsClean(f.body, nm, u.pool, |f.params|, 0, true);
    LinksApplied(f.body, LowerStmts(f.body, nm, u.pool, |f.params|, 0).blocks);
  }

  // ---------------------------------------------------------------- programs

  /** Functions in the forms the agreement speaks of, and native stubs that are registered. */
  predicate ModestDecl(sg: Signature, d: Decl) {
    match d
    case Function(f) =>
      && IsIdent(f.name) && (forall i | 0 <= i < |f.params| :: FreshName(sg, f.params[i]))
      && ModestStmts(sg, f.body)
    case NativeStub(name, _) => name in sg.natives
    case Import => true
  }

  predicate ModestProgram(p: Program, natives: set<string>) {
    forall i | 0 <= i < |p| :: ModestDecl(Signature(Functions(p), natives), p[i])
  }

  /** The global scope after the functions `done`. */
  ghost predicate Known(global: Scope, done: seq<Fun>, natives: set<string>) {
    && DistinctFunctions(done) && (forall i | 0 <= i < |done| :: done[i].name in global)
    && forall x | x in global :: x in natives || FindFunction(done, x) < |done|
  }

  lemma KnownMore(global: Scope, done: seq<Fun>, natives: set<string>, f: Fun, item: Item)
    requires Known(global, done, natives) && f.name !in global
    ensures Known(global[f.name := item], done + [f], natives)
  {
    forall x | x in global[f.name := item] ensures x in natives || FindFunction(done + [f], x) < |done + [f]| {
      FindAppend(done, f, x);
    }
  }

  lemma {:induction false} DeclaredKnown(global: Scope, p: Program, done: seq<Fun>, natives: set<string>)
    requires Known(global, done, natives) && DeclareAll(global, p).Some?
    requires forall i | 0 <= i < |p| :: p[i].NativeStub? ==> p[i].name in natives
    ensures Known(DeclareAll(global, p).value, done + Functions(p), natives)
    decreases p
  {
    if p == [] {
      assert done + [] == done;
    } else {
      assert forall i | 0 <= i < |p[1..]| :: p[1..][i] == p[i + 1];
      match p[0]
      case Function(f) =>
        hide Known;
        KnownMore(global, done, natives, f, Declared(|f.params|));
        DeclaredKnown(global[f.name := Declared(|f.params|)], p[1..], done + [f], natives);
        assert done + [f] + Functions(p[1..]) == done + ([f] + Functions(p[1..]));
      case NativeStub(name, params) =>
        DeclaredKnown(global[name := Declared(|params|)], p[1..], done, natives);
        assert [] + Functions(p[1..]) == Functions(p[1..]);
      case Import =>
        DeclaredKnown(global, p[1..], done, natives);
        assert [] + Functions(p[1..]) == Functions(p[1..]);
    }
  }

  lemma {:induction false} BodiesLower(sg: Signature, natives: map<string, int>, global: Scope, p: Program, u: Unit)
    requires natives.Keys == sg.natives && NamesOk(sg.fs) && GoodPool(sg.fs, u.pool)
    requires forall x | x in global :: x in sg.natives || FindFunction(sg.fs, x) < |sg.fs|
    requires (forall i | 0 <= i < |p| :: ModestDecl(sg, p[i])) && CheckBodies(global, p).Accepts?
    ensures LowerDecls(natives, p, u).Some? && LowerDecls(natives, p, u).value.errors == u.errors
    decreases p
  {
    hide NamesOk, GoodPool, ModestStmts, LowerFunction, CheckFunction, FreshName, IsIdent;
    if p != [] {
      assert forall i | 0 <= i < |p[1..]| :: p[1..][i] == p[i + 1];
      if p[0].Function? {
        assert ModestDecl(sg, p[0]);
        AcceptedLowers(sg, natives, global, p[0].fun, u);
        BodiesLower(sg, natives, global, p[1..], LowerFunction(natives, p[0].fun, u).value);
      } else {
        BodiesLower(sg, natives, global, p[1..], u);
      }
    }
  }

  lemma {:induction false} NamesAreIdents(p: Program)
    requires forall i | 0 <= i < |p| :: p[i].Function? ==> IsIdent(p[i].fun.name)
    ensures forall i | 0 <= i < |Functions(p)| :: IsIdent(Functions(p)[i].name)
    decreases p
  {
    hide IsIdent;
    if p != [] {
      assert forall i | 0 <= i < |p[1..]| :: p[1..][i] == p[i + 1];
      NamesAreIdents(p[1..]);
    }
  }

  /** A whole program that the analyzer accepts is lowered. */
  lemma AcceptedProgramLowers(p: Program, natives: map<string, int>)
    requires ModestProgram(p, natives.Keys) && CheckProgram(p).Accepts?
    ensures LowerProgram(natives, p).Some?
  {
    hide CheckBodies, LowerDecls, CollectFunctions, DeclareAll, Functions, GoodPool, ModestStmts, FreshName, IsIdent,
         Collected;
    var fs, global := Functions(p), DeclareAll(map[], p).value;
    var sg := Signature(fs, natives.Keys);
    assert forall i | 0 <= i < |p| :: ModestDecl(sg, p[i]);
    assert [] + fs == fs;
    DeclaredKnown(map[], p, [], natives.Keys);
    NamesAreIdents(p);
    assert Collected([], Prepass(map[], 0, -1)) by { NothingCollected(); }
    CollectExactly(p, [], Prepass(map[], 0, -1));
    var pre := CollectFunctions(p, Prepass(map[], 0, -1)).value;
    PrepassPool(fs, pre);
    BodiesLower(sg, natives, global, p, Unit([], Pool(pre.globals, []), 0));
  }

  lemma NothingCollected()
    ensures Collected([], Prepass(map[], 0, -1))
  {
  }

  // ---------------------------------------------------------------- where they disagree

  /** The analyzer finds a local in the function's scope whatever it is called; the lowering
      finds its own register if and only if no native procedure and no function has its name. */
  lemma ShadowingExactly(sg: Signature, scopes: seq<Scope>, nm: Names, pool: Pool, x: string)
    requires GoodPool(sg.fs, pool) && nm.natives.Keys == sg.natives && |scopes| == 2
    requires IsIdent(x) && x in scopes[1] && x in nm.locals && nm.locals[x].tag == Ir.Temp
    ensures LookupItem(scopes, x) == Some(scopes[1][x])
    ensures Lookup(nm, pool, x) == Some(nm.locals[x]) <==> x !in sg.natives && FindFunction(sg.fs, x) == |sg.fs|
  {
    var k := FindFunction(sg.fs, x);
    assert k < |sg.fs| ==> sg.fs[k].name in pool.globals && pool.globals[x] == Ir.Imm(k);
    assert x in pool.globals ==> GoodEntry(sg.fs, pool, x);
  }

  /** The arguments of a call are not looked at: a call with an undeclared argument passes the
      analyzer and fails in the lowering, without an error being counted. */
  lemma ArgumentsUnchecked(global: Scope, nm: Names, pool: Pool, n: int, f: string, x: string)
    requires f in global && global[f] == Declared(1) && Lookup(nm, pool, f).Some? && Lookup(nm, pool, x).None?
    ensures var call := Call(Literal(TkIdent, f), [Literal(TkIdent, x)]);
            && CheckExpr([global, map[]], call).Accepts?
            && LowerExpr(nm, call, pool, n).addr.None? && LowerExpr(nm, call, pool, n).errors == 0
  {
    var scopes: seq<Scope> := [global, map[]];
    assert scopes[..1] == [global];
    var callee, arg := Literal(TkIdent, f), Literal(TkIdent, x);
    assert LookupItem(scopes, f) == LookupItem([global], f) == Some(global[f]);
    assert CheckExpr(scopes, callee) == Accepts(Declared(1));
    assert LowerExpr(nm, arg, pool, n) == Lowered([], None, pool, n, 0);
    assert LowerArgs(nm, [arg], pool, n) == LowerExpr(nm, arg, pool, n);
    assert LowerExpr(nm, callee, pool, n) == Lowered([], Lookup(nm, pool, f), pool, n, 0);
    CallOfOne(scopes, nm, pool, n, callee, arg);
  }

  lemma CallOfOne(scopes: seq<Scope>, nm: Names, pool: Pool, n: int, callee: Expr, arg: Expr)
    requires CheckExpr(scopes, callee) == Accepts(Declared(1))
    requires LowerExpr(nm, callee, pool, n).addr.Some? && LowerExpr(nm, callee, pool, n).errors == 0
    requires var c := LowerExpr(nm, callee, pool, n);
             LowerArgs(nm, [arg], c.pool, c.next).addr.None? && LowerArgs(nm, [arg], c.pool, c.next).errors == 0
    ensures CheckExpr(scopes, Call(callee, [arg])).Accepts?
    ensures var r := LowerExpr(nm, Call(callee, [arg]), pool, n); r.addr.None? && r.errors == 0
  {
    hide LowerArgs;
  }
}
