/** Programs in which every name that is read has been given a value on every path before it:
    their evaluation is never stuck. */
module DefiniteAssignment {
  import opened Values
  import opened Syntax
  import opened Semantics
  import opened Fragment

  /** The names that certainly have values after a statement, if control can go on after it. */
  datatype Flow = Falls(names: set<string>) | Leaves

  /** Where two branches meet: one that leaves does not restrict the other. */
  function Meet(a: Flow, b: Flow): Flow {
    match (a, b)
    case (Falls(x), Falls(y)) => Falls(x * y)
    case (Leaves, _) => b
    case (_, Leaves) => a
  }

  predicate ReadsOnly(e: Expr, have: set<string>) {
    match e
    case Literal(kind, lexeme) => kind == TkIdent ==> lexeme in have
    case Sequence(items, _) => AllReadOnly(items, have)
    case Call(_, args) => AllReadOnly(args, have)
    case Binary(_, left, right) => ReadsOnly(left, have) && ReadsOnly(right, have)
    case Unary(_, inner) => ReadsOnly(inner, have)
    case Assign(_, value) => ReadsOnly(value, have)
    case Lambda => true
  }

  predicate AllReadOnly(es: seq<Expr>, have: set<string>) {
    es == [] || (ReadsOnly(es[0], have) && AllReadOnly(es[1..], have))
  }

  function FlowOf(s: Stmt, have: set<string>): Flow {
    match s
    case ExprStmt(e) => Falls(if e.Assign? && e.target.Literal? then have + {e.target.lexeme} else have)
    case LocalDef(name, _) => Falls(have + {name})
    case If(_, thn, els) => Meet(FlowIn(thn, have), if els.NoElse? then Falls(have) else FlowIn(els.body, have))
    case While(_, _) => Falls(have)
    case Return(_) => Leaves
    case Break => Leaves
  }

  function FlowIn(ss: seq<Stmt>, have: set<string>): Flow {
    if ss == [] then Falls(have)
    else
      match FlowOf(ss[0], have)
      case Leaves => Leaves
      case Falls(names) => FlowIn(ss[1..], names)
  }

  predicate Assigned(s: Stmt, have: set<string>) {
    match s
    case ExprStmt(e) => ReadsOnly(e, have)
    case LocalDef(_, init) => ReadsOnly(init, have)
    case If(cond, thn, els) =>
      ReadsOnly(cond, have) && AllAssigned(thn, have) && (els.Else? ==> AllAssigned(els.body, have))
    case Return(result) => ReadsOnly(result, have)
    case While(check, body) => ReadsOnly(check, have) && AllAssigned(body, have)
    case Break => true
  }

  predicate AllAssigned(ss: seq<Stmt>, have: set<string>) {
    ss == [] ||
    (&& Assigned(ss[0], have)
     && match FlowOf(ss[0], have)
        case Leaves => true
        case Falls(names) => AllAssigned(ss[1..], names))
  }

  predicate DefinitelyAssigned(p: Program) {
    forall i | 0 <= i < |Functions(p)| :: AllAssigned(Functions(p)[i].body, ParamNames(Functions(p)[i].params))
  }

  ghost predicate AllFine(sg: Signature) {
    forall i | 0 <= i < |sg.fs| :: OkFunction(sg, sg.fs[i]) && AllAssigned(sg.fs[i].body, ParamNames(sg.fs[i].params))
  }

  /** Not stuck; names only gain values, and where control goes on the promised ones have them. */
  ghost predicate Fine(r: ExecResult, env: Env, flow: Flow, inLoop: bool) {
    match r
    case Next(env', _) => env.Keys <= env'.Keys && flow.Falls? && flow.names <= env'.Keys
    case Broke(env', _) => inLoop && env.Keys <= env'.Keys
    case Returned(_, _) => true
    case Halts(why) => why != Stuck
  }

  lemma {:induction false} EvalFine(
    sg: Signature, e: Expr, scope: set<string>, have: set<string>, env: Env, heap: Heap, n: nat, lim: nat, fuel: nat)
    requires AllFine(sg) && OkExpr(sg, e, scope, n, lim) && ReadsOnly(e, have) && have <= env.Keys
    ensures Eval(sg.fs, e, env, heap, fuel) != Stops(Stuck)
    decreases fuel, 1, e
  {
    hide AllFine;
    match e
    case Literal(_, _) =>
    case Sequence(items, _) => ItemsFine(sg, items, scope, have, env, |heap|, heap + [SeqObj([], false)], n + 1, lim, fuel);
    case Call(callee, args) =>
      AllEvalFine(sg, args, scope, have, env, heap, n, lim, fuel);
      var r := EvalAll(sg.fs, args, env, heap, fuel);
      if r.Vals? {
        InvokeFine(sg, callee.lexeme, r.vs, r.heaps, fuel);
      }
    case Binary(_, left, right) =>
      EvalFine(sg, left, scope, have, env, heap, n, lim, fuel);
      var r := Eval(sg.fs, left, env, heap, fuel);
      if r.Val? {
        EvalFine(sg, right, scope, have, env, r.heap, n + Temps(left), lim, fuel);
      }
    case _ =>
  }

  lemma {:induction false} ItemsFine(
    sg: Signature, items: seq<Expr>, scope: set<string>, have: set<string>, env: Env, id: nat, heap: Heap, n: nat, lim: nat, fuel: nat)
    requires AllFine(sg) && OkItems(sg, items, scope, n, lim) && AllReadOnly(items, have) && have <= env.Keys
    ensures EvalItems(sg.fs, items, id, env, heap, fuel) != Stops(Stuck)
    decreases fuel, 1, items
  {
    hide AllFine, OkExpr, ReadsOnly;
    if items != [] {
      EvalFine(sg, items[0], scope, have, env, heap, n, lim, fuel);
      var r := Eval(sg.fs, items[0], env, heap, fuel);
      if r.Val? {
        ItemsFine(sg, items[1..], scope, have, env, id, PushItem(r.heap, id, r.v), n + Temps(items[0]), lim, fuel);
      }
    }
  }

  lemma {:induction false} AllEvalFine(
    sg: Signature, args: seq<Expr>, scope: set<string>, have: set<string>, env: Env, heap: Heap, n: nat, lim: nat, fuel: nat)
    requires AllFine(sg) && OkArgs(sg, args, scope, n, lim) && AllReadOnly(args, have) && have <= env.Keys
    ensures EvalAll(sg.fs, args, env, heap, fuel) != AllStop(Stuck)
    decreases fuel, 1, args
  {
    hide AllFine, OkExpr, ReadsOnly;
    if args != [] {
      EvalFine(sg, args[0], scope, have, env, heap, n, lim, fuel);
      var r := Eval(sg.fs, args[0], env, heap, fuel);
      if r.Val? {
        AllEvalFine(sg, args[1..], scope, have, env, r.heap, n + Temps(args[0]) + 1, lim, fuel);
      }
    }
  }

  lemma FunctionFine(sg: Signature, k: nat)
    requires AllFine(sg) && k < |sg.fs|
    ensures OkStmts(sg, sg.fs[k].body, ParamNames(sg.fs[k].params), |sg.fs[k].params|, 1, false)
    ensures AllAssigned(sg.fs[k].body, ParamNames(sg.fs[k].params))
  {
    assert OkFunction(sg, sg.fs[k]);
  }

  lemma {:induction false} BindKeys(params: seq<string>, vs: seq<Value>)
    requires |params| == |vs|
    ensures Bind(params, vs).Keys == ParamNames(params)
  {
    if params != [] {
      var m := |params| - 1;
      BindKeys(params[..m], vs[..m]);
      assert params == params[..m] + [params[m]];
      assert ParamNames(params) == ParamNames(params[..m]) + {params[m]};
    }
  }

  /** Calling a function of the program with as many values as it has parameters. */
  lemma {:induction false} InvokeFine(sg: Signature, name: string, vs: seq<Value>, heap: Heap, fuel: nat)
    requires AllFine(sg)
    requires var k := FindFunction(sg.fs, name); k < |sg.fs| && |sg.fs[k].params| == |vs|
    ensures Invoke(sg.fs, name, vs, heap, fuel) != Stops(Stuck)
    decreases fuel, 0
  {
    hide AllFine, FindFunction;
    if fuel > 0 {
      var k := FindFunction(sg.fs, name);
      var f := sg.fs[k];
      FunctionFine(sg, k);
      BindKeys(f.params, vs);
      ExecFine(sg, f.body, ParamNames(f.params), ParamNames(f.params), Bind(f.params, vs), heap, |f.params|, 1, false, fuel - 1);
    }
  }

  lemma {:induction false} ExecFine(
    sg: Signature, ss: seq<Stmt>, scope: set<string>, have: set<string>, env: Env, heap: Heap,
    n: nat, lim: nat, inLoop: bool, fuel: nat)
    requires AllFine(sg) && OkStmts(sg, ss, scope, n, lim, inLoop) && AllAssigned(ss, have) && have <= env.Keys
    ensures Fine(Exec(sg.fs, ss, env, heap, fuel), env, FlowIn(ss, have), inLoop)
    decreases fuel, 1, ss
  {
    hide AllFine, OkStmt, Assigned, FlowOf, ExecStmt;
    if ss != [] {
      ExecStmtFine(sg, ss[0], scope, have, env, heap, n, lim, inLoop, fuel);
      var r := ExecStmt(sg.fs, ss[0], env, heap, fuel);
      if r.Next? {
        ExecFine(sg, ss[1..], scope + DefinedBy(ss[0]), FlowOf(ss[0], have).names, r.env, r.heap, n + StmtTemps(ss[0]), lim, inLoop, fuel);
      }
    }
  }

  lemma {:induction false} ExecStmtFine(
    sg: Signature, s: Stmt, scope: set<string>, have: set<string>, env: Env, heap: Heap,
    n: nat, lim: nat, inLoop: bool, fuel: nat)
    requires AllFine(sg) && OkStmt(sg, s, scope, n, lim, inLoop) && Assigned(s, have) && have <= env.Keys
    ensures Fine(ExecStmt(sg.fs, s, env, heap, fuel), env, FlowOf(s, have), inLoop)
    decreases fuel, 1, s, 1
  {
    hide *;
    match s
    case If(_, _, _) => IfFine(sg, s, scope, have, env, heap, n, lim, inLoop, fuel);
    case While(_, _) => WhileFine(sg, s, scope, have, env, heap, n, lim, inLoop, fuel);
    case _ => SimpleFine(sg, s, scope, have, env, heap, n, lim, inLoop, fuel);
  }

  lemma {:induction false} SimpleFine(
    sg: Signature, s: Stmt, scope: set<string>, have: set<string>, env: Env, heap: Heap,
    n: nat, lim: nat, inLoop: bool, fuel: nat)
    requires !s.If? && !s.While?
    requires AllFine(sg) && OkStmt(sg, s, scope, n, lim, inLoop) && Assigned(s, have) && have <= env.Keys
    ensures Fine(ExecStmt(sg.fs, s, env, heap, fuel), env, FlowOf(s, have), inLoop)
    decreases fuel, 1, s, 0
  {
    hide AllFine, Eval, ReadsOnly, OkExpr;
    match s
    case ExprStmt(e) =>
      if e.Assign? {
        AssignReads(e, have);
        EvalFine(sg, e.value, scope, have, env, heap, n, lim, fuel);
      } else {
        EvalFine(sg, e, scope, have, env, heap, n, lim, fuel);
      }
    case LocalDef(_, init) => EvalFine(sg, init, scope, have, env, heap, n, lim, fuel);
    case Return(result) => EvalFine(sg, result, scope, have, env, heap, n, lim, fuel);
    case Break =>
  }

  lemma {:induction false} IfFine(
    sg: Signature, s: Stmt, scope: set<string>, have: set<string>, env: Env, heap: Heap,
    n: nat, lim: nat, inLoop: bool, fuel: nat)
    requires s.If? && AllFine(sg) && OkStmt(sg, s, scope, n, lim, inLoop) && Assigned(s, have) && have <= env.Keys
    ensures Fine(ExecStmt(sg.fs, s, env, heap, fuel), env, FlowOf(s, have), inLoop)
    decreases fuel, 1, s, 0
  {
    hide AllFine, Eval, Exec, ReadsOnly, OkExpr, OkStmts, AllAssigned, FlowIn, Temps, BlockTemps, DefinedIn, Truthy;
    EvalFine(sg, s.cond, scope, have, env, heap, n, lim, fuel);
    var c := Eval(sg.fs, s.cond, env, heap, fuel);
    if c.Val? {
      ExecFine(sg, s.thn, scope, have, env, c.heap, n + Temps(s.cond), lim, inLoop, fuel);
      if s.els.Else? {
        ExecFine(sg, s.els.body, scope + DefinedIn(s.thn), have, env, c.heap, n + Temps(s.cond) + BlockTemps(s.thn), lim, inLoop, fuel);
      }
    }
  }

  lemma {:induction false} WhileFine(
    sg: Signature, s: Stmt, scope: set<string>, have: set<string>, env: Env, heap: Heap,
    n: nat, lim: nat, inLoop: bool, fuel: nat)
    requires s.While? && AllFine(sg) && OkStmt(sg, s, scope, n, lim, inLoop) && Assigned(s, have) && have <= env.Keys
    ensures Fine(ExecStmt(sg.fs, s, env, heap, fuel), env, FlowOf(s, have), inLoop)
    decreases fuel, 1, s, 0
  {
    hide AllFine, Eval, Exec, ReadsOnly, OkExpr, OkStmts, AllAssigned, FlowIn, Temps, BlockTemps, Truthy;
    var high := if lim >= n + StmtTemps(s) then lim else n + StmtTemps(s);
    EvalFine(sg, s.check, scope, have, env, heap, n, high, fuel);
    var c := Eval(sg.fs, s.check, env, heap, fuel);
    if fuel > 0 && c.Val? {
      ExecFine(sg, s.body, scope, have, env, c.heap, n + Temps(s.check), high, true, fuel);
      var r := Exec(sg.fs, s.body, env, c.heap, fuel);
      if r.Next? {
        WhileFine(sg, s, scope, have, r.env, r.heap, n, lim, inLoop, fuel - 1);
      }
    }
  }

  lemma AssignReads(e: Expr, have: set<string>)
    requires e.Assign? && ReadsOnly(e, have)
    ensures ReadsOnly(e.value, have)
  {
  }

  /** A well-formed program whose names are definitely assigned never reads a missing value. */
  lemma NeverStuck(p: Program, natives: set<string>, fuel: nat)
    requires WellFormed(p, natives) && DefinitelyAssigned(p)
    ensures RunMain(p, fuel) != Stops(Stuck)
  {
    hide OkFunction, AllAssigned, FindFunction, Functions, IsIdent, Invoke;
    InvokeFine(Signature(Functions(p), natives), "main", [], [], fuel);
  }
}
