/** Fuel only decides whether an evaluation ends: with more of it, one that ends ends alike. */
module FuelFacts {
  import opened Values
  import opened Syntax
  import opened Semantics

  lemma {:induction false} EvalMore(fs: seq<Fun>, e: Expr, env: Env, heap: Heap, f: nat, g: nat)
    requires f <= g && Eval(fs, e, env, heap, f) != Stops(Timeout)
    ensures Eval(fs, e, env, heap, g) == Eval(fs, e, env, heap, f)
    decreases f, 1, e
  {
    match e
    case Sequence(items, _) => ItemsMore(fs, items, |heap|, env, heap + [SeqObj([], false)], f, g);
    case Call(callee, args) =>
      if callee.Literal? && callee.kind == TkIdent {
        AllMore(fs, args, env, heap, f, g);
        var r := EvalAll(fs, args, env, heap, f);
        if r.Vals? {
          InvokeMore(fs, callee.lexeme, r.vs, r.heaps, f, g);
        }
      }
    case Binary(bop, left, right) =>
      if bop.Arith? {
        EvalMore(fs, left, env, heap, f, g);
        var r := Eval(fs, left, env, heap, f);
        if r.Val? {
          EvalMore(fs, right, env, r.heap, f, g);
        }
      }
    case _ =>
  }

  lemma {:induction false} ItemsMore(fs: seq<Fun>, items: seq<Expr>, id: nat, env: Env, heap: Heap, f: nat, g: nat)
    requires f <= g && EvalItems(fs, items, id, env, heap, f) != Stops(Timeout)
    ensures EvalItems(fs, items, id, env, heap, g) == EvalItems(fs, items, id, env, heap, f)
    decreases f, 1, items
  {
    hide Eval;
    if items != [] {
      EvalMore(fs, items[0], env, heap, f, g);
      var r := Eval(fs, items[0], env, heap, f);
      if r.Val? {
        ItemsMore(fs, items[1..], id, env, PushItem(r.heap, id, r.v), f, g);
      }
    }
  }

  lemma {:induction false} AllMore(fs: seq<Fun>, args: seq<Expr>, env: Env, heap: Heap, f: nat, g: nat)
    requires f <= g && EvalAll(fs, args, env, heap, f) != AllStop(Timeout)
    ensures EvalAll(fs, args, env, heap, g) == EvalAll(fs, args, env, heap, f)
    decreases f, 1, args
  {
    hide Eval;
    if args != [] {
      EvalMore(fs, args[0], env, heap, f, g);
      var r := Eval(fs, args[0], env, heap, f);
      if r.Val? {
        AllMore(fs, args[1..], env, r.heap, f, g);
      }
    }
  }

  lemma {:induction false} InvokeMore(fs: seq<Fun>, name: string, vs: seq<Value>, heap: Heap, f: nat, g: nat)
    requires f <= g && Invoke(fs, name, vs, heap, f) != Stops(Timeout)
    ensures Invoke(fs, name, vs, heap, g) == Invoke(fs, name, vs, heap, f)
    decreases f, 0
  {
    hide FindFunction, Bind;
    var k := FindFunction(fs, name);
    if k < |fs| && |fs[k].params| == |vs| {
      ExecMore(fs, fs[k].body, Bind(fs[k].params, vs), heap, f - 1, g - 1);
    }
  }

  lemma {:induction false} ExecMore(fs: seq<Fun>, ss: seq<Stmt>, env: Env, heap: Heap, f: nat, g: nat)
    requires f <= g && Exec(fs, ss, env, heap, f) != Halts(Timeout)
    ensures Exec(fs, ss, env, heap, g) == Exec(fs, ss, env, heap, f)
    decreases f, 1, ss
  {
    hide ExecStmt;
    if ss != [] {
      ExecStmtMore(fs, ss[0], env, heap, f, g);
      var r := ExecStmt(fs, ss[0], env, heap, f);
      if r.Next? {
        ExecMore(fs, ss[1..], r.env, r.heap, f, g);
      }
    }
  }

  lemma {:induction false} ExecStmtMore(fs: seq<Fun>, s: Stmt, env: Env, heap: Heap, f: nat, g: nat)
    requires f <= g && ExecStmt(fs, s, env, heap, f) != Halts(Timeout)
    ensures ExecStmt(fs, s, env, heap, g) == ExecStmt(fs, s, env, heap, f)
    decreases f, 1, s
  {
    hide Eval, Exec, Truthy;
    match s
    case ExprStmt(e) =>
      if !e.Assign? {
        EvalMore(fs, e, env, heap, f, g);
      } else if e.target.Literal? && e.target.kind == TkIdent {
        EvalMore(fs, e.value, env, heap, f, g);
      }
    case LocalDef(_, init) => EvalMore(fs, init, env, heap, f, g);
    case Return(result) => EvalMore(fs, result, env, heap, f, g);
    case Break =>
    case If(cond, thn, els) =>
      EvalMore(fs, cond, env, heap, f, g);
      var c := Eval(fs, cond, env, heap, f);
      if c.Val? {
        if Truthy(c.v) {
          ExecMore(fs, thn, env, c.heap, f, g);
        } else if els.Else? {
          ExecMore(fs, els.body, env, c.heap, f, g);
        }
      }
    case While(check, body) =>
      EvalMore(fs, check, env, heap, f, g);
      var c := Eval(fs, check, env, heap, f);
      if c.Val? && Truthy(c.v) {
        ExecMore(fs, body, env, c.heap, f, g);
        var r := Exec(fs, body, env, c.heap, f);
        if r.Next? {
          ExecStmtMore(fs, s, r.env, r.heap, f - 1, g - 1);
        }
      }
  }

  /** Source runs that end all have the same outcome, whatever their fuel. */
  lemma OutcomeUnique(p: Program, f: nat, g: nat)
    requires RunMain(p, f) != Stops(Timeout) && RunMain(p, g) != Stops(Timeout)
    ensures RunMain(p, f) == RunMain(p, g)
  {
    hide Invoke, Functions;
    if f <= g {
      InvokeMore(Functions(p), "main", [], [], f, g);
    } else {
      InvokeMore(Functions(p), "main", [], [], g, f);
    }
  }
}
