/** The analyzer as it runs (src/semantics/analyzer.cpp): a walk of the syntax tree that
    pushes, fills and pops the scopes of a stack. */
module Analyzer {
  import opened Values
  import opened Syntax
  import opened ExprLowering
  import opened Analysis

  class Analyzer {
    var scopes: seq<Scope>

    constructor ()
      ensures scopes == []
    {
      scopes := [];
    }

    method EnterScope()
      modifies this
      ensures scopes == old(scopes) + [map[]]
    {
      scopes := scopes + [map[]];
    }

    method LeaveScope()
      requires scopes != []
      modifies this
      ensures scopes == old(scopes)[..|old(scopes)| - 1]
    {
      scopes := scopes[..|scopes| - 1];
    }

    /** From the innermost scope outwards. */
    method LookupNamedItem(name: string) returns (r: Option<Item>)
      ensures r == LookupItem(scopes, name)
    {
      var i := |scopes| - 1;
      assert scopes[..i + 1] == scopes;
      while i >= 0
        invariant -1 <= i < |scopes|
        invariant LookupItem(scopes, name) == LookupItem(scopes[..i + 1], name)
      {
        if name in scopes[i] {
          return Some(scopes[i][name]);
        }
        assert scopes[..i + 1][..i] == scopes[..i];
        i := i - 1;
      }
      r := None;
    }

    method RecordNamedItem(name: string, item: Item) returns (ok: bool)
      requires scopes != []
      modifies this
      ensures RecordItem(old(scopes), name, item) == if ok then Some(scopes) else None
      ensures |scopes| == |old(scopes)| && (!ok ==> scopes == old(scopes))
    {
      var last := |scopes| - 1;
      ok := name !in scopes[last];
      if ok {
        scopes := scopes[last := scopes[last][name := item]];
      }
    }

    method CheckLiteral(kind: TokenKind, lexeme: string) returns (r: Verdict<Item>)
      ensures r == Analysis.CheckLiteral(scopes, kind, lexeme)
    {
      match kind
      case TkTrue => r := Accepts(Item(BoolExtra(lexeme == "true"), Primitive, false, true));
      case TkFalse => r := Accepts(Item(BoolExtra(lexeme == "true"), Primitive, false, true));
      case TkInt => r := Accepts(Item(IntExtra(LiteralValue(TkInt, lexeme).i), Primitive, false, true));
      case TkDouble => r := Accepts(Item(DoubleExtra(LiteralValue(TkDouble, lexeme).r), Primitive, false, true));
      case _ =>
        var found := LookupNamedItem(lexeme);
        r := if found.Some? then Accepts(found.value) else Rejects;
    }

    method CheckExpr(e: Expr) returns (r: Verdict<Item>)
      ensures r == Analysis.CheckExpr(scopes, e)
      decreases e
    {
      match e
      case Literal(kind, lexeme) => r := CheckLiteral(kind, lexeme);
      case Sequence(items, isTuple) =>
        var i := 0;
        while i < |items|
          invariant 0 <= i <= |items|
          invariant CheckItems(scopes, items) == CheckItems(scopes, items[i..])
        {
          assert items[i..][0] == items[i] && items[i..][1..] == items[i + 1..];
          var item := CheckExpr(items[i]);
          if item.Rejects? { return Rejects; }
          if item.Aborts? { return Aborts; }
          i := i + 1;
        }
        r := Accepts(Item(NoExtra, if isTuple then FixedSequence else FlexibleSequence, false, isTuple));
      case Lambda => r := Rejects;
      case Call(callee, args) =>
        r := CheckExpr(callee);
        if r.Accepts? {
          var c := r.value;
          if c.kind != Anything && c.kind != Callable {
            r := Rejects;
          } else if !c.extra.IntExtra? {
            r := Aborts;
          } else if c.extra.i != |args| {
            r := Rejects;
          } else {
            r := Accepts(Temporary());
          }
        }
      case Unary(uop, inner) =>
        r := CheckExpr(inner);
        if r.Accepts? {
          r := if Supports(r.value.kind, uop) then Accepts(Temporary()) else Rejects;
        }
      case Binary(bop, left, right) =>
        var a := CheckExpr(left);
        var b := CheckExpr(right);
        if a.Aborts? || b.Aborts? { return Aborts; }
        if a.Rejects? || b.Rejects? { return Rejects; }
        if !OperandsFit(bop, a.value.kind, b.value.kind) { return Rejects; }
        r := if bop.Arith? then Accepts(Temporary()) else Accepts(Item(NoExtra, Anything, true, false));
      case Assign(target, value) =>
        var a := CheckExpr(target);
        var b := CheckExpr(value);
        if a.Aborts? || b.Aborts? { return Aborts; }
        if a.Rejects? || b.Rejects? { return Rejects; }
        r := if Assignable(a.value) then Accepts(Temporary()) else Rejects;
    }

    /** The verdict of the specification, with the scopes as it says when it accepts. */
    ghost predicate Checked(v: Verdict<()>, spec: Verdict<seq<Scope>>)
      reads this
    {
      match spec
      case Accepts(after) => v == Accepts(()) && scopes == after
      case Rejects => v == Rejects
      case Aborts => v == Aborts
    }

    method CheckStmt(s: Stmt) returns (v: Verdict<()>)
      requires scopes != []
      modifies this
      ensures Checked(v, Analysis.CheckStmt(old(scopes), s)) && |scopes| == |old(scopes)|
      decreases s
    {
      match s
      case ExprStmt(e) =>
        var r := CheckExpr(e);
        v := Verdictless(r);
      case LocalDef(name, init) =>
        var r := CheckExpr(init);
        if r.Accepts? {
          var ok := RecordNamedItem(name, ToLvalue(r.value));
          v := if ok then Accepts(()) else Rejects;
        } else {
          v := Verdictless(r);
        }
      case If(cond, thn, els) =>
        var r := CheckExpr(cond);
        v := Verdictless(r);
        if v.Accepts? {
          v := CheckBlock(thn);
          if v.Accepts? && els.Else? {
            v := CheckBlock(els.body);
          }
        }
      case Return(result) =>
        var r := CheckExpr(result);
        v := Verdictless(r);
      case While(check, body) =>
        var r := CheckExpr(check);
        v := Verdictless(r);
        if v.Accepts? {
          v := CheckBlock(body);
        }
      case Break => v := Accepts(());
    }

    method CheckBlock(ss: seq<Stmt>) returns (v: Verdict<()>)
      requires scopes != []
      modifies this
      ensures Checked(v, CheckStmts(old(scopes), ss)) && |scopes| == |old(scopes)|
      decreases ss
    {
      hide Analysis.CheckStmt;
      var i := 0;
      while i < |ss|
        invariant 0 <= i <= |ss| && |scopes| == |old(scopes)|
        invariant CheckStmts(old(scopes), ss) == CheckStmts(scopes, ss[i..])
      {
        assert ss[i..][0] == ss[i] && ss[i..][1..] == ss[i + 1..];
        v := CheckStmt(ss[i]);
        if !v.Accepts? {
          return;
        }
        i := i + 1;
      }
      v := Accepts(());
    }

    /** Second pass over a function: parameters, then the body. */
    method CheckFunction(global: Scope, f: Fun) returns (v: Verdict<()>)
      requires scopes == [global]
      modifies this
      ensures var spec := Analysis.CheckFunction(global, f);
              v == (match spec case Accepts(_) => Accepts(()) case Rejects => Rejects case Aborts => Aborts)
      ensures v.Accepts? ==> scopes == [global]
    {
      EnterScope();
      ghost var start: seq<Scope> := [global, map[]];
      assert scopes == start;
      var i := 0;
      while i < |f.params|
        invariant 0 <= i <= |f.params| && |scopes| == 2 && scopes[0] == global
        invariant RecordAll(start, f.params) == RecordAll(scopes, f.params[i..])
      {
        assert f.params[i..][0] == f.params[i] && f.params[i..][1..] == f.params[i + 1..];
        var ok := RecordNamedItem(f.params[i], Parameter());
        if !ok {
          assert RecordAll(start, f.params) == None;
          return Rejects;
        }
        i := i + 1;
      }
      assert f.params[i..] == [];
      ghost var ready := scopes;
      assert Analysis.CheckFunction(global, f) == CheckStmts(ready, f.body);
      v := CheckBlock(f.body);
      GlobalsKept(ready, f.body);
      LeaveScope();
    }

    method Check(p: Program) returns (v: Verdict<()>)
      requires scopes == []
      modifies this
      ensures v == CheckProgram(p)
    {
      EnterScope();
      var i := 0;
      while i < |p|
        invariant 0 <= i <= |p| && |scopes| == 1
        invariant DeclareAll(map[], p) == DeclareAll(scopes[0], p[i..])
      {
        assert p[i..][0] == p[i] && p[i..][1..] == p[i + 1..];
        var ok := true;
        match p[i] {
          case Import =>
          case Function(f) => ok := RecordNamedItem(f.name, Declared(|f.params|));
          case NativeStub(name, params) => ok := RecordNamedItem(name, Declared(|params|));
        }
        if !ok {
          return Rejects;
        }
        i := i + 1;
      }
      var global := scopes[0];
      i := 0;
      while i < |p|
        invariant 0 <= i <= |p| && scopes == [global]
        invariant CheckBodies(global, p) == CheckBodies(global, p[i..])
      {
        assert p[i..][0] == p[i] && p[i..][1..] == p[i + 1..];
        if p[i].Function? {
          v := CheckFunction(global, p[i].fun);
          if !v.Accepts? {
            return;
          }
        }
        i := i + 1;
      }
      LeaveScope();
      v := Accepts(());
    }
  }

  function Verdictless(r: Verdict<Item>): Verdict<()> {
    match r
    case Accepts(_) => Accepts(())
    case Rejects => Rejects
    case Aborts => Aborts
  }

  /** A body only touches the innermost scope. */
  lemma {:induction false} GlobalsKept(scopes: seq<Scope>, ss: seq<Stmt>)
    requires scopes != []
    ensures var r := CheckStmts(scopes, ss);
            r.Accepts? ==> |r.value| == |scopes| && r.value[..|scopes| - 1] == scopes[..|scopes| - 1]
    decreases ss
  {
    if ss != [] {
      StmtKeepsGlobals(scopes, ss[0]);
      var h := Analysis.CheckStmt(scopes, ss[0]);
      if h.Accepts? {
        GlobalsKept(h.value, ss[1..]);
      }
    }
  }

  lemma {:induction false} StmtKeepsGlobals(scopes: seq<Scope>, s: Stmt)
    requires scopes != []
    ensures var r := Analysis.CheckStmt(scopes, s);
            r.Accepts? ==> |r.value| == |scopes| && r.value[..|scopes| - 1] == scopes[..|scopes| - 1]
    decreases s
  {
    match s
    case If(cond, thn, els) =>
      GlobalsKept(scopes, thn);
      var t := CheckStmts(scopes, thn);
      if t.Accepts? && els.Else? {
        GlobalsKept(t.value, els.body);
      }
    case While(check, body) => GlobalsKept(scopes, body);
    case _ =>
  }
}
