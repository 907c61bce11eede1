/** The programs the compilation theorem speaks about, as conditions on the source text: names
    resolve, as the lowering demands, and calls and conditions have the forms for which the
    calling convention and `jump_else` work. */
module Fragment {
  import opened Values
  import opened Syntax
  import opened Semantics

  datatype Signature = Signature(fs: seq<Fun>, natives: set<string>)

  predicate IsIdent(name: string) {
    KindOf(name) == TkIdent
  }

  /** A name a parameter or `def` may take: lookups consult natives and globals first. */
  predicate FreshName(sg: Signature, name: string) {
    IsIdent(name) && name !in sg.natives && FindFunction(sg.fs, name) == |sg.fs|
  }

  predicate IsAtom(e: Expr) {
    e.Literal?
  }

  predicate Atoms(es: seq<Expr>) {
    es == [] || (IsAtom(es[0]) && Atoms(es[1..]))
  }

  /** Temporaries allocated by an expression, by sequence items and by call arguments. */
  function Temps(e: Expr): nat {
    match e
    case Literal(_, _) => 0
    case Sequence(items, _) => 1 + ItemTemps(items)
    case Lambda => 0
    case Call(callee, args) => Temps(callee) + ArgTemps(args)
    case Unary(_, inner) => Temps(inner)
    case Binary(_, left, right) => Temps(left) + Temps(right) + 1
    case Assign(target, value) => Temps(target) + Temps(value)
  }

  function ItemTemps(items: seq<Expr>): nat {
    if items == [] then 0 else Temps(items[0]) + ItemTemps(items[1..])
  }

  function ArgTemps(args: seq<Expr>): nat {
    if args == [] then 0 else Temps(args[0]) + 1 + ArgTemps(args[1..])
  }

  function StmtTemps(s: Stmt): nat {
    match s
    case ExprStmt(e) => Temps(e)
    case LocalDef(_, init) => Temps(init) + 1
    case If(cond, thn, els) => Temps(cond) + BlockTemps(thn) + (if els.NoElse? then 0 else BlockTemps(els.body))
    case Return(result) => Temps(result)
    case While(check, body) => Temps(check) + BlockTemps(body)
    case Break => 0
  }

  function BlockTemps(ss: seq<Stmt>): nat {
    if ss == [] then 0 else StmtTemps(ss[0]) + BlockTemps(ss[1..])
  }

  /** `n`: temporaries allocated before the expression; `lim`: temporaries allocated by the
      end of the outermost enclosing loop (1 outside loops). A call needs an argument, all
      but the first argument atomic, and no temporary allocated later in that loop. */
  predicate OkExpr(sg: Signature, e: Expr, scope: set<string>, n: nat, lim: nat)
    decreases e
  {
    match e
    case Literal(kind, lexeme) => kind == KindOf(lexeme) && kind != TkOther && (kind == TkIdent ==> lexeme in scope)
    case Sequence(items, _) => OkItems(sg, items, scope, n + 1, lim)
    case Call(callee, args) =>
      && callee.Literal? && callee.kind == TkIdent && callee.lexeme !in sg.natives
      && var k := FindFunction(sg.fs, callee.lexeme);
      && k < |sg.fs| && |sg.fs[k].params| == |args|
      && args != [] && Atoms(args[1..])
      && OkArgs(sg, args, scope, n, lim)
      && lim <= n + ArgTemps(args)
    case Binary(bop, left, right) =>
      bop.Arith? && OkExpr(sg, left, scope, n, lim) && OkExpr(sg, right, scope, n + Temps(left), lim)
    case Lambda => false
    case Unary(_, _) => false
    case Assign(_, _) => false
  }

  predicate OkItems(sg: Signature, items: seq<Expr>, scope: set<string>, n: nat, lim: nat)
    decreases items
  {
    items == [] ||
    (OkExpr(sg, items[0], scope, n, lim) && OkItems(sg, items[1..], scope, n + Temps(items[0]), lim))
  }

  predicate OkArgs(sg: Signature, args: seq<Expr>, scope: set<string>, n: nat, lim: nat)
    decreases args
  {
    args == [] ||
    (OkExpr(sg, args[0], scope, n, lim) && OkArgs(sg, args[1..], scope, n + Temps(args[0]) + 1, lim))
  }

  /** A condition must not be a bare literal: `jump_else` reads a register. */
  predicate OkCondition(sg: Signature, e: Expr, scope: set<string>, n: nat, lim: nat) {
    OkExpr(sg, e, scope, n, lim) && (e.Literal? ==> e.kind == TkIdent)
  }

  /** All names a statement defines, inner blocks included. */
  function DefinedBy(s: Stmt): set<string> {
    match s
    case LocalDef(name, _) => {name}
    case If(_, thn, els) => DefinedIn(thn) + (if els.NoElse? then {} else DefinedIn(els.body))
    case While(_, body) => DefinedIn(body)
    case _ => {}
  }

  function DefinedIn(ss: seq<Stmt>): set<string> {
    if ss == [] then {} else DefinedBy(ss[0]) + DefinedIn(ss[1..])
  }

  /** `scope`: every name defined so far in the function's text, in whatever block; the local
      table of the lowering is as flat. */
  predicate OkStmt(sg: Signature, s: Stmt, scope: set<string>, n: nat, lim: nat, inLoop: bool)
    decreases s
  {
    match s
    case ExprStmt(e) =>
      if e.Assign?
      then e.target.Literal? && e.target.kind == TkIdent && e.target.lexeme in scope && OkExpr(sg, e.value, scope, n, lim)
      else OkExpr(sg, e, scope, n, lim)
    case LocalDef(name, init) => FreshName(sg, name) && name !in scope && OkExpr(sg, init, scope, n, lim)
    case If(cond, thn, els) =>
      && OkCondition(sg, cond, scope, n, lim)
      && OkStmts(sg, thn, scope, n + Temps(cond), lim, inLoop)
      && (els.Else? ==>
            OkStmts(sg, els.body, scope + DefinedIn(thn), n + Temps(cond) + BlockTemps(thn), lim, inLoop))
    case Return(result) => OkExpr(sg, result, scope, n, lim)
    case While(check, body) =>
      var high := if lim >= n + StmtTemps(s) then lim else n + StmtTemps(s);
      OkCondition(sg, check, scope, n, high) && OkStmts(sg, body, scope, n + Temps(check), high, true)
    case Break => inLoop
  }

  predicate OkStmts(sg: Signature, ss: seq<Stmt>, scope: set<string>, n: nat, lim: nat, inLoop: bool)
    decreases ss
  {
    ss == [] ||
    (&& OkStmt(sg, ss[0], scope, n, lim, inLoop)
     && OkStmts(sg, ss[1..], scope + DefinedBy(ss[0]), n + StmtTemps(ss[0]), lim, inLoop))
  }

  /** No else body has an `if` or `while` of its own. */
  predicate ElsesFlat(ss: seq<Stmt>) {
    ss == [] || (ElseFlat(ss[0]) && ElsesFlat(ss[1..]))
  }

  predicate ElseFlat(s: Stmt) {
    match s
    case If(_, thn, els) => ElsesFlat(thn) && (els.Else? ==> Straight(els.body))
    case While(_, body) => ElsesFlat(body)
    case _ => true
  }

  predicate Straight(ss: seq<Stmt>) {
    ss == [] || (!ss[0].If? && !ss[0].While? && Straight(ss[1..]))
  }

  /** Statements that lower to no steps at all. */
  predicate Silent(ss: seq<Stmt>) {
    ss == [] || (ss[0].ExprStmt? && ss[0].expr.Literal? && Silent(ss[1..]))
  }

  /** No step is lost. The blocks after an `else` body that has an `if` or `while` of its own are
      never emitted, so nothing may follow in its list; and nothing may be added to the last
      block of the list later on. `last` says so: it holds of a function's body and of the
      branch of an `if` without `else`, whose end stands in a block of its own. */
  predicate NothingLost(ss: seq<Stmt>, last: bool) {
    ss == [] ||
    match ss[0]
    case If(_, thn, els) =>
      if els.NoElse? then NothingLost(thn, true) && NothingLost(ss[1..], last)
      else
        && NothingLost(thn, false) && NothingLost(els.body, false)
        && if Straight(els.body) then NothingLost(ss[1..], last) else last && Silent(ss[1..])
    case While(_, body) => NothingLost(body, false) && NothingLost(ss[1..], last)
    case _ => NothingLost(ss[1..], last)
  }

  function ParamNames(params: seq<string>): set<string> {
    set x | x in params
  }

  predicate Distinct(names: seq<string>) {
    forall i, j | 0 <= i < j < |names| :: names[i] != names[j]
  }

  predicate OkFunction(sg: Signature, f: Fun) {
    && Distinct(f.params)
    && (forall i | 0 <= i < |f.params| :: FreshName(sg, f.params[i]))
    && OkStmts(sg, f.body, ParamNames(f.params), |f.params|, 1, false)
    && NothingLost(f.body, true)
  }

  /** Function names are distinct identifiers, every function is in the fragment, and
      `main` takes no parameters. */
  predicate WellFormed(p: Program, natives: set<string>) {
    var fs := Functions(p);
    var sg := Signature(fs, natives);
    && (forall i | 0 <= i < |fs| :: IsIdent(fs[i].name))
    && (forall i, j | 0 <= i < j < |fs| :: fs[i].name != fs[j].name)
    && (forall i | 0 <= i < |fs| :: OkFunction(sg, fs[i]))
    && (var m := FindFunction(fs, "main"); m < |fs| && fs[m].params == [])
  }
}
