/** What an accepted program is sure of, read off its text (src/semantics/analyzer.cpp): names,
    calls, operands and assignments. Arguments of calls are never looked at. */
module AnalyzerLaws {
  import opened Values
  import opened Syntax
  import opened Fragment
  import opened ExprLowering
  import opened Analysis
  import opened NameAgreement

  // ---------------------------------------------------------------- one expression

  /** A call on a name: accepted exactly if the name is found, may be called, and takes that many
      arguments. Where the number is not known, as of a parameter, an exception gets out. */
  lemma CallExactly(scopes: seq<Scope>, name: string, args: seq<Expr>)
    ensures var r, found := CheckExpr(scopes, Call(Literal(TkIdent, name), args)), LookupItem(scopes, name);
            && (r.Accepts? <==> found.Some? && found.value.kind in {Anything, Callable} && found.value.extra == IntExtra(|args|))
            && (r.Aborts? <==> found.Some? && found.value.kind in {Anything, Callable} && !found.value.extra.IntExtra?)
  {
  }

  /** Arguments do not matter but for their number. */
  lemma ArgumentsIgnored(scopes: seq<Scope>, callee: Expr, args: seq<Expr>, args': seq<Expr>)
    requires |args| == |args'|
    ensures CheckExpr(scopes, Call(callee, args)) == CheckExpr(scopes, Call(callee, args'))
  {
  }

  /** An operator takes operands of which one is of unknown kind, or two numbers or booleans. */
  lemma OperatorExactly(scopes: seq<Scope>, op: Arith, left: Expr, right: Expr)
    requires CheckExpr(scopes, left).Accepts? && CheckExpr(scopes, right).Accepts?
    ensures var a, b := CheckExpr(scopes, left).value.kind, CheckExpr(scopes, right).value.kind;
            CheckExpr(scopes, Binary(Operator.Arith(op), left, right)).Accepts?
            <==> a == Anything || b == Anything || (a == Primitive && b == Primitive)
  {
    hide CheckExpr;
    OperatorVerdict(scopes, op, left, right);
  }

  lemma OperatorVerdict(scopes: seq<Scope>, op: Arith, left: Expr, right: Expr)
    requires CheckExpr(scopes, left).Accepts? && CheckExpr(scopes, right).Accepts?
    ensures var a, b := CheckExpr(scopes, left).value.kind, CheckExpr(scopes, right).value.kind;
            CheckExpr(scopes, Binary(Operator.Arith(op), left, right)).Accepts? <==> OperandsFit(Operator.Arith(op), a, b)
  {
  }

  // ---------------------------------------------------------------- the text of a program

  /** What the text says: the names of a function, those it may assign to, and the number of
      parameters of every declared name. */
  datatype Text = Text(names: set<string>, defs: set<string>, arities: map<string, nat>)

  function Arities(p: Program): map<string, nat> {
    if p == [] then map[]
    else
      match p[0]
      case Function(f) => Arities(p[1..])[f.name := |f.params|]
      case NativeStub(name, params) => Arities(p[1..])[name := |params|]
      case Import => Arities(p[1..])
  }

  predicate IsNumber(e: Expr) {
    e.Literal? && e.kind in {TkTrue, TkFalse, TkInt, TkDouble}
  }

  /** A declared name that no name of the function hides. */
  predicate IsFunction(t: Text, e: Expr) {
    e.Literal? && e.kind == TkIdent && e.lexeme !in t.names && e.lexeme in t.arities
  }

  /** No operand of an operator. */
  predicate NoOperand(t: Text, e: Expr) {
    e.Sequence? || IsFunction(t, e)
  }

  predicate Clash(t: Text, left: Expr, right: Expr) {
    (NoOperand(t, left) && (NoOperand(t, right) || IsNumber(right))) || (IsNumber(left) && NoOperand(t, right))
  }

  /** Names are known, calls have the declared number of arguments, operands can be combined, and
      only definitions and items are assigned to. */
  predicate ExprFits(t: Text, e: Expr)
    decreases e
  {
    match e
    case Literal(kind, lexeme) => kind == TkIdent ==> lexeme in t.names || lexeme in t.arities
    case Sequence(items, _) => AllFit(t, items)
    case Lambda => false
    case Call(callee, args) =>
      ExprFits(t, callee) && !callee.Sequence? && !IsNumber(callee) && (IsFunction(t, callee) ==> |args| == t.arities[callee.lexeme])
    case Unary(uop, inner) => ExprFits(t, inner) && (uop == Negate ==> !NoOperand(t, inner))
    case Binary(bop, left, right) =>
      && ExprFits(t, left) && ExprFits(t, right)
      && if bop.Arith? then !Clash(t, left, right) else !IsNumber(left) && !IsFunction(t, left) && !NoOperand(t, right)
    case Assign(target, value) =>
      && ExprFits(t, target) && ExprFits(t, value)
      && ((target.Literal? && target.kind == TkIdent ==> target.lexeme in t.defs)
          && !IsNumber(target) && !target.Sequence? && !target.Call? && !target.Unary? && !(target.Binary? && target.bop.Arith?))
  }

  predicate AllFit(t: Text, es: seq<Expr>)
    decreases es
  {
    es == [] || (ExprFits(t, es[0]) && AllFit(t, es[1..]))
  }

  predicate StmtFits(t: Text, s: Stmt)
    decreases s
  {
    match s
    case ExprStmt(e) => ExprFits(t, e)
    case LocalDef(_, init) => ExprFits(t, init)
    case Return(result) => ExprFits(t, result)
    case Break => true
    case If(cond, thn, els) => ExprFits(t, cond) && StmtsFit(t, thn) && (els.Else? ==> StmtsFit(t, els.body))
    case While(check, body) => ExprFits(t, check) && StmtsFit(t, body)
  }

  predicate StmtsFit(t: Text, ss: seq<Stmt>)
    decreases ss
  {
    ss == [] || (StmtFits(t, ss[0]) && StmtsFit(t, ss[1..]))
  }

  function TextOf(p: Program, f: Fun): Text {
    Text(ParamNames(f.params) + DefinedIn(f.body), DefinedIn(f.body) - ParamNames(f.params), Arities(p))
  }

  predicate ProgramFits(p: Program) {
    forall i | 0 <= i < |p| && p[i].Function? :: StmtsFit(TextOf(p, p[i].fun), p[i].fun.body)
  }

  // ---------------------------------------------------------------- scopes and text

  /** The scopes of a function hold what its text says. */
  ghost predicate Describes(scopes: seq<Scope>, t: Text) {
    && |scopes| == 2 && scopes[1].Keys <= t.names && t.names - t.defs <= scopes[1].Keys
    && (forall x | x in scopes[0] :: x in t.arities && scopes[0][x] == Declared(t.arities[x]))
    && (forall x | x in t.arities :: x in scopes[0])
    && forall x | x in scopes[1] :: scopes[1][x].locator && (!scopes[1][x].readonly ==> x in t.defs)
  }

  lemma Found(scopes: seq<Scope>, t: Text, name: string)
    requires Describes(scopes, t)
    ensures var r := LookupItem(scopes, name);
            && (r.Some? ==> name in t.names || name in t.arities)
            && (name !in t.names && name in t.arities ==> r == Some(Declared(t.arities[name])))
            && (r.Some? && !r.value.readonly ==> name in t.defs)
  {
    assert scopes[..1] == [scopes[0]] && scopes[..1][..0] == [];
    assert LookupItem([], name) == None;
    assert LookupItem(scopes[..1], name) == if name in scopes[0] then Some(scopes[0][name]) else None;
  }

  /** What the kind of an accepted expression says about its form. */
  lemma KindSays(scopes: seq<Scope>, t: Text, e: Expr)
    requires Describes(scopes, t) && CheckExpr(scopes, e).Accepts?
    ensures var item := CheckExpr(scopes, e).value;
            && (IsNumber(e) ==> item.kind == Primitive)
            && (e.Sequence? ==> item.kind in {FixedSequence, FlexibleSequence})
            && (IsFunction(t, e) ==> item == Declared(t.arities[e.lexeme]))
            && (e.Literal? && e.kind == TkIdent && Assignable(item) ==> e.lexeme in t.defs)
            && (IsNumber(e) || e.Sequence? || e.Call? || e.Unary? || (e.Binary? && e.bop.Arith?) ==> !item.locator)
  {
    hide Describes;
    if e.Literal? {
      Found(scopes, t, e.lexeme);
    }
    hide LookupItem, Supports, OperandsFit;
  }

  lemma {:induction false} AcceptedFits(scopes: seq<Scope>, t: Text, e: Expr)
    requires Describes(scopes, t) && CheckExpr(scopes, e).Accepts?
    ensures ExprFits(t, e)
    decreases e
  {
    hide Describes, Declared, LookupItem, CheckLiteral, LiteralValue;
    match e
    case Literal(kind, lexeme) => LiteralFits(scopes, t, e);
    case Sequence(items, _) => ItemsFit(scopes, t, items);
    case Lambda =>
    case Call(callee, args) =>
      AcceptedFits(scopes, t, callee);
      KindSays(scopes, t, callee);
      CallFits(scopes, t, callee, args);
    case Unary(_, inner) =>
      AcceptedFits(scopes, t, inner);
      KindSays(scopes, t, inner);
      OperandFits(scopes, t, inner);
    case Binary(_, left, right) =>
      AcceptedFits(scopes, t, left);
      AcceptedFits(scopes, t, right);
      KindSays(scopes, t, left);
      KindSays(scopes, t, right);
      OperandFits(scopes, t, left);
      OperandFits(scopes, t, right);
    case Assign(target, value) =>
      AcceptedFits(scopes, t, target);
      AcceptedFits(scopes, t, value);
      KindSays(scopes, t, target);
  }

  lemma LiteralFits(scopes: seq<Scope>, t: Text, e: Expr)
    requires e.Literal? && Describes(scopes, t) && CheckExpr(scopes, e).Accepts?
    ensures ExprFits(t, e)
  {
    Found(scopes, t, e.lexeme);
    hide Describes, LookupItem;
  }

  lemma CallFits(scopes: seq<Scope>, t: Text, callee: Expr, args: seq<Expr>)
    requires CheckExpr(scopes, Call(callee, args)).Accepts? && ExprFits(t, callee)
    requires IsFunction(t, callee) ==> CheckExpr(scopes, callee) == Accepts(Declared(t.arities[callee.lexeme]))
    requires IsNumber(callee) ==> CheckExpr(scopes, callee).Accepts? && CheckExpr(scopes, callee).value.kind == Primitive
    requires callee.Sequence? ==>
               CheckExpr(scopes, callee).Accepts? && CheckExpr(scopes, callee).value.kind in {FixedSequence, FlexibleSequence}
    ensures ExprFits(t, Call(callee, args))
  {
    hide LookupItem;
  }

  /** Sequences and functions have kinds that no operator takes. */
  lemma OperandFits(scopes: seq<Scope>, t: Text, e: Expr)
    requires Describes(scopes, t) && CheckExpr(scopes, e).Accepts?
    ensures NoOperand(t, e) ==> CheckExpr(scopes, e).value.kind in {FixedSequence, FlexibleSequence, Callable}
    ensures IsFunction(t, e) ==> CheckExpr(scopes, e).value.kind == Callable
  {
    KindSays(scopes, t, e);
    hide CheckExpr, Describes;
  }

  lemma {:induction false} ItemsFit(scopes: seq<Scope>, t: Text, items: seq<Expr>)
    requires Describes(scopes, t) && CheckItems(scopes, items).Accepts?
    ensures AllFit(t, items)
    decreases items
  {
    hide CheckExpr, ExprFits, Describes;
    if items != [] {
      AcceptedFits(scopes, t, items[0]);
      ItemsFit(scopes, t, items[1..]);
    }
  }

  lemma {:induction false} AcceptedStmt(scopes: seq<Scope>, t: Text, s: Stmt)
    requires Describes(scopes, t) && CheckStmt(scopes, s).Accepts? && DefinedBy(s) <= t.names
    ensures StmtFits(t, s) && Describes(CheckStmt(scopes, s).value, t)
    decreases s
  {
    hide CheckExpr, ExprFits, Describes;
    match s
    case ExprStmt(e) => AcceptedFits(scopes, t, e);
    case Return(result) => AcceptedFits(scopes, t, result);
    case Break =>
    case LocalDef(name, init) =>
      AcceptedFits(scopes, t, init);
      DefinitionDescribed(scopes, t, name, ToLvalue(CheckExpr(scopes, init).value));
    case If(cond, thn, els) =>
      AcceptedFits(scopes, t, cond);
      AcceptedStmts(scopes, t, thn);
      if els.Else? {
        AcceptedStmts(CheckStmts(scopes, thn).value, t, els.body);
      }
    case While(check, body) =>
      AcceptedFits(scopes, t, check);
      AcceptedStmts(scopes, t, body);
  }

  lemma DefinitionDescribed(scopes: seq<Scope>, t: Text, name: string, item: Item)
    requires Describes(scopes, t) && name in t.names && item.locator && RecordItem(scopes, name, item).Some?
    ensures Describes(RecordItem(scopes, name, item).value, t)
  {
  }

  lemma {:induction false} AcceptedStmts(scopes: seq<Scope>, t: Text, ss: seq<Stmt>)
    requires Describes(scopes, t) && CheckStmts(scopes, ss).Accepts? && DefinedIn(ss) <= t.names
    ensures StmtsFit(t, ss) && Describes(CheckStmts(scopes, ss).value, t)
    decreases ss
  {
    hide CheckStmt, StmtFits, Describes, DefinedBy;
    if ss != [] {
      AcceptedStmt(scopes, t, ss[0]);
      AcceptedStmts(CheckStmt(scopes, ss[0]).value, t, ss[1..]);
    }
  }

  // ---------------------------------------------------------------- whole programs

  /** Parameters are recorded as names that cannot be assigned to. */
  lemma {:induction false} ParametersRecorded(scopes: seq<Scope>, params: seq<string>)
    requires |scopes| == 2 && RecordAll(scopes, params).Some?
    ensures var r := RecordAll(scopes, params).value;
            && |r| == 2 && r[0] == scopes[0] && r[1].Keys == scopes[1].Keys + ParamNames(params)
            && forall x | x in r[1] && x !in scopes[1] :: r[1][x] == Item(NoExtra, Anything, true, true)
    ensures forall x | x in scopes[1] :: RecordAll(scopes, params).value[1][x] == scopes[1][x]
    decreases params
  {
    if params != [] {
      var more := RecordItem(scopes, params[0], Parameter()).value;
      ParametersRecorded(more, params[1..]);
      assert ParamNames(params) == {params[0]} + ParamNames(params[1..]);
    }
  }

  /** Every declared name has the number of its parameters. */
  lemma {:induction false} DeclaredArities(global: Scope, p: Program)
    requires DeclareAll(global, p).Some?
    ensures var r := DeclareAll(global, p).value;
            && r.Keys == global.Keys + Arities(p).Keys && global.Keys !! Arities(p).Keys
            && (forall x | x in global :: r[x] == global[x])
            && forall x | x in Arities(p) :: r[x] == Declared(Arities(p)[x])
    decreases p
  {
    if p != [] {
      match p[0]
      case Function(f) => DeclaredArities(global[f.name := Declared(|f.params|)], p[1..]);
      case NativeStub(name, params) => DeclaredArities(global[name := Declared(|params|)], p[1..]);
      case Import => DeclaredArities(global, p[1..]);
    }
  }

  lemma FunctionFits(global: Scope, arities: map<string, nat>, f: Fun)
    requires CheckFunction(global, f).Accepts?
    requires global.Keys == arities.Keys && forall x | x in arities :: global[x] == Declared(arities[x])
    ensures var locals := ParamNames(f.params);
            StmtsFit(Text(locals + DefinedIn(f.body), DefinedIn(f.body) - locals, arities), f.body)
  {
    hide CheckStmts, StmtsFit, RecordAll, DefinedIn, ParamNames;
    var locals := ParamNames(f.params);
    var t := Text(locals + DefinedIn(f.body), DefinedIn(f.body) - locals, arities);
    var start: seq<Scope> := [global, map[]];
    ParametersRecorded(start, f.params);
    AcceptedStmts(RecordAll(start, f.params).value, t, f.body);
  }

  lemma {:induction false} BodiesFit(global: Scope, arities: map<string, nat>, p: Program, i: nat)
    requires CheckBodies(global, p).Accepts? && i < |p| && p[i].Function?
    requires global.Keys == arities.Keys && forall x | x in arities :: global[x] == Declared(arities[x])
    ensures var f := p[i].fun;
            var locals := ParamNames(f.params);
            StmtsFit(Text(locals + DefinedIn(f.body), DefinedIn(f.body) - locals, arities), f.body)
    decreases p
  {
    hide CheckFunction, StmtsFit, DefinedIn, ParamNames;
    if i == 0 {
      FunctionFits(global, arities, p[0].fun);
    } else {
      BodiesFit(global, arities, p[1..], i - 1);
    }
  }

  /** In an accepted program, outside of arguments: every name is one of the function's or a
      declared one; a call on a declared name has as many arguments as the declaration has
      parameters; operators do not take sequences and functions, unless the other operand is of
      unknown kind; parameters, functions and values are not assigned to. */
  lemma AcceptedProgramFits(p: Program)
    requires CheckProgram(p).Accepts?
    ensures ProgramFits(p)
  {
    hide CheckBodies, DeclareAll, StmtsFit;
    var global := DeclareAll(map[], p).value;
    DeclaredArities(map[], p);
    forall i | 0 <= i < |p| && p[i].Function? ensures StmtsFit(TextOf(p, p[i].fun), p[i].fun.body) {
      BodiesFit(global, Arities(p), p, i);
    }
  }

  // ---------------------------------------------------------------- what is accepted

  /** Negation takes an operand of unknown kind, a number or a boolean. */
  lemma NegationExactly(scopes: seq<Scope>, e: Expr)
    requires CheckExpr(scopes, e).Accepts?
    ensures CheckExpr(scopes, Unary(Negate, e)).Accepts? <==> CheckExpr(scopes, e).value.kind in {Anything, Primitive}
  {
    hide LookupItem;
  }

  /** Items are read from anything but numbers, booleans and functions, at a place that is no
      sequence or function. */
  lemma AccessExactly(scopes: seq<Scope>, left: Expr, right: Expr)
    requires CheckExpr(scopes, left).Accepts? && CheckExpr(scopes, right).Accepts?
    ensures var a, b := CheckExpr(scopes, left).value.kind, CheckExpr(scopes, right).value.kind;
            CheckExpr(scopes, Binary(Access, left, right)).Accepts? <==> a != Primitive && a != Callable && (b == Anything || b == Primitive)
  {
    hide LookupItem;
    var a := CheckExpr(scopes, left).value.kind;
    assert a in {Anything, Primitive, Callable} || a.FixedSequence? || a.FlexibleSequence?;
  }

  /** Assigned to are names that were defined with `def`, and items. */
  lemma AssignExactly(scopes: seq<Scope>, target: Expr, value: Expr)
    requires CheckExpr(scopes, target).Accepts? && CheckExpr(scopes, value).Accepts?
    ensures CheckExpr(scopes, Assign(target, value)).Accepts?
            <==> CheckExpr(scopes, target).value.locator && !CheckExpr(scopes, target).value.readonly
  {
    hide LookupItem;
  }

  /** A definition is found from then on, with the kind of its value, and may be assigned to. */
  lemma DefinitionExactly(scopes: seq<Scope>, name: string, init: Expr)
    requires scopes != [] && CheckExpr(scopes, init).Accepts?
    ensures var r, item := CheckStmt(scopes, LocalDef(name, init)), CheckExpr(scopes, init).value;
            && (r.Accepts? <==> name !in scopes[|scopes| - 1])
            && (r.Accepts? ==> LookupItem(r.value, name) == Some(Item(item.extra, item.kind, true, false)))
            && (r.Accepts? ==> forall x | x != name :: LookupItem(r.value, x) == LookupItem(scopes, x))
  {
    hide CheckExpr;
    var r := CheckStmt(scopes, LocalDef(name, init));
    if r.Accepts? {
      assert r.value[..|scopes| - 1] == scopes[..|scopes| - 1];
    }
  }

  /** A parameter can be called with no number of arguments: the number is not known. */
  lemma ParameterCall(scopes: seq<Scope>, params: seq<string>, x: string, args: seq<Expr>)
    requires |scopes| == 2 && scopes[1] == map[] && RecordAll(scopes, params).Some? && x in ParamNames(params)
    ensures CheckExpr(RecordAll(scopes, params).value, Call(Literal(TkIdent, x), args)) == Aborts
  {
    hide RecordAll, ParamNames;
    ParametersRecorded(scopes, params);
    CallExactly(RecordAll(scopes, params).value, x, args);
    hide CheckExpr;
  }

  /** Numbers, names, operators and calls of declared functions. `have`: the names so far. */
  predicate PlainExpr(t: Text, have: set<string>, e: Expr) {
    match e
    case Literal(kind, lexeme) => IsNumber(e) || (kind == TkIdent && lexeme in have)
    case Call(callee, args) => IsFunction(t, callee) && |args| == t.arities[callee.lexeme]
    case Unary(uop, inner) => uop == Negate && PlainExpr(t, have, inner)
    case Binary(bop, left, right) => bop.Arith? && PlainExpr(t, have, left) && PlainExpr(t, have, right)
    case _ => false
  }

  predicate PlainStmt(t: Text, have: set<string>, s: Stmt)
    decreases s
  {
    match s
    case ExprStmt(e) =>
      if e.Assign?
      then e.target.Literal? && e.target.kind == TkIdent && e.target.lexeme in have * t.defs && PlainExpr(t, have, e.value)
      else PlainExpr(t, have, e)
    case LocalDef(name, init) => PlainExpr(t, have, init) && name !in have
    case Return(result) => PlainExpr(t, have, result)
    case Break => true
    case If(cond, thn, els) =>
      PlainExpr(t, have, cond) && PlainStmts(t, have, thn) && (els.Else? ==> PlainStmts(t, have + DefinedIn(thn), els.body))
    case While(check, body) => PlainExpr(t, have, check) && PlainStmts(t, have, body)
  }

  predicate PlainStmts(t: Text, have: set<string>, ss: seq<Stmt>)
    decreases ss
  {
    ss == [] || (PlainStmt(t, have, ss[0]) && PlainStmts(t, have + DefinedBy(ss[0]), ss[1..]))
  }

  function NameOf(d: Decl): string
    requires !d.Import?
  {
    match d
    case Function(f) => f.name
    case NativeStub(name, _) => name
  }

  predicate DeclaredOnce(p: Program) {
    p == [] || ((p[0].Import? || NameOf(p[0]) !in Arities(p[1..])) && DeclaredOnce(p[1..]))
  }

  predicate PlainProgram(p: Program) {
    && DeclaredOnce(p)
    && forall i | 0 <= i < |p| && p[i].Function? ::
         Distinct(p[i].fun.params) && PlainStmts(TextOf(p, p[i].fun), ParamNames(p[i].fun.params), p[i].fun.body)
  }

  /** The names so far are recorded, none with a kind that operators refuse. */
  ghost predicate Ready(scopes: seq<Scope>, t: Text, have: set<string>) {
    && Describes(scopes, t) && scopes[1].Keys == have
    && forall x | x in scopes[1] :: scopes[1][x].kind in {Anything, Primitive} && (x in t.defs ==> !scopes[1][x].readonly)
  }

  lemma ReadyName(scopes: seq<Scope>, t: Text, have: set<string>, name: string)
    requires Ready(scopes, t, have)
    ensures name in have ==> LookupItem(scopes, name) == Some(scopes[1][name]) && scopes[1][name].kind in {Anything, Primitive}
    ensures name in have && name in t.defs ==> Assignable(LookupItem(scopes, name).value)
  {
  }

  lemma {:induction false} PlainAccepted(scopes: seq<Scope>, t: Text, have: set<string>, e: Expr)
    requires Ready(scopes, t, have) && PlainExpr(t, have, e)
    ensures CheckExpr(scopes, e).Accepts? && CheckExpr(scopes, e).value.kind in {Anything, Primitive}
    decreases e
  {
    hide Ready, Describes, LookupItem, LiteralValue;
    match e
    case Literal(kind, lexeme) =>
      NumberAccepted(scopes, e);
      ReadyName(scopes, t, have, lexeme);
    case Call(callee, args) =>
      assert Describes(scopes, t) by { ReadyDescribes(scopes, t, have); }
      Found(scopes, t, callee.lexeme);
      CallExactly(scopes, callee.lexeme, args);
    case Unary(_, inner) => PlainAccepted(scopes, t, have, inner);
    case Binary(_, left, right) =>
      PlainAccepted(scopes, t, have, left);
      PlainAccepted(scopes, t, have, right);
  }

  lemma ReadyDescribes(scopes: seq<Scope>, t: Text, have: set<string>)
    requires Ready(scopes, t, have)
    ensures Describes(scopes, t)
  {
  }

  lemma NumberAccepted(scopes: seq<Scope>, e: Expr)
    ensures IsNumber(e) ==> CheckExpr(scopes, e).Accepts? && CheckExpr(scopes, e).value.kind == Primitive
  {
  }

  lemma {:induction false} PlainStmtAccepted(scopes: seq<Scope>, t: Text, have: set<string>, s: Stmt)
    requires Ready(scopes, t, have) && PlainStmt(t, have, s) && DefinedBy(s) <= t.names
    ensures CheckStmt(scopes, s).Accepts? && Ready(CheckStmt(scopes, s).value, t, have + DefinedBy(s))
    decreases s
  {
    hide Ready, Describes, CheckExpr, PlainExpr, LookupItem;
    match s
    case ExprStmt(e) =>
      assert have + DefinedBy(s) == have;
      if e.Assign? {
        PlainAccepted(scopes, t, have, e.value);
        AssignAccepted(scopes, t, have, e);
      } else {
        PlainAccepted(scopes, t, have, e);
      }
    case Return(result) =>
      assert have + DefinedBy(s) == have;
      PlainAccepted(scopes, t, have, result);
    case Break => assert have + DefinedBy(s) == have;
    case LocalDef(name, init) =>
      PlainAccepted(scopes, t, have, init);
      DefinitionReady(scopes, t, have, name, ToLvalue(CheckExpr(scopes, init).value));
    case If(cond, thn, els) =>
      PlainAccepted(scopes, t, have, cond);
      PlainStmtsAccepted(scopes, t, have, thn);
      if els.Else? {
        PlainStmtsAccepted(CheckStmts(scopes, thn).value, t, have + DefinedIn(thn), els.body);
        assert have + DefinedBy(s) == have + DefinedIn(thn) + DefinedIn(els.body);
      } else {
        assert have + DefinedBy(s) == have + DefinedIn(thn);
      }
    case While(check, body) =>
      PlainAccepted(scopes, t, have, check);
      PlainStmtsAccepted(scopes, t, have, body);
  }

  lemma AssignAccepted(scopes: seq<Scope>, t: Text, have: set<string>, e: Expr)
    requires Ready(scopes, t, have) && e.Assign? && e.target.Literal? && e.target.kind == TkIdent && e.target.lexeme in have * t.defs
    requires CheckExpr(scopes, e.value).Accepts?
    ensures CheckExpr(scopes, e).Accepts?
  {
    ReadyName(scopes, t, have, e.target.lexeme);
    hide Ready, LookupItem;
    assert CheckExpr(scopes, e.target) == Accepts(LookupItem(scopes, e.target.lexeme).value);
    AssignExactly(scopes, e.target, e.value);
  }

  lemma DefinitionReady(scopes: seq<Scope>, t: Text, have: set<string>, name: string, item: Item)
    requires Ready(scopes, t, have) && name in t.names && name !in have && item.kind in {Anything, Primitive}
    requires item.locator && !item.readonly
    ensures RecordItem(scopes, name, item).Some? && Ready(RecordItem(scopes, name, item).value, t, have + {name})
  {
  }

  lemma {:induction false} PlainStmtsAccepted(scopes: seq<Scope>, t: Text, have: set<string>, ss: seq<Stmt>)
    requires Ready(scopes, t, have) && PlainStmts(t, have, ss) && DefinedIn(ss) <= t.names
    ensures CheckStmts(scopes, ss).Accepts? && Ready(CheckStmts(scopes, ss).value, t, have + DefinedIn(ss))
    decreases ss
  {
    hide Ready, CheckStmt, PlainStmt, DefinedBy;
    if ss == [] {
      assert have + DefinedIn(ss) == have;
    } else {
      PlainStmtAccepted(scopes, t, have, ss[0]);
      PlainStmtsAccepted(CheckStmt(scopes, ss[0]).value, t, have + DefinedBy(ss[0]), ss[1..]);
      assert have + DefinedIn(ss) == have + DefinedBy(ss[0]) + DefinedIn(ss[1..]);
    }
  }

  /** The first pass fails exactly if a name is declared twice. */
  lemma {:induction false} DeclaredExactly(global: Scope, p: Program)
    ensures DeclareAll(global, p).Some? <==> DeclaredOnce(p) && global.Keys !! Arities(p).Keys
    decreases p
  {
    if p != [] {
      match p[0]
      case Function(f) => DeclaredExactly(global[f.name := Declared(|f.params|)], p[1..]);
      case NativeStub(name, params) => DeclaredExactly(global[name := Declared(|params|)], p[1..]);
      case Import => DeclaredExactly(global, p[1..]);
    }
  }

  lemma PlainFunctionAccepted(global: Scope, arities: map<string, nat>, f: Fun)
    requires global.Keys == arities.Keys && forall x | x in arities :: global[x] == Declared(arities[x])
    requires Distinct(f.params)
    requires var locals := ParamNames(f.params);
             PlainStmts(Text(locals + DefinedIn(f.body), DefinedIn(f.body) - locals, arities), locals, f.body)
    ensures CheckFunction(global, f).Accepts?
  {
    hide CheckStmts, PlainStmts, RecordAll, DefinedIn, ParamNames, Distinct;
    var locals := ParamNames(f.params);
    var t := Text(locals + DefinedIn(f.body), DefinedIn(f.body) - locals, arities);
    var start: seq<Scope> := [global, map[]];
    RecordAllExactly(start, f.params);
    ParametersRecorded(start, f.params);
    PlainStmtsAccepted(RecordAll(start, f.params).value, t, locals, f.body);
  }

  lemma {:induction false} PlainBodiesAccepted(global: Scope, arities: map<string, nat>, p: Program, whole: Program)
    requires global.Keys == arities.Keys && (forall x | x in arities :: global[x] == Declared(arities[x])) && arities == Arities(whole)
    requires forall i | 0 <= i < |p| && p[i].Function? ::
               Distinct(p[i].fun.params) && PlainStmts(TextOf(whole, p[i].fun), ParamNames(p[i].fun.params), p[i].fun.body)
    ensures CheckBodies(global, p).Accepts?
    decreases p
  {
    hide CheckFunction, PlainStmts, DefinedIn, ParamNames, Arities, Distinct;
    if p != [] {
      if p[0].Function? {
        PlainFunctionAccepted(global, arities, p[0].fun);
      }
      forall i | 0 <= i < |p[1..]| && p[1..][i].Function?
        ensures Distinct(p[1..][i].fun.params)
                && PlainStmts(TextOf(whole, p[1..][i].fun), ParamNames(p[1..][i].fun.params), p[1..][i].fun.body)
      {
        assert p[1..][i] == p[i + 1];
      }
      PlainBodiesAccepted(global, arities, p[1..], whole);
    }
  }

  /** Programs over numbers and booleans are accepted: names declared once, every name known from
      its definition on, calls of declared functions with the declared number of arguments,
      assignments to definitions. */
  lemma PlainProgramAccepted(p: Program)
    requires PlainProgram(p)
    ensures CheckProgram(p).Accepts?
  {
    hide CheckBodies, DeclareAll, PlainStmts, DeclaredOnce, Distinct;
    DeclaredExactly(map[], p);
    DeclaredArities(map[], p);
    PlainBodiesAccepted(DeclareAll(map[], p).value, Arities(p), p, p);
  }

  // ---------------------------------------------------------------- calls in arguments

  const PAIR := Fun("pair", ["a", "b"], [Return(Literal(TkIdent, "a"))])
  const ONE := Fun("one", ["a"], [Return(Literal(TkIdent, "a"))])
  /** `return one(pair(1))`, where `pair` has two parameters. */
  const INNER := Call(Literal(TkIdent, "pair"), [Literal(TkInt, "1")])
  const MAIN := Fun("main", [], [Return(Call(Literal(TkIdent, "one"), [INNER]))])
  const NESTED: Program := [Function(PAIR), Function(ONE), Function(MAIN)]

  const GLOBALS: Scope := map["pair" := Declared(2), "one" := Declared(1), "main" := Declared(0)]

  lemma NestedNames()
    ensures DeclareAll(map[], NESTED) == Some(GLOBALS) && "pair" != "one" && "a" != "b"
  {
    assert |"pair"| == 4 && |"one"| == 3 && |"main"| == 4 && "pair"[0] != "main"[0] && "a"[0] != "b"[0];
    assert NESTED[1..] == [Function(ONE), Function(MAIN)] && NESTED[1..][1..] == [Function(MAIN)] && NESTED[1..][1..][1..] == [];
    assert DeclareAll(GLOBALS, []) == Some(GLOBALS);
    var g2: Scope := map["pair" := Declared(2), "one" := Declared(1)];
    assert DeclareAll(g2, [Function(MAIN)]) == Some(GLOBALS) by { assert g2["main" := Declared(0)] == GLOBALS; }
    var g1: Scope := map["pair" := Declared(2)];
    assert DeclareAll(g1, NESTED[1..]) == Some(GLOBALS) by { assert g1["one" := Declared(1)] == g2; }
  }

  /** A body that returns its first parameter. */
  lemma FirstReturned(f: Fun)
    requires f.params == ["a"] || f.params == ["a", "b"]
    requires f.body == [Return(Literal(TkIdent, "a"))]
    ensures CheckFunction(GLOBALS, f).Accepts?
  {
    NestedNames();
    var start: seq<Scope> := [GLOBALS, map[]];
    var one: seq<Scope> := start[1 := start[1]["a" := Parameter()]];
    var two: seq<Scope> := one[1 := one[1]["b" := Parameter()]];
    assert RecordItem(start, "a", Parameter()) == Some(one) && RecordItem(one, "b", Parameter()) == Some(two);
    assert ["a"][1..] == [] && ["a", "b"][1..] == ["b"] && ["b"][1..] == [];
    assert RecordAll(one, []) == Some(one) && RecordAll(two, []) == Some(two) && RecordAll(one, ["b"]) == Some(two);
    ReturnAccepted(one, f.body[0]);
    ReturnAccepted(two, f.body[0]);
  }

  lemma ReturnAccepted(scopes: seq<Scope>, s: Stmt)
    requires s.Return? && CheckExpr(scopes, s.result).Accepts?
    ensures CheckStmts(scopes, [s]).Accepts?
  {
    assert [s][1..] == [];
    hide CheckExpr;
  }

  /** The wrong number of arguments goes unnoticed inside an argument. */
  lemma ArgumentCallUnchecked()
    ensures CheckProgram(NESTED).Accepts? && Arities(NESTED)["pair"] == 2 != |INNER.args|
  {
    NestedNames();
    FirstReturned(PAIR);
    FirstReturned(ONE);
    MainAccepted();
    assert NESTED[1..] == [Function(ONE), Function(MAIN)] && NESTED[1..][1..] == [Function(MAIN)] && NESTED[1..][1..][1..] == [];
    hide CheckFunction;
    assert CheckBodies(GLOBALS, []).Accepts?;
    assert CheckBodies(GLOBALS, [Function(MAIN)]).Accepts?;
    assert CheckBodies(GLOBALS, NESTED[1..]).Accepts?;
    assert |"main"| != |"one"| && Arities([Function(MAIN)]) == map["main" := 0] by { assert Arities([]) == map[]; }
  }

  lemma MainAccepted()
    ensures CheckFunction(GLOBALS, MAIN).Accepts?
  {
    NestedNames();
    var scopes: seq<Scope> := [GLOBALS, map[]];
    assert scopes[..1] == [GLOBALS];
    assert LookupItem([GLOBALS], "one") == Some(Declared(1)) && LookupItem(scopes, "one") == Some(Declared(1));
    CallExactly(scopes, "one", [INNER]);
    ReturnAccepted(scopes, MAIN.body[0]);
  }
}
