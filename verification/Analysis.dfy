/** The semantic analyzer (src/semantics/analyzer.cpp): what it accepts, as functions on the
    scope stack. Blocks open no scope: a function body has one flat table. */
module Analysis {
  import opened Values
  import opened Syntax
  import opened ExprLowering

  datatype EntityKind = Anything | Primitive | FixedSequence | FlexibleSequence | Callable

  datatype Extra = NoExtra | BoolExtra(b: bool) | IntExtra(i: int) | DoubleExtra(r: real)

  datatype Item = Item(extra: Extra, kind: EntityKind, locator: bool, readonly: bool)

  type Scope = map<string, Item>

  /** `Aborts`: an exception leaves a function declared not to throw. */
  datatype Verdict<+T> = Accepts(value: T) | Rejects | Aborts

  function ToLvalue(item: Item): Item {
    Item(item.extra, item.kind, true, false)
  }

  /** The innermost scope that has the name. */
  function LookupItem(scopes: seq<Scope>, name: string): (r: Option<Item>)
    ensures r.Some? <==> exists i :: 0 <= i < |scopes| && name in scopes[i]
  {
    if scopes == [] then None
    else if name in scopes[|scopes| - 1] then Some(scopes[|scopes| - 1][name])
    else LookupItem(scopes[..|scopes| - 1], name)
  }

  /** The operator table: primitives and unknown kinds take all operators but access and
      assignment, sequences only those two. */
  predicate Supports(kind: EntityKind, op: Operator) {
    match kind
    case Anything => op != AssignOp
    case Primitive => op != AssignOp && op != Access
    case FixedSequence => op == AssignOp || op == Access
    case FlexibleSequence => op == AssignOp || op == Access
    case Callable => op == AssignOp
  }

  predicate OperandsFit(op: Operator, a: EntityKind, b: EntityKind) {
    if op.Arith? then a == Anything || b == Anything || (Supports(a, op) && Supports(b, op))
    else a in {Anything, FixedSequence, FlexibleSequence} && b in {Anything, Primitive}
  }

  predicate Assignable(item: Item) {
    !item.readonly && item.locator
  }

  function Temporary(): Item {
    Item(NoExtra, Anything, false, true)
  }

  function CheckLiteral(scopes: seq<Scope>, kind: TokenKind, lexeme: string): Verdict<Item> {
    match kind
    case TkTrue => Accepts(Item(BoolExtra(lexeme == "true"), Primitive, false, true))
    case TkFalse => Accepts(Item(BoolExtra(lexeme == "true"), Primitive, false, true))
    case TkInt =>
      (match LiteralValue(kind, lexeme)
       case Int(i) => Accepts(Item(IntExtra(i), Primitive, false, true))
       case _ => Rejects)
    case TkDouble =>
      (match LiteralValue(kind, lexeme)
       case Flt(r) => Accepts(Item(DoubleExtra(r), Primitive, false, true))
       case _ => Rejects)
    case _ => if LookupItem(scopes, lexeme).Some? then Accepts(LookupItem(scopes, lexeme).value) else Rejects
  }

  /** Neither operand is accepted before the other has been looked at. */
  function Both(a: Verdict<Item>, b: Verdict<Item>): Verdict<(Item, Item)> {
    match (a, b)
    case (Aborts, _) => Aborts
    case (_, Aborts) => Aborts
    case (Accepts(x), Accepts(y)) => Accepts((x, y))
    case _ => Rejects
  }

  function CheckExpr(scopes: seq<Scope>, e: Expr): Verdict<Item>
    decreases e
  {
    match e
    case Literal(kind, lexeme) => CheckLiteral(scopes, kind, lexeme)
    case Sequence(items, isTuple) =>
      (match CheckItems(scopes, items)
       case Accepts(_) => Accepts(Item(NoExtra, if isTuple then FixedSequence else FlexibleSequence, false, isTuple))
       case Rejects => Rejects
       case Aborts => Aborts)
    case Lambda => Rejects
    case Call(callee, args) =>
      // The arguments are not looked at.
      (match CheckExpr(scopes, callee)
       case Accepts(c) =>
         if c.kind != Anything && c.kind != Callable then Rejects
         else if !c.extra.IntExtra? then Aborts
         else if c.extra.i != |args| then Rejects
         else Accepts(Temporary())
       case Rejects => Rejects
       case Aborts => Aborts)
    case Unary(uop, inner) =>
      (match CheckExpr(scopes, inner)
       case Accepts(i) => if Supports(i.kind, uop) then Accepts(Temporary()) else Rejects
       case Rejects => Rejects
       case Aborts => Aborts)
    case Binary(bop, left, right) =>
      (match Both(CheckExpr(scopes, left), CheckExpr(scopes, right))
       case Accepts((a, b)) =>
         if !OperandsFit(bop, a.kind, b.kind) then Rejects
         else if bop.Arith? then Accepts(Temporary())
         else Accepts(Item(NoExtra, Anything, true, false))
       case Rejects => Rejects
       case Aborts => Aborts)
    case Assign(target, value) =>
      (match Both(CheckExpr(scopes, target), CheckExpr(scopes, value))
       case Accepts((t, _)) => if Assignable(t) then Accepts(Temporary()) else Rejects
       case Rejects => Rejects
       case Aborts => Aborts)
  }

  function CheckItems(scopes: seq<Scope>, items: seq<Expr>): Verdict<()>
    decreases items
  {
    if items == [] then Accepts(())
    else
      match CheckExpr(scopes, items[0])
      case Accepts(_) => CheckItems(scopes, items[1..])
      case Rejects => Rejects
      case Aborts => Aborts
  }

  /** Record a name in the innermost scope; it must be new there. */
  function RecordItem(scopes: seq<Scope>, name: string, item: Item): Option<seq<Scope>> {
    if scopes == [] || name in scopes[|scopes| - 1] then None
    else Some(scopes[|scopes| - 1 := scopes[|scopes| - 1][name := item]])
  }

  /** The scopes after a statement. */
  function CheckStmt(scopes: seq<Scope>, s: Stmt): Verdict<seq<Scope>>
    decreases s
  {
    match s
    case ExprStmt(e) => Then(CheckExpr(scopes, e), scopes)
    case LocalDef(name, init) =>
      (match CheckExpr(scopes, init)
       case Accepts(item) =>
         (match RecordItem(scopes, name, ToLvalue(item))
          case None => Rejects
          case Some(more) => Accepts(more))
       case Rejects => Rejects
       case Aborts => Aborts)
    case If(cond, thn, els) =>
      (match CheckExpr(scopes, cond)
       case Accepts(_) =>
         (match CheckStmts(scopes, thn)
          case Accepts(after) => if els.NoElse? then Accepts(after) else CheckStmts(after, els.body)
          case Rejects => Rejects
          case Aborts => Aborts)
       case Rejects => Rejects
       case Aborts => Aborts)
    case Return(result) => Then(CheckExpr(scopes, result), scopes)
    case While(check, body) =>
      (match CheckExpr(scopes, check)
       case Accepts(_) => CheckStmts(scopes, body)
       case Rejects => Rejects
       case Aborts => Aborts)
    case Break => Accepts(scopes)
  }

  function Then(v: Verdict<Item>, scopes: seq<Scope>): Verdict<seq<Scope>> {
    match v
    case Accepts(_) => Accepts(scopes)
    case Rejects => Rejects
    case Aborts => Aborts
  }

  function CheckStmts(scopes: seq<Scope>, ss: seq<Stmt>): Verdict<seq<Scope>>
    decreases ss
  {
    if ss == [] then Accepts(scopes)
    else
      match CheckStmt(scopes, ss[0])
      case Accepts(after) => CheckStmts(after, ss[1..])
      case Rejects => Rejects
      case Aborts => Aborts
  }

  function Parameter(): Item {
    Item(NoExtra, Anything, true, true)
  }

  function RecordAll(scopes: seq<Scope>, params: seq<string>): Option<seq<Scope>>
    decreases params
  {
    if params == [] then Some(scopes)
    else
      match RecordItem(scopes, params[0], Parameter())
      case None => None
      case Some(more) => RecordAll(more, params[1..])
  }

  /** A function body in a scope of its own over the globals. */
  function CheckFunction(global: Scope, f: Fun): Verdict<seq<Scope>> {
    match RecordAll([global, map[]], f.params)
    case None => Rejects
    case Some(scopes) => CheckStmts(scopes, f.body)
  }

  /** First pass: every function and native stub is recorded with its arity. */
  function DeclareAll(global: Scope, p: Program): Option<Scope>
    decreases p
  {
    if p == [] then Some(global)
    else
      match p[0]
      case Import => DeclareAll(global, p[1..])
      case Function(f) => if f.name in global then None else DeclareAll(global[f.name := Declared(|f.params|)], p[1..])
      case NativeStub(name, params) => if name in global then None else DeclareAll(global[name := Declared(|params|)], p[1..])
  }

  function Declared(arity: nat): Item {
    Item(IntExtra(arity), Callable, true, true)
  }

  function CheckBodies(global: Scope, p: Program): Verdict<()> {
    if p == [] then Accepts(())
    else if !p[0].Function? then CheckBodies(global, p[1..])
    else
      match CheckFunction(global, p[0].fun)
      case Accepts(_) => CheckBodies(global, p[1..])
      case Rejects => Rejects
      case Aborts => Aborts
  }

  function CheckProgram(p: Program): Verdict<()> {
    match DeclareAll(map[], p)
    case None => Rejects
    case Some(global) => CheckBodies(global, p)
  }
}
