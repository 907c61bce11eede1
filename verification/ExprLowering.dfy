/** What lowering an expression appends to the newest basic block
    (src/ir/convert_ast.cpp:89-423), as a function of the name tables, the constant pool
    and the next free temporary. A failing expression leaves the steps already emitted. */
module ExprLowering {
  import opened Values
  import opened Syntax
  import opened Ir

  datatype Option<+T> = None | Some(value: T)

  /** `natives`: registered native procedures; `locals`: the flat table of the function. */
  datatype Names = Names(natives: map<string, int>, locals: map<string, Addr>)

  /** `globals` interns literals by lexeme and also holds the function names. */
  datatype Pool = Pool(globals: map<string, Addr>, consts: seq<Value>)

  datatype Lowered = Lowered(steps: seq<Ir.Step>, addr: Option<Addr>, pool: Pool, next: int, errors: nat)

  function Lookup(nm: Names, pool: Pool, name: string): Option<Addr> {
    if name in nm.natives then Some(Addr(Constant, nm.natives[name]))
    else if name in pool.globals then Some(pool.globals[name])
    else if name in nm.locals then Some(nm.locals[name])
    else None
  }

  function Intern(pool: Pool, lexeme: string, v: Value): (Addr, Pool) {
    if lexeme in pool.globals then (pool.globals[lexeme], pool)
    else
      var aa := Addr(Constant, |pool.consts|);
      (aa, Pool(pool.globals[lexeme := aa], pool.consts + [v]))
  }

  function LowerExpr(nm: Names, e: Expr, pool: Pool, n: int): Lowered
    decreases e
  {
    match e
    case Literal(kind, lexeme) =>
      (match kind
       case TkIdent => Lowered([], Lookup(nm, pool, lexeme), pool, n, 0)
       case TkOther => Lowered([], None, pool, n, 1)
       case _ =>
         var (aa, pool') := Intern(pool, lexeme, LiteralValue(kind, lexeme));
         Lowered([], Some(aa), pool', n, 0))
    case Sequence(items, isTuple) =>
      var dest := TempAt(n);
      var r := LowerItems(nm, items, dest, pool, n + 1);
      var made := [OperUnary(dest, MakeSeq)] + r.steps;
      if r.addr.None? then r.(steps := made)
      else r.(steps := if isTuple then made + [OperUnary(dest, FrzSeqObj)] else made)
    case Lambda => Lowered([], None, pool, n, 0)
    case Call(callee, args) =>
      var c := LowerExpr(nm, callee, pool, n);
      if c.addr.None? then c else
      var r := LowerArgs(nm, args, c.pool, c.next);
      var steps := c.steps + r.steps;
      var errors := c.errors + r.errors;
      if r.addr.None? then Lowered(steps, None, r.pool, r.next, errors) else
      var op := if c.addr.value.tag == Immediate then CallOp else NativeCall;
      Lowered(steps + [OperBinary(Imm(c.addr.value.id), Imm(|args|), op)],
              Some(TempAt(r.next - |args|)), r.pool, r.next, errors)
    case Unary(uop, inner) =>
      var r := LowerExpr(nm, inner, pool, n);
      if r.addr.None? then r
      else if uop == Negate then r.(steps := r.steps + [TacNeg(r.addr.value, r.addr.value)])
      else r.(addr := None, errors := r.errors + 1)
    case Binary(bop, left, right) =>
      var l := LowerExpr(nm, left, pool, n);
      var r := LowerExpr(nm, right, l.pool, l.next);
      var steps := l.steps + r.steps;
      var errors := l.errors + r.errors;
      if l.addr.None? || r.addr.None? then Lowered(steps, None, r.pool, r.next, errors) else
      var dest := TempAt(r.next);
      (match bop
       case Arith(op) =>
         Lowered(steps + [TacBinary(dest, l.addr.value, r.addr.value, op)], Some(dest), r.pool, r.next + 1, errors)
       case Access =>
         Lowered(steps + [OperTernary(dest, l.addr.value, r.addr.value, SeqObjGet)], Some(dest), r.pool, r.next + 1, errors)
       case _ => Lowered(steps, None, r.pool, r.next, errors + 1))
    case Assign(target, value) =>
      var l := LowerExpr(nm, target, pool, n);
      var r := LowerExpr(nm, value, l.pool, l.next);
      var steps := l.steps + r.steps;
      var errors := l.errors + r.errors;
      if l.addr.None? || r.addr.None? then Lowered(steps, None, r.pool, r.next, errors)
      else Lowered(steps + [TacMove(l.addr.value, r.addr.value)], l.addr, r.pool, r.next, errors)
  }

  /** The items of a sequence literal, each pushed onto `dest` as soon as it is evaluated. */
  function LowerItems(nm: Names, items: seq<Expr>, dest: Addr, pool: Pool, n: int): Lowered
    decreases items
  {
    if items == [] then Lowered([], Some(dest), pool, n, 0)
    else
      var h := LowerExpr(nm, items[0], pool, n);
      if h.addr.None? then h else
      var t := LowerItems(nm, items[1..], dest, h.pool, h.next);
      t.(steps := h.steps + [OperTernary(dest, h.addr.value, Imm(1), SeqObjPush)] + t.steps,
         errors := h.errors + t.errors)
  }

  /** Call arguments, each moved to a new temporary. */
  function LowerArgs(nm: Names, args: seq<Expr>, pool: Pool, n: int): Lowered
    decreases args
  {
    if args == [] then Lowered([], Some(Imm(0)), pool, n, 0)
    else
      var h := LowerExpr(nm, args[0], pool, n);
      if h.addr.None? then h else
      var t := LowerArgs(nm, args[1..], h.pool, h.next + 1);
      t.(steps := h.steps + [TacMove(TempAt(h.next), h.addr.value)] + t.steps,
         errors := h.errors + t.errors)
  }
}
