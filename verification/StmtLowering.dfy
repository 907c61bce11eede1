/** Lowering statements to basic blocks and pending links (src/ir/convert_ast.cpp:425-790).
    A fragment of blocks continues the newest block with its first member. Failures stop
    only the innermost block, as in the code: `emit_if` and `emit_while` go on. */
module StmtLowering {
  import opened Values
  import opened Syntax
  import opened ExprLowering
  import opened Ir

  type Block = seq<Ir.Step>

  datatype Link = Link(from: int, to: int)

  /** `blocks` is never empty; `ok`: what the C++ method returns. */
  datatype Emitted = Emitted(
    blocks: seq<Block>, links: seq<Link>, nm: Names, pool: Pool, next: int, errors: nat, ok: bool)

  /** Put `b` after `a`: the first block of `b` continues the last of `a`. */
  function Glue(a: seq<Block>, b: seq<Block>): (r: seq<Block>)
    requires a != [] && b != []
    ensures r != [] && |r| == |a| + |b| - 1
  {
    a[..|a| - 1] + [a[|a| - 1] + b[0]] + b[1..]
  }

  lemma GlueAssoc(a: seq<Block>, b: seq<Block>, c: seq<Block>)
    requires a != [] && b != [] && c != []
    ensures Glue(Glue(a, b), c) == Glue(a, Glue(b, c))
  {
    var l, r := Glue(Glue(a, b), c), Glue(a, Glue(b, c));
    if |b| == 1 {
      assert (a[|a| - 1] + b[0]) + c[0] == a[|a| - 1] + (b[0] + c[0]);
    }
    assert forall i | 0 <= i < |l| :: l[i] == r[i];
  }

  lemma GlueUnit(a: seq<Block>)
    requires a != []
    ensures Glue(a, [[]]) == a && Glue([[]], a) == a
  {
    assert a[|a| - 1] + [] == a[|a| - 1] && [] + a[0] == a[0];
  }

  /** All steps in block order. */
  function Flat(blocks: seq<Block>): seq<Ir.Step> {
    if blocks == [] then [] else blocks[0] + Flat(blocks[1..])
  }

  lemma {:induction false} FlatGlue(a: seq<Block>, b: seq<Block>)
    requires a != [] && b != []
    ensures Flat(Glue(a, b)) == Flat(a) + Flat(b)
  {
    if |a| == 1 {
      assert Glue(a, b) == [a[0] + b[0]] + b[1..];
      assert Flat(a) == a[0] + Flat([]);
      assert a[0] + b[0] + Flat(b[1..]) == a[0] + (b[0] + Flat(b[1..]));
    } else {
      FlatGlue(a[1..], b);
      assert Glue(a, b)[1..] == Glue(a[1..], b);
      assert a[0] + (Flat(a[1..]) + Flat(b)) == a[0] + Flat(a[1..]) + Flat(b);
    }
  }

  function Start(nm: Names, pool: Pool, n: int): Emitted {
    Emitted([[]], [], nm, pool, n, 0, true)
  }

  function Emit(e: Emitted, steps: seq<Ir.Step>): (r: Emitted)
    requires e.blocks != []
    ensures r.blocks != []
  {
    e.(blocks := Glue(e.blocks, [steps]))
  }

  function AddBlock(e: Emitted): (r: Emitted)
    requires e.blocks != []
    ensures r.blocks != []
  {
    e.(blocks := Glue(e.blocks, [[], []]))
  }

  function Connect(e: Emitted, from: int, to: int): (r: Emitted)
    ensures r.blocks == e.blocks
  {
    e.(links := e.links + [Link(from, to)])
  }

  /** An expression evaluated at this point. */
  function Evaluate(e: Emitted, r: Lowered): Emitted
    requires e.blocks != []
  {
    Emit(e, r.steps).(pool := r.pool, next := r.next, errors := e.errors + r.errors)
  }

  function Join(a: Emitted, b: Emitted): (r: Emitted)
    requires a.blocks != [] && b.blocks != []
    ensures r.blocks != []
  {
    Emitted(Glue(a.blocks, b.blocks), a.links + b.links, b.nm, b.pool, b.next, a.errors + b.errors, b.ok)
  }

  function Meta(m: Meta): Ir.Step { OperNonary(m) }

  function JumpStep(): Ir.Step { OperUnary(Imm(0), Jump) }

  function JumpElseStep(check: Addr): Ir.Step { OperBinary(check, Imm(0), JumpElse) }

  /** From the start of an `if` to its branch. */
  function BeginIf(nm: Names, pool: Pool, n: int, r: Lowered): (e: Emitted)
    requires r.addr.Some?
    ensures e.blocks != []
  {
    var e := Evaluate(Emit(Start(nm, pool, n), [Meta(BeginIfElse)]), r);
    Emit(Emit(e, [JumpElseStep(r.addr.value)]), [Meta(MarkIfElseCheck)])
  }

  /** After the only branch. */
  function EndIf(e: Emitted, here: int, tId: int): (e': Emitted)
    requires e.blocks != []
    ensures e'.blocks != []
  {
    var post := here + |e.blocks|;
    var done := Emit(Emit(AddBlock(e), [Meta(Pass)]), [Meta(EndIfElse)]);
    Connect(Connect(done, tId, post), here, post).(ok := true)
  }

  /** Between the branches. */
  function BeginElse(e: Emitted): (e': Emitted)
    requires e.blocks != []
    ensures e'.blocks != []
  {
    Emit(Emit(Emit(e, [JumpStep()]), [Meta(MarkIfElseAlt)]), [Meta(Pass)])
  }

  /** After the second branch. */
  function EndElse(e: Emitted, here: int, fId: int): (e': Emitted)
    requires e.blocks != []
    ensures e'.blocks != []
  {
    var done := AddBlock(Connect(Emit(Emit(e, [Meta(Pass)]), [Meta(EndIfElse)]), here, fId));
    Connect(done, fId, here + |done.blocks| - 1).(ok := true)
  }

  /** From the start of a loop to its exit test. */
  function BeginLoop(nm: Names, pool: Pool, n: int, r: Lowered): (e: Emitted)
    requires r.addr.Some?
    ensures e.blocks != []
  {
    var e := Evaluate(Emit(Emit(Start(nm, pool, n), [Meta(BeginWhile)]), [Meta(Pass)]), r);
    Emit(Emit(e, [JumpElseStep(r.addr.value)]), [Meta(MarkWhileCheck)])
  }

  /** After the loop body. */
  function EndLoop(e: Emitted, here: int, bId: int): (e': Emitted)
    requires e.blocks != []
    ensures e'.blocks != []
  {
    var back := Emit(Emit(e, [JumpStep()]), [Meta(MarkContinue)]);
    var done := Emit(Emit(AddBlock(Connect(Connect(back, bId, here), here, bId)), [Meta(Pass)]), [Meta(EndWhile)]);
    Connect(done, here, here + |done.blocks| - 1).(ok := true)
  }

  /** `here`: id of the newest block before the statement. */
  function LowerStmt(s: Stmt, nm: Names, pool: Pool, n: int, here: int): (e: Emitted)
    ensures e.blocks != []
    decreases s
  {
    var start := Start(nm, pool, n);
    match s
    case ExprStmt(expr) =>
      var r := LowerExpr(nm, expr, pool, n);
      Evaluate(start, r).(ok := r.addr.Some?)
    case LocalDef(name, init) =>
      var r := LowerExpr(nm, init, pool, n);
      var e := Evaluate(start, r).(next := r.next + 1);
      if r.addr.None? then e.(ok := false) else
      var moved := Emit(e, [TacMove(TempAt(r.next), r.addr.value)]);
      if name in nm.locals then moved.(errors := e.errors + 1, ok := false)
      else moved.(nm := nm.(locals := nm.locals[name := TempAt(r.next)]))
    case Return(result) =>
      var r := LowerExpr(nm, result, pool, n);
      if r.addr.None? then Evaluate(start, r).(ok := false)
      else Emit(Evaluate(start, r), [OperUnary(r.addr.value, Ret)])
    case Break => Emit(Emit(start, [JumpStep()]), [Meta(MarkBreak)])
    case If(cond, thn, els) =>
      var r := LowerExpr(nm, cond, pool, n);
      if r.addr.None? then Evaluate(Emit(start, [Meta(BeginIfElse)]), r).(ok := false) else
      var e := BeginIf(nm, pool, n, r);
      var t := LowerBlock(thn, e.nm, e.pool, e.next, here);
      var tId := if t.ok then here + 1 else -1;
      var e' := Connect(Join(e, t), here, tId);
      if els.NoElse? then EndIf(e', here, tId) else
      var alt := BeginElse(e');
      var elseHere := here + |alt.blocks| - 1;
      var f := LowerBlock(els.body, alt.nm, alt.pool, alt.next, elseHere);
      EndElse(Join(alt, f), here, if f.ok then elseHere + 1 else -1)
    case While(check, body) =>
      var r := LowerExpr(nm, check, pool, n);
      if r.addr.None? then Evaluate(Emit(Emit(start, [Meta(BeginWhile)]), [Meta(Pass)]), r).(ok := false) else
      var e := BeginLoop(nm, pool, n, r);
      var b := LowerBlock(body, e.nm, e.pool, e.next, here);
      EndLoop(Join(e, b), here, if b.ok then here + 1 else -1)
  }

  /** A new block holding a statement list; it stops at the first failing statement. */
  function LowerBlock(ss: seq<Stmt>, nm: Names, pool: Pool, n: int, here: int): (e: Emitted)
    ensures e.blocks != []
    decreases ss, 1
  {
    Join(AddBlock(Start(nm, pool, n)), LowerStmts(ss, nm, pool, n, here + 1))
  }

  function LowerStmts(ss: seq<Stmt>, nm: Names, pool: Pool, n: int, here: int): (e: Emitted)
    ensures e.blocks != []
    decreases ss, 0
  {
    if ss == [] then Start(nm, pool, n)
    else
      var h := LowerStmt(ss[0], nm, pool, n, here);
      if !h.ok then h
      else Join(h, LowerStmts(ss[1..], h.nm, h.pool, h.next, here + |h.blocks| - 1))
  }
}
