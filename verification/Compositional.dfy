/** A compositional compiler: the instruction array of a statement list with every jump
    target computed from the sizes of the parts. It is the reference for the one-pass
    emitter, which patches jumps after the fact. */
module Compositional {
  import opened Values
  import opened Syntax
  import opened ExprLowering
  import Ir
  import Machine

  function ModeOf(tag: Ir.Tag): Machine.Mode {
    match tag
    case Immediate => Machine.ImmMode
    case Constant => Machine.ConstMode
    case Temp => Machine.RegMode
  }

  function Translate(aa: Ir.Addr): Machine.Arg {
    Machine.Arg(ModeOf(aa.tag), aa.id)
  }

  const NO_ARG := Machine.Arg(Machine.ImmMode, 0)

  function Nonary(op: Machine.Opcode): Machine.Instr {
    Machine.Instr(op, NO_ARG, NO_ARG, NO_ARG)
  }

  function Single(op: Machine.Opcode, a: Machine.Arg): Machine.Instr {
    Machine.Instr(op, a, NO_ARG, NO_ARG)
  }

  function MovInstr(dest: Ir.Addr, src: Ir.Addr): Machine.Instr {
    Machine.Instr(Machine.Mov, Translate(dest), Translate(src), NO_ARG)
  }

  function JumpTo(target: int): Machine.Instr {
    Single(Machine.Jump, Machine.Arg(Machine.ImmMode, target))
  }

  function JumpElseTo(check: Ir.Addr, target: int): Machine.Instr {
    Machine.Instr(Machine.JumpElse, Translate(check), Machine.Arg(Machine.ImmMode, target), NO_ARG)
  }

  const NOP := Nonary(Machine.Nop)

  /** Instructions of a step that is not a marker. */
  function TranslateStep(step: Ir.Step): Machine.Chunk {
    match step
    case TacMove(dest, src) => [MovInstr(dest, src)]
    case TacNeg(dest, src) =>
      if dest == src then [Single(Machine.Neg, Translate(dest))]
      else [MovInstr(dest, src), Single(Machine.Neg, Translate(dest))]
    case TacBinary(dest, lhs, rhs, op) =>
      [Machine.Instr(Machine.Compute(op), Translate(dest), Translate(lhs), Translate(rhs))]
    case OperNonary(meta) => if meta == Ir.Pass then [NOP] else []
    case OperUnary(a, unary) =>
      [Single(match unary
              case MakeSeq => Machine.MakeSeq
              case FrzSeqObj => Machine.FrzSeqObj
              case Jump => Machine.Jump
              case Ret => Machine.Ret, Translate(a))]
    case OperBinary(a, b, binary) =>
      [Machine.Instr(match binary
                     case JumpElse => Machine.JumpElse
                     case CallOp => Machine.Call
                     case NativeCall => Machine.NativeCall, Translate(a), Translate(b), NO_ARG)]
    case OperTernary(a, b, c, ternary) =>
      [Machine.Instr(match ternary
                     case SeqObjPush => Machine.SeqObjPush
                     case SeqObjGet => Machine.SeqObjGet, Translate(a), Translate(b), Translate(c))]
  }

  function TranslateAll(steps: seq<Ir.Step>): Machine.Chunk {
    if steps == [] then [] else TranslateStep(steps[0]) + TranslateAll(steps[1..])
  }

  lemma {:induction false} TranslateAppend(a: seq<Ir.Step>, b: seq<Ir.Step>)
    ensures TranslateAll(a + b) == TranslateAll(a) + TranslateAll(b)
  {
    hide TranslateStep;
    if a == [] {
      assert a + b == b;
    } else {
      TranslateAppend(a[1..], b);
      assert (a + b)[0] == a[0] && (a + b)[1..] == a[1..] + b;
      var h, t, u := TranslateStep(a[0]), TranslateAll(a[1..]), TranslateAll(b);
      assert h + (t + u) == h + t + u;
    }
  }

  lemma TranslateOne(c: Ir.Step)
    ensures TranslateAll([c]) == TranslateStep(c)
  {
    hide TranslateStep;
    assert [c][1..] == [];
  }

  /** The register or constant a lowered expression ends up in. */
  function Result(r: Lowered): Ir.Addr {
    if r.addr.Some? then r.addr.value else Ir.Imm(0)
  }

  datatype Compiled = Compiled(code: Machine.Chunk, nm: Names, pool: Pool, next: int)

  /** `base`: index of the first instruction in the chunk; `brk`: target of a `break`. */
  function CompileStmt(s: Stmt, nm: Names, pool: Pool, n: int, base: int, brk: int): Compiled
    decreases s
  {
    match s
    case ExprStmt(e) =>
      var r := LowerExpr(nm, e, pool, n);
      Compiled(TranslateAll(r.steps), nm, r.pool, r.next)
    case LocalDef(name, init) =>
      var r := LowerExpr(nm, init, pool, n);
      Compiled(TranslateAll(r.steps) + [MovInstr(Ir.TempAt(r.next), Result(r))],
               nm.(locals := nm.locals[name := Ir.TempAt(r.next)]), r.pool, r.next + 1)
    case Return(result) =>
      var r := LowerExpr(nm, result, pool, n);
      Compiled(TranslateAll(r.steps) + [Single(Machine.Ret, Translate(Result(r)))], nm, r.pool, r.next)
    case Break => Compiled([JumpTo(brk)], nm, pool, n)
    case If(cond, thn, els) =>
      var r := LowerExpr(nm, cond, pool, n);
      var check := TranslateAll(r.steps);
      var t := CompileStmts(thn, nm, r.pool, r.next, base + |check| + 1, brk);
      var end := base + |check| + 1 + |t.code|;
      if els.NoElse? then
        t.(code := check + [JumpElseTo(Result(r), end)] + t.code + [NOP])
      else
        var f := CompileStmts(els.body, t.nm, t.pool, t.next, end + 2, brk);
        f.(code := check + [JumpElseTo(Result(r), end + 1)] + t.code
                   + [JumpTo(end + 2 + |f.code|), NOP] + f.code + [NOP])
    case While(e, body) =>
      var r := LowerExpr(nm, e, pool, n);
      var check := TranslateAll(r.steps);
      var first := base + 1 + |check| + 1;
      var exit := first + |CompileStmts(body, nm, r.pool, r.next, first, 0).code| + 1;
      var b := CompileStmts(body, nm, r.pool, r.next, first, exit);
      b.(code := [NOP] + check + [JumpElseTo(Result(r), exit)] + b.code + [JumpTo(base), NOP])
  }

  function CompileStmts(ss: seq<Stmt>, nm: Names, pool: Pool, n: int, base: int, brk: int): Compiled
    decreases ss
  {
    if ss == [] then Compiled([], nm, pool, n)
    else
      var h := CompileStmt(ss[0], nm, pool, n, base, brk);
      var t := CompileStmts(ss[1..], h.nm, h.pool, h.next, base + |h.code|, brk);
      t.(code := h.code + t.code)
  }

  /** The first branch of an `if` that starts at `base`. */
  function ThenPart(s: Stmt, nm: Names, pool: Pool, n: int, base: int, brk: int): Compiled
    requires s.If?
  {
    var r := LowerExpr(nm, s.cond, pool, n);
    CompileStmts(s.thn, nm, r.pool, r.next, base + |TranslateAll(r.steps)| + 1, brk)
  }

  /** Index of the instruction after the first branch. */
  function ThenEnd(s: Stmt, nm: Names, pool: Pool, n: int, base: int, brk: int): int
    requires s.If?
  {
    base + |TranslateAll(LowerExpr(nm, s.cond, pool, n).steps)| + 1 + |ThenPart(s, nm, pool, n, base, brk).code|
  }

  /** The second branch of an `if`. */
  function ElsePart(s: Stmt, nm: Names, pool: Pool, n: int, base: int, brk: int): Compiled
    requires s.If? && s.els.Else?
  {
    var t := ThenPart(s, nm, pool, n, base, brk);
    CompileStmts(s.els.body, t.nm, t.pool, t.next, ThenEnd(s, nm, pool, n, base, brk) + 2, brk)
  }

  /** Where code is placed and where `break` goes do not change its size or its names. */
  ghost predicate SameShape(a: Compiled, b: Compiled) {
    |a.code| == |b.code| && a.nm == b.nm && a.pool == b.pool && a.next == b.next
  }

  lemma {:induction false} StmtShape(s: Stmt, nm: Names, pool: Pool, n: int, base: int, brk: int, base': int, brk': int)
    ensures SameShape(CompileStmt(s, nm, pool, n, base, brk), CompileStmt(s, nm, pool, n, base', brk'))
    decreases s, 1
  {
    match s
    case If(_, _, _) => IfSameShape(s, nm, pool, n, base, brk, base', brk');
    case While(_, _) => LoopSameShape(s, nm, pool, n, base, brk, base', brk');
    case _ =>
  }

  lemma {:induction false} IfSameShape(s: Stmt, nm: Names, pool: Pool, n: int, base: int, brk: int, base': int, brk': int)
    requires s.If?
    ensures SameShape(CompileStmt(s, nm, pool, n, base, brk), CompileStmt(s, nm, pool, n, base', brk'))
    decreases s, 0
  {
    hide LowerExpr, TranslateAll, CompileStmts;
    var r := LowerExpr(nm, s.cond, pool, n);
    var len := |TranslateAll(r.steps)|;
    StmtsShape(s.thn, nm, r.pool, r.next, base + len + 1, brk, base' + len + 1, brk');
    if s.els.Else? {
      var t := CompileStmts(s.thn, nm, r.pool, r.next, base + len + 1, brk);
      var end, end' := base + len + 1 + |t.code|, base' + len + 1 + |t.code|;
      StmtsShape(s.els.body, t.nm, t.pool, t.next, end + 2, brk, end' + 2, brk');
    }
  }

  lemma {:induction false} LoopSameShape(s: Stmt, nm: Names, pool: Pool, n: int, base: int, brk: int, base': int, brk': int)
    requires s.While?
    ensures SameShape(CompileStmt(s, nm, pool, n, base, brk), CompileStmt(s, nm, pool, n, base', brk'))
    decreases s, 0
  {
    hide LowerExpr, TranslateAll, CompileStmts;
    var r := LowerExpr(nm, s.check, pool, n);
    var len := |TranslateAll(r.steps)|;
    var first, first' := base + len + 2, base' + len + 2;
    StmtsShape(s.body, nm, r.pool, r.next, first, 0, first', 0);
    var exit := first + |CompileStmts(s.body, nm, r.pool, r.next, first, 0).code| + 1;
    var exit' := first' + |CompileStmts(s.body, nm, r.pool, r.next, first', 0).code| + 1;
    StmtsShape(s.body, nm, r.pool, r.next, first, exit, first', exit');
  }

  lemma {:induction false} StmtsShape(ss: seq<Stmt>, nm: Names, pool: Pool, n: int, base: int, brk: int, base': int, brk': int)
    ensures SameShape(CompileStmts(ss, nm, pool, n, base, brk), CompileStmts(ss, nm, pool, n, base', brk'))
    decreases ss, 2
  {
    hide CompileStmt;
    if ss != [] {
      StmtShape(ss[0], nm, pool, n, base, brk, base', brk');
      var h, h' := CompileStmt(ss[0], nm, pool, n, base, brk), CompileStmt(ss[0], nm, pool, n, base', brk');
      StmtsShape(ss[1..], h.nm, h.pool, h.next, base + |h.code|, brk, base' + |h'.code|, brk');
    }
  }
}
