/** Where jumps go in compiled code (src/bcgen/emitter.cpp:198-256). */
module JumpSafety {
  import opened Syntax
  import opened ExprLowering
  import opened Fragment
  import opened LoweringFacts
  import opened Compositional
  import opened CleanLowering
  import opened Compiler
  import opened CompilerFacts
  import opened CleanPrograms
  import Ir
  import M = Machine

  /** The index is one of a `nop` in the code placed at `base`. */
  predicate Lands(code: M.Chunk, base: int, target: int) {
    base <= target < base + |code| && code[target - base] == NOP
  }

  predicate JumpFine(code: M.Chunk, base: int, i: M.Instr, brk: int, inLoop: bool) {
    && (i.op == M.Jump ==> Lands(code, base, i.a.id) || (inLoop && i.a.id == brk))
    && (i.op == M.JumpElse ==> Lands(code, base, i.b.id))
  }

  /** Every jump in a part of the code lands on a `nop` of the whole, or is a `break` of the
      loop around it. */
  ghost predicate JumpsFine(part: M.Chunk, code: M.Chunk, base: int, brk: int, inLoop: bool) {
    forall k | 0 <= k < |part| :: JumpFine(code, base, part[k], brk, inLoop)
  }

  predicate NoJump(i: M.Instr) {
    i.op != M.Jump && i.op != M.JumpElse
  }

  ghost predicate NoJumps(code: M.Chunk) {
    forall k | 0 <= k < |code| :: NoJump(code[k])
  }

  predicate PlainStep(step: Ir.Step) {
    !step.OperNonary? && !(step.OperUnary? && step.unary == Ir.Jump) && !(step.OperBinary? && step.binary == Ir.JumpElse)
  }

  ghost predicate PlainSteps(steps: seq<Ir.Step>) {
    forall k | 0 <= k < |steps| :: PlainStep(steps[k])
  }

  lemma {:induction false} PlainNoJumps(steps: seq<Ir.Step>)
    requires PlainSteps(steps)
    ensures NoJumps(TranslateAll(steps))
  {
    if steps != [] {
      PlainNoJumps(steps[1..]);
      assert PlainStep(steps[0]);
    }
  }

  lemma PlainConcat(a: seq<Ir.Step>, b: seq<Ir.Step>)
    requires PlainSteps(a) && PlainSteps(b)
    ensures PlainSteps(a + b)
  {
  }

  lemma PlainOne(step: Ir.Step)
    requires PlainStep(step)
    ensures PlainSteps([step])
  {
  }

  /** Expressions are lowered to straight-line steps. */
  lemma {:induction false} ExprPlain(nm: Names, e: Expr, pool: Pool, n: int)
    ensures PlainSteps(LowerExpr(nm, e, pool, n).steps)
    decreases e
  {
    match e
    case Sequence(items, _) =>
      ItemsPlain(nm, items, Ir.TempAt(n), pool, n + 1);
      SequencePlain(nm, e, pool, n);
    case Call(callee, args) =>
      var c := LowerExpr(nm, callee, pool, n);
      ExprPlain(nm, callee, pool, n);
      ArgsPlain(nm, args, c.pool, c.next);
      CallPlain(nm, e, pool, n);
    case Unary(_, inner) => ExprPlain(nm, inner, pool, n);
    case Binary(_, left, right) =>
      var l := LowerExpr(nm, left, pool, n);
      ExprPlain(nm, left, pool, n);
      ExprPlain(nm, right, l.pool, l.next);
      TwoPlain(nm, e, pool, n);
    case Assign(target, value) =>
      var l := LowerExpr(nm, target, pool, n);
      ExprPlain(nm, target, pool, n);
      ExprPlain(nm, value, l.pool, l.next);
      TwoPlain(nm, e, pool, n);
    case _ =>
  }

  lemma SequencePlain(nm: Names, e: Expr, pool: Pool, n: int)
    requires e.Sequence? && PlainSteps(LowerItems(nm, e.items, Ir.TempAt(n), pool, n + 1).steps)
    ensures PlainSteps(LowerExpr(nm, e, pool, n).steps)
  {
    hide LowerItems;
  }

  lemma CallPlain(nm: Names, e: Expr, pool: Pool, n: int)
    requires e.Call? && PlainSteps(LowerExpr(nm, e.callee, pool, n).steps)
    requires var c := LowerExpr(nm, e.callee, pool, n); PlainSteps(LowerArgs(nm, e.args, c.pool, c.next).steps)
    ensures PlainSteps(LowerExpr(nm, e, pool, n).steps)
  {
    hide LowerArgs, PlainSteps;
    var c := LowerExpr(nm, e.callee, pool, n);
    var r := LowerArgs(nm, e.args, c.pool, c.next);
    PlainConcat(c.steps, r.steps);
    if c.addr.Some? {
      var op := if c.addr.value.tag == Ir.Immediate then Ir.CallOp else Ir.NativeCall;
      var call := Ir.OperBinary(Ir.Imm(c.addr.value.id), Ir.Imm(|e.args|), op);
      PlainOne(call);
      PlainConcat(c.steps + r.steps, [call]);
    }
  }

  lemma TwoPlain(nm: Names, e: Expr, pool: Pool, n: int)
    requires e.Binary? || e.Assign?
    requires var first := if e.Binary? then e.left else e.target;
             var second := if e.Binary? then e.right else e.value;
             var l := LowerExpr(nm, first, pool, n);
             PlainSteps(l.steps) && PlainSteps(LowerExpr(nm, second, l.pool, l.next).steps)
    ensures PlainSteps(LowerExpr(nm, e, pool, n).steps)
  {
    var first := if e.Binary? then e.left else e.target;
    var second := if e.Binary? then e.right else e.value;
    var l := LowerExpr(nm, first, pool, n);
    PlainConcat(l.steps, LowerExpr(nm, second, l.pool, l.next).steps);
  }

  lemma {:induction false} ItemsPlain(nm: Names, items: seq<Expr>, dest: Ir.Addr, pool: Pool, n: int)
    ensures PlainSteps(LowerItems(nm, items, dest, pool, n).steps)
    decreases items
  {
    hide LowerExpr;
    if items != [] {
      var h := LowerExpr(nm, items[0], pool, n);
      ExprPlain(nm, items[0], pool, n);
      ItemsPlain(nm, items[1..], dest, h.pool, h.next);
    }
  }

  lemma {:induction false} ArgsPlain(nm: Names, args: seq<Expr>, pool: Pool, n: int)
    ensures PlainSteps(LowerArgs(nm, args, pool, n).steps)
    decreases args
  {
    hide LowerExpr, PlainSteps;
    if args == [] {
      NothingPlain();
    } else {
      var h := LowerExpr(nm, args[0], pool, n);
      ExprPlain(nm, args[0], pool, n);
      ArgsPlain(nm, args[1..], h.pool, h.next + 1);
      if h.addr.Some? {
        var move := Ir.TacMove(Ir.TempAt(h.next), h.addr.value);
        PlainOne(move);
        PlainConcat(h.steps, [move]);
        PlainConcat(h.steps + [move], LowerArgs(nm, args[1..], h.pool, h.next + 1).steps);
      }
    }
  }

  lemma NothingPlain()
    ensures PlainSteps([])
  {
  }

  lemma ExprNoJumps(nm: Names, e: Expr, pool: Pool, n: int)
    ensures NoJumps(TranslateAll(LowerExpr(nm, e, pool, n).steps))
  {
    hide LowerExpr;
    ExprPlain(nm, e, pool, n);
    PlainNoJumps(LowerExpr(nm, e, pool, n).steps);
  }

  /** What lands in a part lands in the whole. */
  lemma Widen(part: M.Chunk, inner: M.Chunk, at: int, code: M.Chunk, base: int, brk: int, inLoop: bool, brk': int, inLoop': bool)
    requires JumpsFine(part, inner, at, brk, inLoop)
    requires base <= at && at + |inner| <= base + |code| && code[at - base..at - base + |inner|] == inner
    requires inLoop ==> Lands(code, base, brk) || (inLoop' && brk' == brk)
    ensures JumpsFine(part, code, base, brk', inLoop')
  {
    forall k | 0 <= k < |part| ensures JumpFine(code, base, part[k], brk', inLoop') {
      assert JumpFine(inner, at, part[k], brk, inLoop);
      assert forall t | Lands(inner, at, t) :: Lands(code, base, t) by {
        forall t | Lands(inner, at, t) ensures Lands(code, base, t) {
          assert inner[t - at] == code[at - base..at - base + |inner|][t - at] == code[t - base];
        }
      }
    }
  }

  lemma Straightaway(part: M.Chunk, code: M.Chunk, base: int, brk: int, inLoop: bool)
    requires NoJumps(part)
    ensures JumpsFine(part, code, base, brk, inLoop)
  {
  }

  lemma Together(a: M.Chunk, b: M.Chunk, code: M.Chunk, base: int, brk: int, inLoop: bool)
    requires JumpsFine(a, code, base, brk, inLoop) && JumpsFine(b, code, base, brk, inLoop)
    ensures JumpsFine(a + b, code, base, brk, inLoop)
  {
  }

  lemma One(i: M.Instr, code: M.Chunk, base: int, brk: int, inLoop: bool)
    requires JumpFine(code, base, i, brk, inLoop)
    ensures JumpsFine([i], code, base, brk, inLoop)
  {
  }

  lemma {:induction false} StmtJumps(s: Stmt, nm: Names, pool: Pool, n: int, base: int, brk: int, inLoop: bool)
    requires BreaksInside(s, inLoop)
    ensures var c := CompileStmt(s, nm, pool, n, base, brk).code; JumpsFine(c, c, base, brk, inLoop)
    decreases s, 1
  {
    match s
    case If(_, _, _) => IfStmtJumps(s, nm, pool, n, base, brk, inLoop);
    case While(_, _) => LoopStmtJumps(s, nm, pool, n, base, brk, inLoop);
    case _ => SimpleJumps(s, nm, pool, n, base, brk, inLoop);
  }

  lemma SimpleJumps(s: Stmt, nm: Names, pool: Pool, n: int, base: int, brk: int, inLoop: bool)
    requires !s.If? && !s.While? && BreaksInside(s, inLoop)
    ensures var c := CompileStmt(s, nm, pool, n, base, brk).code; JumpsFine(c, c, base, brk, inLoop)
  {
    hide LowerExpr, TranslateAll, Result;
    var c := CompileStmt(s, nm, pool, n, base, brk).code;
    match s
    case ExprStmt(e) =>
      ExprNoJumps(nm, e, pool, n);
      Straightaway(c, c, base, brk, inLoop);
    case LocalDef(_, init) =>
      ExprNoJumps(nm, init, pool, n);
      Straightaway(c, c, base, brk, inLoop);
    case Return(result) =>
      ExprNoJumps(nm, result, pool, n);
      Straightaway(c, c, base, brk, inLoop);
    case Break =>
  }

  lemma {:induction false} IfStmtJumps(s: Stmt, nm: Names, pool: Pool, n: int, base: int, brk: int, inLoop: bool)
    requires s.If? && BreaksInside(s, inLoop)
    ensures var c := CompileStmt(s, nm, pool, n, base, brk).code; JumpsFine(c, c, base, brk, inLoop)
    decreases s, 0
  {
    hide LowerExpr, TranslateAll, Result, JumpsFine, NoJumps, CompileStmts, AllBreaksInside;
    var c := CompileStmt(s, nm, pool, n, base, brk).code;
    var r := LowerExpr(nm, s.cond, pool, n);
    var check := TranslateAll(r.steps);
    ExprNoJumps(nm, s.cond, pool, n);
    var first := base + |check| + 1;
    StmtsJumps(s.thn, nm, r.pool, r.next, first, brk, inLoop);
    var t := CompileStmts(s.thn, nm, r.pool, r.next, first, brk);
    if s.els.Else? {
      var f0 := first + |t.code| + 2;
      StmtsJumps(s.els.body, t.nm, t.pool, t.next, f0, brk, inLoop);
      ElseJumps(check, Result(r), t.code, CompileStmts(s.els.body, t.nm, t.pool, t.next, f0, brk).code, c, base, brk, inLoop);
    } else {
      IfJumps(check, Result(r), t.code, c, base, brk, inLoop);
    }
  }

  lemma {:induction false} LoopStmtJumps(s: Stmt, nm: Names, pool: Pool, n: int, base: int, brk: int, inLoop: bool)
    requires s.While? && BreaksInside(s, inLoop)
    ensures var c := CompileStmt(s, nm, pool, n, base, brk).code; JumpsFine(c, c, base, brk, inLoop)
    decreases s, 0
  {
    hide LowerExpr, TranslateAll, Result, JumpsFine, NoJumps, CompileStmts, AllBreaksInside;
    var c := CompileStmt(s, nm, pool, n, base, brk).code;
    var r := LowerExpr(nm, s.check, pool, n);
    var check := TranslateAll(r.steps);
    ExprNoJumps(nm, s.check, pool, n);
    var first := base + 1 + |check| + 1;
    var exit := first + |CompileStmts(s.body, nm, r.pool, r.next, first, 0).code| + 1;
    StmtsShape(s.body, nm, r.pool, r.next, first, 0, first, exit);
    StmtsJumps(s.body, nm, r.pool, r.next, first, exit, true);
    LoopJumps(check, Result(r), CompileStmts(s.body, nm, r.pool, r.next, first, exit).code, c, base, exit, brk, inLoop);
  }

  /** `break` only where a loop is open. */
  predicate BreaksInside(s: Stmt, inLoop: bool)
    decreases s
  {
    match s
    case Break => inLoop
    case If(_, thn, els) => AllBreaksInside(thn, inLoop) && (els.Else? ==> AllBreaksInside(els.body, inLoop))
    case While(_, body) => AllBreaksInside(body, true)
    case _ => true
  }

  predicate AllBreaksInside(ss: seq<Stmt>, inLoop: bool)
    decreases ss
  {
    ss == [] || (BreaksInside(ss[0], inLoop) && AllBreaksInside(ss[1..], inLoop))
  }

  lemma IfJumps(check: M.Chunk, aa: Ir.Addr, t: M.Chunk, c: M.Chunk, base: int, brk: int, inLoop: bool)
    requires NoJumps(check) && JumpsFine(t, t, base + |check| + 1, brk, inLoop)
    requires c == check + [JumpElseTo(aa, base + |check| + 1 + |t|)] + t + [NOP]
    ensures JumpsFine(c, c, base, brk, inLoop)
  {
    var first := base + |check| + 1;
    assert c[|check| + 1..|check| + 1 + |t|] == t;
    assert Lands(c, base, first + |t|);
    Widen(t, t, first, c, base, brk, inLoop, brk, inLoop);
    Straightaway(check, c, base, brk, inLoop);
    One(JumpElseTo(aa, first + |t|), c, base, brk, inLoop);
    Straightaway([NOP], c, base, brk, inLoop);
    hide JumpsFine, NoJumps;
    Together(check, [JumpElseTo(aa, first + |t|)], c, base, brk, inLoop);
    Together(check + [JumpElseTo(aa, first + |t|)], t, c, base, brk, inLoop);
    Together(check + [JumpElseTo(aa, first + |t|)] + t, [NOP], c, base, brk, inLoop);
  }

  lemma ElseJumps(check: M.Chunk, aa: Ir.Addr, t: M.Chunk, f: M.Chunk, c: M.Chunk, base: int, brk: int, inLoop: bool)
    requires NoJumps(check) && JumpsFine(t, t, base + |check| + 1, brk, inLoop)
    requires JumpsFine(f, f, base + |check| + 1 + |t| + 2, brk, inLoop)
    requires var end := base + |check| + 1 + |t|;
             c == check + [JumpElseTo(aa, end + 1)] + t + [JumpTo(end + 2 + |f|), NOP] + f + [NOP]
    ensures JumpsFine(c, c, base, brk, inLoop)
  {
    var first := base + |check| + 1;
    var end := first + |t|;
    var test, skip := [JumpElseTo(aa, end + 1)], [JumpTo(end + 2 + |f|), NOP];
    assert c[|check| + 1..|check| + 1 + |t|] == t;
    assert c[end + 2 - base..end + 2 - base + |f|] == f;
    assert Lands(c, base, end + 1) && Lands(c, base, end + 2 + |f|);
    Widen(t, t, first, c, base, brk, inLoop, brk, inLoop);
    Widen(f, f, end + 2, c, base, brk, inLoop, brk, inLoop);
    Straightaway(check, c, base, brk, inLoop);
    One(JumpElseTo(aa, end + 1), c, base, brk, inLoop);
    assert JumpsFine(skip, c, base, brk, inLoop);
    Straightaway([NOP], c, base, brk, inLoop);
    hide JumpsFine, NoJumps;
    Together(check, test, c, base, brk, inLoop);
    Together(check + test, t, c, base, brk, inLoop);
    Together(check + test + t, skip, c, base, brk, inLoop);
    Together(check + test + t + skip, f, c, base, brk, inLoop);
    Together(check + test + t + skip + f, [NOP], c, base, brk, inLoop);
  }

  lemma LoopJumps(check: M.Chunk, aa: Ir.Addr, b: M.Chunk, c: M.Chunk, base: int, exit: int, brk: int, inLoop: bool)
    requires NoJumps(check) && exit == base + 1 + |check| + 1 + |b| + 1 && JumpsFine(b, b, base + 1 + |check| + 1, exit, true)
    requires c == [NOP] + check + [JumpElseTo(aa, exit)] + b + [JumpTo(base), NOP]
    ensures JumpsFine(c, c, base, brk, inLoop)
  {
    var first := base + 1 + |check| + 1;
    var test, back := [JumpElseTo(aa, exit)], [JumpTo(base), NOP];
    assert c[first - base..first - base + |b|] == b;
    assert Lands(c, base, base) && Lands(c, base, exit);
    Widen(b, b, first, c, base, exit, true, brk, inLoop);
    Straightaway([NOP], c, base, brk, inLoop);
    Straightaway(check, c, base, brk, inLoop);
    One(JumpElseTo(aa, exit), c, base, brk, inLoop);
    assert JumpsFine(back, c, base, brk, inLoop);
    hide JumpsFine, NoJumps;
    Together([NOP], check, c, base, brk, inLoop);
    Together([NOP] + check, test, c, base, brk, inLoop);
    Together([NOP] + check + test, b, c, base, brk, inLoop);
    Together([NOP] + check + test + b, back, c, base, brk, inLoop);
  }

  lemma {:induction false} StmtsJumps(ss: seq<Stmt>, nm: Names, pool: Pool, n: int, base: int, brk: int, inLoop: bool)
    requires AllBreaksInside(ss, inLoop)
    ensures var c := CompileStmts(ss, nm, pool, n, base, brk).code; JumpsFine(c, c, base, brk, inLoop)
    decreases ss, 2
  {
    hide CompileStmt, BreaksInside;
    if ss != [] {
      StmtJumps(ss[0], nm, pool, n, base, brk, inLoop);
      var h := CompileStmt(ss[0], nm, pool, n, base, brk);
      StmtsJumps(ss[1..], h.nm, h.pool, h.next, base + |h.code|, brk, inLoop);
      var t := CompileStmts(ss[1..], h.nm, h.pool, h.next, base + |h.code|, brk);
      ListJumps(h.code, t.code, base, brk, inLoop);
    }
  }

  lemma ListJumps(a: M.Chunk, b: M.Chunk, base: int, brk: int, inLoop: bool)
    requires JumpsFine(a, a, base, brk, inLoop) && JumpsFine(b, b, base + |a|, brk, inLoop)
    ensures JumpsFine(a + b, a + b, base, brk, inLoop)
  {
    assert (a + b)[..|a|] == a && (a + b)[|a|..|a| + |b|] == b;
    Widen(a, a, base, a + b, base, brk, inLoop, brk, inLoop);
    Widen(b, b, base + |a|, a + b, base, brk, inLoop, brk, inLoop);
    Together(a, b, a + b, base, brk, inLoop);
  }

  lemma {:induction false} CleanBreaksInside(s: Stmt, nm: Names, pool: Pool, n: int, inLoop: bool)
    requires CleanStmt(s, nm, pool, n, inLoop)
    ensures BreaksInside(s, inLoop)
    decreases s
  {
    hide LowerExpr, CleanExpr, CompileStmts;
    match s
    case If(cond, thn, els) =>
      var r := LowerExpr(nm, cond, pool, n);
      CleanAllBreaksInside(thn, nm, r.pool, r.next, inLoop);
      if els.Else? {
        var t := CompileStmts(thn, nm, r.pool, r.next, 0, 0);
        CleanAllBreaksInside(els.body, t.nm, t.pool, t.next, inLoop);
      }
    case While(check, body) =>
      var r := LowerExpr(nm, check, pool, n);
      CleanAllBreaksInside(body, nm, r.pool, r.next, true);
    case _ =>
  }

  lemma {:induction false} CleanAllBreaksInside(ss: seq<Stmt>, nm: Names, pool: Pool, n: int, inLoop: bool)
    requires CleanStmts(ss, nm, pool, n, inLoop)
    ensures AllBreaksInside(ss, inLoop)
    decreases ss
  {
    hide CompileStmt, CleanStmt, BreaksInside;
    if ss != [] {
      CleanBreaksInside(ss[0], nm, pool, n, inLoop);
      var h := CompileStmt(ss[0], nm, pool, n, 0, 0);
      CleanAllBreaksInside(ss[1..], h.nm, h.pool, h.next, inLoop);
    }
  }

  /** Every jump and every conditional jump of a chunk lands on a `nop` of that chunk. */
  ghost predicate JumpsLand(chunk: M.Chunk) {
    JumpsFine(chunk, chunk, 0, 0, false)
  }

  lemma {:induction false} BodiesLand(natives: map<string, int>, fs: seq<Fun>, pool: Pool, i: nat)
    requires CleanFunctions(natives, fs, pool) && i < |fs|
    ensures JumpsLand(Bodies(natives, fs, pool)[i])
    decreases fs
  {
    hide CompileStmts, CleanStmts, Distinct, JumpsFine;
    var f := fs[0];
    if i == 0 {
      CleanAllBreaksInside(f.body, BodyNames(natives, f), pool, |f.params|, false);
      StmtsJumps(f.body, BodyNames(natives, f), pool, |f.params|, 0, 0, false);
    } else {
      BodiesLand(natives, fs[1..], CompiledIn(natives, f, pool).pool, i - 1);
    }
  }

  /** Whatever the form of calls and conditions: jumps land on a `nop` of their own chunk where no
      step is lost. */
  lemma EmittedJumpsLand(p: Program, natives: map<string, int>, pre: Prepass)
    requires CollectFunctions(p, Prepass(map[], 0, -1)) == Some(pre)
    requires CleanFunctions(natives, Functions(p), Pool(pre.globals, [])) && Whole(Functions(p))
    ensures Compile(natives, p).Some? && |Compile(natives, p).value.chunks| == |Functions(p)|
    ensures forall c | 0 <= c < |Compile(natives, p).value.chunks| :: JumpsLand(Compile(natives, p).value.chunks[c])
  {
    hide *;
    CompilesClean(p, natives, pre);
    var pool := Pool(pre.globals, []);
    forall c | 0 <= c < |Functions(p)| ensures JumpsLand(Bodies(natives, Functions(p), pool)[c]) {
      BodiesLand(natives, Functions(p), pool, c);
    }
  }

  /** The programs of the fragment are among them. */
  lemma CompiledJumpsLand(p: Program, natives: map<string, int>)
    requires WellFormed(p, natives.Keys)
    ensures Compile(natives, p).Some?
    ensures forall c | 0 <= c < |Compile(natives, p).value.chunks| :: JumpsLand(Compile(natives, p).value.chunks[c])
  {
    hide *;
    var pre := FragmentClean(p, natives);
    EmittedJumpsLand(p, natives, pre);
  }
}
