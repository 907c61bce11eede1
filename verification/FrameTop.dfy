/** The dynamic frame top against the static numbering of temporaries, in every reachable state
    of a compiled program (src/runtime/vm.cpp:342-363, src/ir/convert_ast.cpp:78-87). */
module FrameTop {
  import opened Values
  import opened Syntax
  import opened Semantics
  import opened ExprLowering
  import opened Fragment
  import opened LoweringFacts
  import opened Compositional
  import opened CompileFacts
  import opened SimulationBase
  import opened CleanLowering
  import opened Compiler
  import opened CompilerFacts
  import opened Correctness
  import opened JumpSafety
  import Ir
  import M = Machine
  import S = Simulation

  // ---------------------------------------------------------------- what a chunk says

  /** The register an instruction raises the frame top to; -1 if it does not. */
  function Raised(i: M.Instr): int {
    if i.op == M.Mov || i.op == M.Neg || i.op.Compute? then i.a.id else -1
  }

  /** The highest register that any of the instructions raises the frame top to. */
  function Highest(c: M.Chunk): (r: int)
    ensures r >= -1
    ensures forall q | 0 <= q < |c| :: Raised(c[q]) <= r
    ensures r == -1 || exists q | 0 <= q < |c| :: Raised(c[q]) == r
  {
    if c == [] then -1
    else
      var front := c[..|c| - 1];
      assert forall q | 0 <= q < |front| :: front[q] == c[q];
      var most := Highest(front);
      assert most == -1 || exists q | 0 <= q < |c| :: Raised(c[q]) == most by {
        if most != -1 {
          var q :| 0 <= q < |front| && Raised(front[q]) == most;
          assert Raised(c[q]) == most;
        }
      }
      M.Max(most, Raised(c[|c| - 1]))
  }

  /** The instruction at `k` jumps to `ip` or before it. */
  predicate Loops(c: M.Chunk, ip: int, k: int)
    requires 0 <= k < |c|
  {
    c[k].op == M.Jump && c[k].a.id <= ip
  }

  /** Outside loops `ip` itself; inside, the end of the outermost one. */
  function PastLoops(c: M.Chunk, ip: nat, j: nat): (r: nat)
    requires ip <= j <= |c|
    ensures ip <= r <= j
    ensures forall k | ip <= k < j :: Loops(c, ip, k) ==> k < r
    ensures r > ip ==> Loops(c, ip, r - 1)
    decreases j
  {
    if j == ip then ip
    else if Loops(c, ip, j - 1) then j
    else PastLoops(c, ip, j - 1)
  }

  lemma HighestGrows(c: M.Chunk, a: nat, b: nat)
    requires a <= b <= |c|
    ensures Highest(c[..a]) <= Highest(c[..b])
  {
    if Highest(c[..a]) != -1 {
      var q :| 0 <= q < a && Raised(c[..a][q]) == Highest(c[..a]);
      assert Raised(c[..b][q]) == Highest(c[..a]);
    }
  }

  // ---------------------------------------------------------------- the shape of compiled code

  /** A call follows the move of its last argument; no register raised before it, or later in a
      loop around it, is higher than that argument's. */
  ghost predicate CallFits(fs: seq<Fun>, code: M.Chunk, q: int, n: int, lim: int)
    requires 0 <= q < |code|
  {
    && q > 0 && code[q - 1].op == M.Mov && code[q - 1].a.id >= n && lim <= code[q - 1].a.id + 1
    && (forall j | 0 <= j < q :: Raised(code[j]) <= code[q - 1].a.id)
    && 0 <= code[q].a.id < |fs| && code[q].b.id == |fs[code[q].a.id].params| > 0
  }

  /** A jump back from index `j` of code at `base`: it stays in this code, loops inside its loop
      end inside, and calls inside its loop come after all temporaries of the loop. */
  ghost predicate LoopFits(code: M.Chunk, base: int, j: int)
    requires 0 <= j < |code|
  {
    var start := code[j].a.id - base;
    && start >= 0
    && (forall k | start <= k <= j :: code[k].op == M.Jump ==> code[k].a.id >= code[j].a.id)
    && (forall k, i | start <= k <= j && 0 <= i <= j && code[k].op == M.Call && k > 0 ::
          Raised(code[i]) <= code[k - 1].a.id)
  }

  /** Code at `base` that was compiled from counter `n` to counter `next`. */
  ghost predicate Region(fs: seq<Fun>, code: M.Chunk, base: int, n: int, next: int, lim: int) {
    && n <= next
    && (forall q | 0 <= q < |code| :: Raised(code[q]) < next)
    && (forall q | 0 <= q < |code| :: code[q].op == M.Call ==> CallFits(fs, code, q, n, lim))
    && (forall j | 0 <= j < |code| :: code[j].op == M.Jump && code[j].a.id <= base + j ==> LoopFits(code, base, j))
    && (forall j | 0 <= j < |code| :: code[j].op == M.JumpElse ==> code[j].b.id > base + j)
  }

  lemma RegionNone(fs: seq<Fun>, base: int, n: int, lim: int)
    ensures Region(fs, [], base, n, n, lim)
  {
  }

  /** One instruction that is neither a call nor a jump back. */
  lemma RegionOne(fs: seq<Fun>, i: M.Instr, base: int, n: int, next: int, lim: int)
    requires n <= next && Raised(i) < next && i.op != M.Call
    requires i.op == M.Jump ==> i.a.id > base
    requires i.op == M.JumpElse ==> i.b.id > base
    ensures Region(fs, [i], base, n, next, lim)
  {
  }

  lemma CallsConcat(fs: seq<Fun>, a: M.Chunk, b: M.Chunk, base: int, n: int, n1: int, n2: int, lim: int)
    requires Region(fs, a, base, n, n1, lim) && Region(fs, b, base + |a|, n1, n2, lim)
    ensures forall q | 0 <= q < |a + b| :: (a + b)[q].op == M.Call ==> CallFits(fs, a + b, q, n, lim)
  {
    var c := a + b;
    hide LoopFits;
    forall q | 0 <= q < |c| && c[q].op == M.Call ensures CallFits(fs, c, q, n, lim) {
      if q < |a| {
        assert CallFits(fs, a, q, n, lim);
      } else {
        assert b[q - |a|] == c[q] && CallFits(fs, b, q - |a|, n1, lim);
        assert c[q - 1] == b[q - |a| - 1];
      }
    }
  }

  lemma LoopsConcat(fs: seq<Fun>, a: M.Chunk, b: M.Chunk, base: int, n: int, n1: int, n2: int, lim: int)
    requires Region(fs, a, base, n, n1, lim) && Region(fs, b, base + |a|, n1, n2, lim)
    ensures forall j | 0 <= j < |a + b| :: (a + b)[j].op == M.Jump && (a + b)[j].a.id <= base + j ==> LoopFits(a + b, base, j)
  {
    var c := a + b;
    forall j | 0 <= j < |c| && c[j].op == M.Jump && c[j].a.id <= base + j ensures LoopFits(c, base, j) {
      if j < |a| {
        assert LoopFits(a, base, j);
        assert forall k | 0 <= k <= j :: c[k] == a[k];
      } else {
        LoopInSecond(fs, a, b, base, n, n1, n2, lim, j);
      }
    }
  }

  lemma LoopInSecond(fs: seq<Fun>, a: M.Chunk, b: M.Chunk, base: int, n: int, n1: int, n2: int, lim: int, j: int)
    requires Region(fs, a, base, n, n1, lim) && Region(fs, b, base + |a|, n1, n2, lim)
    requires |a| <= j < |a + b| && (a + b)[j].op == M.Jump && (a + b)[j].a.id <= base + j
    ensures LoopFits(a + b, base, j)
  {
    var c := a + b;
    assert c[j] == b[j - |a|] && LoopFits(b, base + |a|, j - |a|);
    var start := c[j].a.id - base;
    forall k | start <= k <= j ensures c[k].op == M.Jump ==> c[k].a.id >= c[j].a.id {
      assert c[k] == b[k - |a|];
    }
    forall k, i | start <= k <= j && 0 <= i <= j && c[k].op == M.Call && k > 0 ensures Raised(c[i]) <= c[k - 1].a.id {
      assert c[k] == b[k - |a|] && CallFits(fs, b, k - |a|, n1, lim);
      assert c[k - 1] == b[k - |a| - 1];
      if i >= |a| {
        assert c[i] == b[i - |a|];
      }
    }
  }

  lemma RegionConcat(fs: seq<Fun>, a: M.Chunk, b: M.Chunk, base: int, n: int, n1: int, n2: int, lim: int)
    requires Region(fs, a, base, n, n1, lim) && Region(fs, b, base + |a|, n1, n2, lim)
    ensures Region(fs, a + b, base, n, n2, lim)
  {
    CallsConcat(fs, a, b, base, n, n1, n2, lim);
    LoopsConcat(fs, a, b, base, n, n1, n2, lim);
    hide CallFits, LoopFits;
    var c := a + b;
    forall q | 0 <= q < |c| ensures Raised(c[q]) < n2 && (c[q].op == M.JumpElse ==> c[q].b.id > base + q) {
      if q >= |a| {
        assert c[q] == b[q - |a|];
      }
    }
  }

  /** The jump back that closes a loop. */
  lemma RegionLoop(fs: seq<Fun>, code: M.Chunk, base: int, n: int, next: int, high: int)
    requires Region(fs, code, base, n, next, high) && high >= next >= 0
    requires forall k | 0 <= k < |code| :: code[k].op == M.Jump ==> code[k].a.id >= base
    ensures Region(fs, code + [JumpTo(base)], base, n, next, high)
  {
    var c := code + [JumpTo(base)];
    LoopCalls(fs, code, base, n, next, high);
    LoopBack(fs, code, base, n, next, high);
    hide CallFits, LoopFits;
    forall q | 0 <= q < |c| ensures Raised(c[q]) < next && (c[q].op == M.JumpElse ==> c[q].b.id > base + q) {
      assert q < |code| ==> c[q] == code[q];
    }
  }

  lemma LoopCalls(fs: seq<Fun>, code: M.Chunk, base: int, n: int, next: int, high: int)
    requires Region(fs, code, base, n, next, high)
    ensures var c := code + [JumpTo(base)];
            forall q | 0 <= q < |c| :: c[q].op == M.Call ==> CallFits(fs, c, q, n, high)
  {
    hide LoopFits;
    var c := code + [JumpTo(base)];
    forall q | 0 <= q < |c| && c[q].op == M.Call ensures CallFits(fs, c, q, n, high) {
      assert CallFits(fs, code, q, n, high);
      assert forall k | 0 <= k <= q :: c[k] == code[k];
    }
  }

  lemma LoopBack(fs: seq<Fun>, code: M.Chunk, base: int, n: int, next: int, high: int)
    requires Region(fs, code, base, n, next, high) && high >= next >= 0
    requires forall k | 0 <= k < |code| :: code[k].op == M.Jump ==> code[k].a.id >= base
    ensures var c := code + [JumpTo(base)];
            forall j | 0 <= j < |c| :: c[j].op == M.Jump && c[j].a.id <= base + j ==> LoopFits(c, base, j)
  {
    var c := code + [JumpTo(base)];
    forall j | 0 <= j < |c| && c[j].op == M.Jump && c[j].a.id <= base + j ensures LoopFits(c, base, j) {
      if j < |code| {
        assert LoopFits(code, base, j);
        assert forall k | 0 <= k <= j :: c[k] == code[k];
      } else {
        WholeLoop(fs, code, base, n, next, high);
      }
    }
  }

  lemma WholeLoop(fs: seq<Fun>, code: M.Chunk, base: int, n: int, next: int, high: int)
    requires Region(fs, code, base, n, next, high) && high >= next >= 0
    requires forall k | 0 <= k < |code| :: code[k].op == M.Jump ==> code[k].a.id >= base
    ensures LoopFits(code + [JumpTo(base)], base, |code|)
  {
    hide LoopFits;
    var c, j := code + [JumpTo(base)], |code|;
    forall k, i | 0 <= k <= j && 0 <= i <= j && c[k].op == M.Call && k > 0 ensures Raised(c[i]) <= c[k - 1].a.id {
      assert c[k] == code[k] && c[k - 1] == code[k - 1] && CallFits(fs, code, k, n, high);
      assert i < |code| ==> c[i] == code[i] && Raised(code[i]) < next;
    }
    forall k | 0 <= k <= j ensures c[k].op == M.Jump ==> c[k].a.id >= c[j].a.id {
      assert k < |code| ==> c[k] == code[k];
    }
    assert c[j] == JumpTo(base);
    LoopIs(c, base, j);
  }

  lemma LoopIs(c: M.Chunk, base: int, j: int)
    requires 0 <= j < |c| && c[j].a.id == base
    requires forall k | 0 <= k <= j :: c[k].op == M.Jump ==> c[k].a.id >= c[j].a.id
    requires forall k, i | 0 <= k <= j && 0 <= i <= j && c[k].op == M.Call && k > 0 :: Raised(c[i]) <= c[k - 1].a.id
    ensures LoopFits(c, base, j)
  {
  }

  lemma RegionWeaken(fs: seq<Fun>, code: M.Chunk, base: int, n: int, next: int, high: int, lim: int)
    requires Region(fs, code, base, n, next, high) && lim <= high
    ensures Region(fs, code, base, n, next, lim)
  {
    hide LoopFits;
    forall q | 0 <= q < |code| && code[q].op == M.Call ensures CallFits(fs, code, q, n, lim) {
      assert CallFits(fs, code, q, n, high);
    }
  }

  // ---------------------------------------------------------------- expressions

  /** Code of steps in three groups. */
  lemma Pieces(fs: seq<Fun>, a: seq<Ir.Step>, c: Ir.Step, b: seq<Ir.Step>, base: int, n: int, n1: int, n2: int, n3: int, lim: int)
    requires Region(fs, TranslateAll(a), base, n, n1, lim)
    requires Region(fs, TranslateStep(c), base + |TranslateAll(a)|, n1, n2, lim)
    requires Region(fs, TranslateAll(b), base + |TranslateAll(a)| + |TranslateStep(c)|, n2, n3, lim)
    ensures Region(fs, TranslateAll(a + [c] + b), base, n, n3, lim)
    ensures TranslateAll(a + [c] + b) == TranslateAll(a) + TranslateStep(c) + TranslateAll(b)
  {
    hide Region, TranslateAll, TranslateStep;
    TranslateAppend(a + [c], b);
    TranslateAppend(a, [c]);
    TranslateOne(c);
    RegionConcat(fs, TranslateAll(a), TranslateStep(c), base, n, n1, n2, lim);
    RegionConcat(fs, TranslateAll(a) + TranslateStep(c), TranslateAll(b), base, n, n2, n3, lim);
  }

  /** The step after the steps of two operands. */
  lemma PiecesLast(fs: seq<Fun>, a: seq<Ir.Step>, b: seq<Ir.Step>, c: Ir.Step, base: int, n: int, n1: int, n2: int, n3: int, lim: int)
    requires Region(fs, TranslateAll(a), base, n, n1, lim)
    requires Region(fs, TranslateAll(b), base + |TranslateAll(a)|, n1, n2, lim)
    requires Region(fs, TranslateStep(c), base + |TranslateAll(a)| + |TranslateAll(b)|, n2, n3, lim)
    ensures Region(fs, TranslateAll(a + b + [c]), base, n, n3, lim)
  {
    hide Region, TranslateAll, TranslateStep;
    TranslateAppend(a + b, [c]);
    TranslateAppend(a, b);
    TranslateOne(c);
    RegionConcat(fs, TranslateAll(a), TranslateAll(b), base, n, n1, n2, lim);
    RegionConcat(fs, TranslateAll(a) + TranslateAll(b), TranslateStep(c), base, n, n2, n3, lim);
  }

  lemma {:induction false} ExprRegion(sg: Signature, e: Expr, nm: Names, pool: Pool, base: int, n: nat, lim: nat)
    requires Prepared(sg, nm, pool, n) && OkExpr(sg, e, nm.locals.Keys, n, lim)
    ensures var r := LowerExpr(nm, e, pool, n);
            Region(sg.fs, TranslateAll(r.steps), base, n, r.next, lim)
    decreases e, 1
  {
    hide Region, Prepared;
    match e
    case Literal(_, _) => RegionNone(sg.fs, base, n, lim);
    case Sequence(_, _) => SequenceRegion(sg, e, nm, pool, base, n, lim);
    case Call(_, _) => CallRegion(sg, e, nm, pool, base, n, lim);
    case Binary(_, _, _) => BinaryRegion(sg, e, nm, pool, base, n, lim);
    case _ =>
  }

  lemma {:induction false} BinaryRegion(sg: Signature, e: Expr, nm: Names, pool: Pool, base: int, n: nat, lim: nat)
    requires e.Binary? && Prepared(sg, nm, pool, n) && OkExpr(sg, e, nm.locals.Keys, n, lim)
    ensures var r := LowerExpr(nm, e, pool, n);
            Region(sg.fs, TranslateAll(r.steps), base, n, r.next, lim)
    decreases e, 0
  {
    hide Region, Prepared, TranslateAll, NoMarkers, ValidAddr, GoodPool, Temps, Extends;
    PrepareNext(sg, e.left, nm, pool, n, lim);
    var lo := LowerExpr(nm, e.left, pool, n);
    ExprRegion(sg, e.left, nm, pool, base, n, lim);
    PrepareNext(sg, e.right, nm, lo.pool, lo.next, lim);
    var ro := LowerExpr(nm, e.right, lo.pool, lo.next);
    ExprRegion(sg, e.right, nm, lo.pool, base + |TranslateAll(lo.steps)|, lo.next, lim);
    var step := Ir.TacBinary(Ir.TempAt(ro.next), lo.addr.value, ro.addr.value, e.bop.op);
    RegionOne(sg.fs, TranslateStep(step)[0], base + |TranslateAll(lo.steps)| + |TranslateAll(ro.steps)|, ro.next, ro.next + 1, lim);
    PiecesLast(sg.fs, lo.steps, ro.steps, step, base, n, lo.next, ro.next, ro.next + 1, lim);
  }

  lemma {:induction false} SequenceRegion(sg: Signature, e: Expr, nm: Names, pool: Pool, base: int, n: nat, lim: nat)
    requires e.Sequence? && Prepared(sg, nm, pool, n) && OkExpr(sg, e, nm.locals.Keys, n, lim)
    ensures var r := LowerExpr(nm, e, pool, n);
            Region(sg.fs, TranslateAll(r.steps), base, n, r.next, lim)
    decreases e, 0
  {
    hide Region, TranslateAll, LowerItems, OkItems, NamesOk, GoodPool, GoodNames;
    GoodNamesGrow(sg, nm, n, n + 1);
    var dest := Ir.TempAt(n);
    LowerItemsSucceeds(sg, nm, e.items, dest, pool, nm.locals.Keys, n + 1, lim);
    ItemsRegion(sg, e.items, n, nm, pool, base + 1, n + 1, lim);
    var q := LowerItems(nm, e.items, dest, pool, n + 1);
    var made, frozen := Ir.OperUnary(dest, Ir.MakeSeq), Ir.OperUnary(dest, Ir.FrzSeqObj);
    RegionOne(sg.fs, TranslateStep(made)[0], base, n, n + 1, lim);
    TranslateOne(made);
    if e.isTuple {
      RegionOne(sg.fs, TranslateStep(frozen)[0], base + 1 + |TranslateAll(q.steps)|, q.next, q.next, lim);
      PiecesLast(sg.fs, [made], q.steps, frozen, base, n, n + 1, q.next, q.next, lim);
    } else {
      TranslateAppend([made], q.steps);
      RegionConcat(sg.fs, TranslateAll([made]), TranslateAll(q.steps), base, n, n + 1, q.next, lim);
    }
  }

  lemma {:induction false} ItemsRegion(sg: Signature, items: seq<Expr>, reg: int, nm: Names, pool: Pool, base: int, n: nat, lim: nat)
    requires Prepared(sg, nm, pool, n) && OkItems(sg, items, nm.locals.Keys, n, lim)
    ensures var r := LowerItems(nm, items, Ir.TempAt(reg), pool, n);
            Region(sg.fs, TranslateAll(r.steps), base, n, r.next, lim)
    decreases items, 2
  {
    hide Region, Prepared, LowerExpr, OkExpr, NoMarkers, ValidAddr, GoodPool, Temps, Extends;
    if items == [] {
      RegionNone(sg.fs, base, n, lim);
    } else {
      hide TranslateAll;
      PrepareNext(sg, items[0], nm, pool, n, lim);
      ExprRegion(sg, items[0], nm, pool, base, n, lim);
      var h := LowerExpr(nm, items[0], pool, n);
      var push := Ir.OperTernary(Ir.TempAt(reg), h.addr.value, Ir.Imm(1), Ir.SeqObjPush);
      var len := |TranslateAll(h.steps)|;
      RegionOne(sg.fs, TranslateStep(push)[0], base + len, h.next, h.next, lim);
      ItemsRegion(sg, items[1..], reg, nm, h.pool, base + len + 1, h.next, lim);
      var q := LowerItems(nm, items[1..], Ir.TempAt(reg), h.pool, h.next);
      Pieces(sg.fs, h.steps, push, q.steps, base, n, h.next, h.next, q.next, lim);
    }
  }

  /** The code of at least one argument ends in the move to the last temporary. */
  ghost predicate EndsInMove(code: M.Chunk, next: int) {
    code != [] && code[|code| - 1].op == M.Mov && code[|code| - 1].a.id == next - 1
  }

  lemma {:induction false} ArgsRegion(sg: Signature, args: seq<Expr>, nm: Names, pool: Pool, base: int, n: nat, lim: nat)
    requires Prepared(sg, nm, pool, n) && OkArgs(sg, args, nm.locals.Keys, n, lim)
    ensures var r := LowerArgs(nm, args, pool, n);
            Region(sg.fs, TranslateAll(r.steps), base, n, r.next, lim) && (args != [] ==> EndsInMove(TranslateAll(r.steps), r.next))
    decreases args, 2
  {
    hide Region, Prepared, LowerExpr, OkExpr, NoMarkers, ValidAddr, GoodPool, EndsInMove;
    if args == [] {
      RegionNone(sg.fs, base, n, lim);
    } else {
      hide TranslateAll;
      PrepareNext(sg, args[0], nm, pool, n, lim);
      ExprRegion(sg, args[0], nm, pool, base, n, lim);
      var h := LowerExpr(nm, args[0], pool, n);
      var move := Ir.TacMove(Ir.TempAt(h.next), h.addr.value);
      var len := |TranslateAll(h.steps)|;
      RegionOne(sg.fs, TranslateStep(move)[0], base + len, h.next, h.next + 1, lim);
      PreparedLater(sg, nm, h.pool, h.next);
      ArgsRegion(sg, args[1..], nm, h.pool, base + len + 1, h.next + 1, lim);
      var q := LowerArgs(nm, args[1..], h.pool, h.next + 1);
      Pieces(sg.fs, h.steps, move, q.steps, base, n, h.next, h.next + 1, q.next, lim);
      ArgsEnd(nm, args, pool, n);
    }
  }

  lemma ArgsEnd(nm: Names, args: seq<Expr>, pool: Pool, n: int)
    requires args != [] && LowerExpr(nm, args[0], pool, n).addr.Some?
    requires var h := LowerExpr(nm, args[0], pool, n);
             var q := LowerArgs(nm, args[1..], h.pool, h.next + 1);
             var move := Ir.TacMove(Ir.TempAt(h.next), h.addr.value);
             && (args[1..] != [] ==> EndsInMove(TranslateAll(q.steps), q.next))
             && TranslateAll(h.steps + [move] + q.steps) == TranslateAll(h.steps) + TranslateStep(move) + TranslateAll(q.steps)
    ensures var r := LowerArgs(nm, args, pool, n); EndsInMove(TranslateAll(r.steps), r.next)
  {
    hide LowerExpr, TranslateAll;
    var h := LowerExpr(nm, args[0], pool, n);
    if args[1..] == [] {
      NoSteps(nm, h.pool, h.next + 1);
    }
  }

  lemma NoSteps(nm: Names, pool: Pool, n: int)
    ensures TranslateAll(LowerArgs(nm, [], pool, n).steps) == [] && LowerArgs(nm, [], pool, n).next == n
  {
  }

  lemma PreparedLater(sg: Signature, nm: Names, pool: Pool, n: int)
    requires Prepared(sg, nm, pool, n)
    ensures Prepared(sg, nm, pool, n + 1)
  {
    hide NamesOk, GoodPool, FreshName;
  }

  lemma {:induction false} CallRegion(sg: Signature, e: Expr, nm: Names, pool: Pool, base: int, n: nat, lim: nat)
    requires e.Call? && Prepared(sg, nm, pool, n) && OkExpr(sg, e, nm.locals.Keys, n, lim)
    ensures var r := LowerExpr(nm, e, pool, n);
            Region(sg.fs, TranslateAll(r.steps), base, n, r.next, lim)
    decreases e, 0
  {
    hide Region, TranslateAll, LowerArgs, LowerExpr, OkArgs, NamesOk, GoodPool, GoodNames, FindFunction, NoMarkers;
    ArgsRegion(sg, e.args, nm, pool, base, n, lim);
    LowerCall(sg, nm, e, pool, nm.locals.Keys, n, lim);
    LowerArgsSucceeds(sg, nm, e.args, pool, nm.locals.Keys, n, lim);
    ArgTempsAtLeast(e.args);
    var q := LowerArgs(nm, e.args, pool, n);
    var call := Ir.OperBinary(Ir.Imm(FindFunction(sg.fs, e.callee.lexeme)), Ir.Imm(|e.args|), Ir.CallOp);
    TranslateAppend(q.steps, [call]);
    TranslateOne(call);
    RegionCall(sg.fs, TranslateAll(q.steps), TranslateStep(call)[0], base, n, q.next, lim);
  }

  lemma RegionCall(fs: seq<Fun>, code: M.Chunk, call: M.Instr, base: int, n: int, next: int, lim: int)
    requires Region(fs, code, base, n, next, lim) && EndsInMove(code, next) && next > n >= 0 && lim <= next
    requires call.op == M.Call && 0 <= call.a.id < |fs| && call.b.id == |fs[call.a.id].params| > 0
    ensures Region(fs, code + [call], base, n, next, lim)
  {
    var c := code + [call];
    CallAdded(fs, code, call, base, n, next, lim);
    forall j | 0 <= j < |c| && c[j].op == M.Jump && c[j].a.id <= base + j ensures LoopFits(c, base, j) {
      assert LoopFits(code, base, j);
      assert forall k | 0 <= k <= j :: c[k] == code[k];
    }
    hide CallFits, LoopFits;
    forall q | 0 <= q < |c| ensures Raised(c[q]) < next && (c[q].op == M.JumpElse ==> c[q].b.id > base + q) {
      assert q < |code| ==> c[q] == code[q];
    }
  }

  lemma CallAdded(fs: seq<Fun>, code: M.Chunk, call: M.Instr, base: int, n: int, next: int, lim: int)
    requires Region(fs, code, base, n, next, lim) && EndsInMove(code, next) && next > n >= 0 && lim <= next
    requires call.op == M.Call && 0 <= call.a.id < |fs| && call.b.id == |fs[call.a.id].params| > 0
    ensures var c := code + [call];
            forall q | 0 <= q < |c| :: c[q].op == M.Call ==> CallFits(fs, c, q, n, lim)
  {
    hide LoopFits;
    var c := code + [call];
    forall q | 0 <= q < |c| && c[q].op == M.Call ensures CallFits(fs, c, q, n, lim) {
      assert forall k | 0 <= k < q :: c[k] == code[k];
      if q < |code| {
        assert c[q] == code[q] && CallFits(fs, code, q, n, lim);
      } else {
        assert c[q] == call;
      }
    }
  }

  // ---------------------------------------------------------------- statements

  /** A region whose jumps go to no index before it. */
  ghost predicate Closed(fs: seq<Fun>, code: M.Chunk, base: int, n: int, next: int, lim: int) {
    Region(fs, code, base, n, next, lim) && forall k | 0 <= k < |code| :: code[k].op == M.Jump ==> code[k].a.id >= base
  }

  lemma ClosedConcat(fs: seq<Fun>, a: M.Chunk, b: M.Chunk, base: int, n: int, n1: int, n2: int, lim: int)
    requires Closed(fs, a, base, n, n1, lim) && Closed(fs, b, base + |a|, n1, n2, lim)
    ensures Closed(fs, a + b, base, n, n2, lim)
  {
    hide Region;
    RegionConcat(fs, a, b, base, n, n1, n2, lim);
    forall k | 0 <= k < |a + b| && (a + b)[k].op == M.Jump ensures (a + b)[k].a.id >= base {
      assert k >= |a| ==> (a + b)[k] == b[k - |a|];
    }
  }

  lemma ClosedOne(fs: seq<Fun>, i: M.Instr, base: int, n: int, next: int, lim: int)
    requires n <= next && Raised(i) < next && i.op != M.Call
    requires i.op == M.Jump ==> i.a.id > base
    requires i.op == M.JumpElse ==> i.b.id > base
    ensures Closed(fs, [i], base, n, next, lim)
  {
    RegionOne(fs, i, base, n, next, lim);
  }

  lemma ClosedExpr(sg: Signature, e: Expr, nm: Names, pool: Pool, base: int, n: nat, lim: nat)
    requires Prepared(sg, nm, pool, n) && OkExpr(sg, e, nm.locals.Keys, n, lim)
    ensures var r := LowerExpr(nm, e, pool, n);
            r.addr.Some? && r.next >= n && Closed(sg.fs, TranslateAll(r.steps), base, n, r.next, lim)
  {
    hide Region, Prepared, LowerExpr, TranslateAll, OkExpr, NoMarkers, ValidAddr, GoodPool;
    PrepareNext(sg, e, nm, pool, n, lim);
    ExprRegion(sg, e, nm, pool, base, n, lim);
    ExprPlain(nm, e, pool, n);
    PlainNoJumps(LowerExpr(nm, e, pool, n).steps);
  }

  /** A value, then one instruction that is not a jump back. */
  lemma ClosedValue(sg: Signature, e: Expr, nm: Names, pool: Pool, base: int, n: nat, lim: nat, i: M.Instr, next: int)
    requires Prepared(sg, nm, pool, n) && OkExpr(sg, e, nm.locals.Keys, n, lim)
    requires var r := LowerExpr(nm, e, pool, n);
             && r.next <= next && Raised(i) < next && i.op != M.Call && i.op != M.Jump
             && (i.op == M.JumpElse ==> i.b.id > base + |TranslateAll(r.steps)|)
    ensures var r := LowerExpr(nm, e, pool, n); Closed(sg.fs, TranslateAll(r.steps) + [i], base, n, next, lim)
  {
    hide Closed, Prepared, LowerExpr, TranslateAll, OkExpr;
    var r := LowerExpr(nm, e, pool, n);
    ClosedExpr(sg, e, nm, pool, base, n, lim);
    ClosedOne(sg.fs, i, base + |TranslateAll(r.steps)|, r.next, next, lim);
    ClosedConcat(sg.fs, TranslateAll(r.steps), [i], base, n, r.next, next, lim);
  }

  /** A `break` in this code goes past its end. */
  ghost predicate ExitsAfter(inLoop: bool, brk: int, base: int, code: M.Chunk) {
    inLoop ==> brk >= base + |code|
  }

  lemma {:induction false} StmtRegion(
    sg: Signature, s: Stmt, nm: Names, pool: Pool, base: int, n: nat, lim: nat, inLoop: bool, brk: int)
    requires Prepared(sg, nm, pool, n) && OkStmt(sg, s, nm.locals.Keys, n, lim, inLoop)
    requires ExitsAfter(inLoop, brk, base, CompileStmt(s, nm, pool, n, base, brk).code)
    ensures var c := CompileStmt(s, nm, pool, n, base, brk); Closed(sg.fs, c.code, base, n, c.next, lim)
    decreases s, 2
  {
    hide *;
    match s
    case If(_, _, _) => IfRegion(sg, s, nm, pool, base, n, lim, inLoop, brk);
    case While(_, _) => WhileRegion(sg, s, nm, pool, base, n, lim, inLoop, brk);
    case _ => SimpleRegion(sg, s, nm, pool, base, n, lim, inLoop, brk);
  }

  lemma SimpleRegion(
    sg: Signature, s: Stmt, nm: Names, pool: Pool, base: int, n: nat, lim: nat, inLoop: bool, brk: int)
    requires !s.If? && !s.While?
    requires Prepared(sg, nm, pool, n) && OkStmt(sg, s, nm.locals.Keys, n, lim, inLoop)
    requires ExitsAfter(inLoop, brk, base, CompileStmt(s, nm, pool, n, base, brk).code)
    ensures var c := CompileStmt(s, nm, pool, n, base, brk); Closed(sg.fs, c.code, base, n, c.next, lim)
  {
    hide Closed, Prepared, LowerExpr, TranslateAll, OkExpr;
    match s
    case ExprStmt(e) =>
      if e.Assign? {
        AssignRegion(sg, e, nm, pool, base, n, lim);
      } else {
        ClosedExpr(sg, e, nm, pool, base, n, lim);
      }
    case LocalDef(name, init) =>
      var r := LowerExpr(nm, init, pool, n);
      ClosedValue(sg, init, nm, pool, base, n, lim, MovInstr(Ir.TempAt(r.next), Result(r)), r.next + 1);
    case Return(result) =>
      var r := LowerExpr(nm, result, pool, n);
      ClosedExpr(sg, result, nm, pool, base, n, lim);
      ClosedValue(sg, result, nm, pool, base, n, lim, Single(M.Ret, Translate(Result(r))), r.next);
    case Break => ClosedOne(sg.fs, JumpTo(brk), base, n, n, lim);
  }

  lemma AssignRegion(sg: Signature, e: Expr, nm: Names, pool: Pool, base: int, n: nat, lim: nat)
    requires Prepared(sg, nm, pool, n) && e.Assign? && e.target.Literal? && e.target.kind == TkIdent && e.target.lexeme in nm.locals
    requires OkExpr(sg, e.value, nm.locals.Keys, n, lim)
    ensures var r := LowerExpr(nm, e, pool, n); Closed(sg.fs, TranslateAll(r.steps), base, n, r.next, lim)
  {
    hide Closed, NamesOk, GoodPool, LowerExpr, TranslateAll, OkExpr, FreshName;
    LowerAssignment(sg, nm, e, pool, n, lim);
    ClosedExpr(sg, e.value, nm, pool, base, n, lim);
    var r := LowerExpr(nm, e.value, pool, n);
    var move := Ir.TacMove(nm.locals[e.target.lexeme], r.addr.value);
    TranslateAppend(r.steps, [move]);
    TranslateOne(move);
    ClosedValue(sg, e.value, nm, pool, base, n, lim, MovInstr(move.dest, move.src), r.next);
  }

  /** The condition, the test and the first branch. */
  lemma {:induction false} ThenRegion(
    sg: Signature, s: Stmt, nm: Names, pool: Pool, base: int, n: nat, lim: nat, inLoop: bool, brk: int)
    requires s.If? && Prepared(sg, nm, pool, n) && OkStmt(sg, s, nm.locals.Keys, n, lim, inLoop)
    requires ExitsAfter(inLoop, brk, base, CompileStmt(s, nm, pool, n, base, brk).code)
    ensures var r := LowerExpr(nm, s.cond, pool, n);
            var t := ThenPart(s, nm, pool, n, base, brk);
            var end := ThenEnd(s, nm, pool, n, base, brk);
            && n <= r.next <= t.next
            && Closed(sg.fs, TranslateAll(r.steps) + [JumpElseTo(Result(r), if s.els.NoElse? then end else end + 1)] + t.code,
                      base, n, t.next, lim)
    decreases s, 0
  {
    hide Closed, Prepared, LowersWell, Extends, LowerExpr, TranslateAll, OkExpr, NamesOk, CompileStmts;
    PrepareNext(sg, s.cond, nm, pool, n, lim);
    var r := LowerExpr(nm, s.cond, pool, n);
    var check := TranslateAll(r.steps);
    var first := base + |check| + 1;
    var t := CompileStmts(s.thn, nm, r.pool, r.next, first, brk);
    var end := first + |t.code|;
    var test := JumpElseTo(Result(r), if s.els.NoElse? then end else end + 1);
    ClosedExpr(sg, s.cond, nm, pool, base, n, lim);
    ClosedValue(sg, s.cond, nm, pool, base, n, lim, test, r.next);
    StmtsRegion(sg, s.thn, nm, r.pool, first, r.next, lim, inLoop, brk);
    ClosedConcat(sg.fs, check + [test], t.code, base, n, r.next, t.next, lim);
  }

  /** The second branch. */
  lemma {:induction false} ElseRegion(
    sg: Signature, s: Stmt, nm: Names, pool: Pool, base: int, n: nat, lim: nat, inLoop: bool, brk: int)
    requires s.If? && s.els.Else? && Prepared(sg, nm, pool, n) && OkStmt(sg, s, nm.locals.Keys, n, lim, inLoop)
    requires ExitsAfter(inLoop, brk, base, CompileStmt(s, nm, pool, n, base, brk).code)
    ensures var t := ThenPart(s, nm, pool, n, base, brk);
            var f := ElsePart(s, nm, pool, n, base, brk);
            && t.next <= f.next
            && Closed(sg.fs, f.code, ThenEnd(s, nm, pool, n, base, brk) + 2, t.next, f.next, lim)
    decreases s, 0
  {
    hide Closed, Prepared, LowersWell, CompilesWell, Extends, LowerExpr, TranslateAll, OkExpr, NamesOk, CompileStmts;
    CompileThenFacts(sg, s, nm, pool, n, lim, inLoop, base, brk);
    CompileNothing(sg, nm, pool, n, Compiled([], nm, pool, n));
    var r := LowerExpr(nm, s.cond, pool, n);
    var t := ThenPart(s, nm, pool, n, base, brk);
    PrepareAfter(sg, t, nm, r.pool, r.next, n + Temps(s.cond) + BlockTemps(s.thn), DefinedIn(s.thn));
    StmtsRegion(sg, s.els.body, t.nm, t.pool, ThenEnd(s, nm, pool, n, base, brk) + 2, t.next, lim, inLoop, brk);
  }

  lemma {:induction false} IfRegion(
    sg: Signature, s: Stmt, nm: Names, pool: Pool, base: int, n: nat, lim: nat, inLoop: bool, brk: int)
    requires s.If? && Prepared(sg, nm, pool, n) && OkStmt(sg, s, nm.locals.Keys, n, lim, inLoop)
    requires ExitsAfter(inLoop, brk, base, CompileStmt(s, nm, pool, n, base, brk).code)
    ensures var c := CompileStmt(s, nm, pool, n, base, brk); Closed(sg.fs, c.code, base, n, c.next, lim)
    decreases s, 1
  {
    hide Closed, Prepared, LowerExpr, TranslateAll, CompileStmts, OkStmt, ExitsAfter;
    ThenRegion(sg, s, nm, pool, base, n, lim, inLoop, brk);
    var r := LowerExpr(nm, s.cond, pool, n);
    var t, end := ThenPart(s, nm, pool, n, base, brk), ThenEnd(s, nm, pool, n, base, brk);
    var front := TranslateAll(r.steps) + [JumpElseTo(Result(r), if s.els.NoElse? then end else end + 1)] + t.code;
    if s.els.NoElse? {
      ThenNop(sg.fs, front, base, n, t.next, lim);
    } else {
      ElseRegion(sg, s, nm, pool, base, n, lim, inLoop, brk);
      var f := ElsePart(s, nm, pool, n, base, brk);
      ThenElse(sg.fs, front, f.code, base, n, t.next, f.next, lim);
    }
  }

  lemma ThenNop(fs: seq<Fun>, code: M.Chunk, base: int, n: int, next: int, lim: int)
    requires Closed(fs, code, base, n, next, lim) && next >= 0
    ensures Closed(fs, code + [NOP], base, n, next, lim)
  {
    hide Closed;
    ClosedOne(fs, NOP, base + |code|, next, next, lim);
    ClosedConcat(fs, code, [NOP], base, n, next, next, lim);
  }

  /** A jump over the second branch, which stands between two `nop`s. */
  lemma ThenElse(fs: seq<Fun>, front: M.Chunk, other: M.Chunk, base: int, n: int, n1: int, n2: int, lim: int)
    requires Closed(fs, front, base, n, n1, lim) && Closed(fs, other, base + |front| + 2, n1, n2, lim) && 0 <= n1 <= n2
    ensures var end := base + |front|;
            Closed(fs, front + [JumpTo(end + 2 + |other|), NOP] + other + [NOP], base, n, n2, lim)
  {
    hide Closed;
    var end := base + |front|;
    var jump := JumpTo(end + 2 + |other|);
    ClosedOne(fs, jump, end, n1, n1, lim);
    ClosedConcat(fs, front, [jump], base, n, n1, n1, lim);
    ThenNop(fs, front + [jump], base, n, n1, lim);
    assert front + [jump] + [NOP] == front + [jump, NOP];
    ClosedConcat(fs, front + [jump, NOP], other, base, n, n1, n2, lim);
    ThenNop(fs, front + [jump, NOP] + other, base, n, n2, lim);
  }

  lemma {:induction false} WhileRegion(
    sg: Signature, s: Stmt, nm: Names, pool: Pool, base: int, n: nat, lim: nat, inLoop: bool, brk: int)
    requires s.While? && Prepared(sg, nm, pool, n) && OkStmt(sg, s, nm.locals.Keys, n, lim, inLoop)
    ensures var c := CompileStmt(s, nm, pool, n, base, brk); Closed(sg.fs, c.code, base, n, c.next, lim)
    decreases s, 0
  {
    hide Closed, Prepared, LowersWell, CompilesWell, Extends, LowerExpr, TranslateAll, OkExpr, CompileStmts, StmtTemps;
    var high := S.LoopHigh(s, n, lim);
    PrepareNext(sg, s.check, nm, pool, n, high);
    S.LoopShape(s, nm, pool, n, base, brk);
    CompileStmtFacts(sg, s, nm, pool, n, lim, inLoop, base, brk);
    CompileNothing(sg, nm, pool, n, Compiled([], nm, pool, n));
    var r := LowerExpr(nm, s.check, pool, n);
    var b := S.BodyPart(s, nm, pool, n, base);
    var exit := S.LoopExit(s, nm, pool, n, base);
    PrepareAfter(sg, CompileStmt(s, nm, pool, n, base, brk), nm, pool, n, n + StmtTemps(s), DefinedBy(s));
    StmtsRegion(sg, s.body, nm, r.pool, base + 1 + |TranslateAll(r.steps)| + 1, r.next, high, true, exit);
    LoopRegion(sg, s.check, nm, pool, base, n, high, b.code, b.next, exit);
    ClosedWeaken(sg.fs, CompileStmt(s, nm, pool, n, base, brk).code, base, n, b.next, high, lim);
  }

  lemma LoopRegion(sg: Signature, e: Expr, nm: Names, pool: Pool, base: int, n: nat, high: nat, body: M.Chunk, next: int, exit: int)
    requires Prepared(sg, nm, pool, n) && OkExpr(sg, e, nm.locals.Keys, n, high)
    requires var r := LowerExpr(nm, e, pool, n);
             && n <= r.next <= next <= high && exit == base + 1 + |TranslateAll(r.steps)| + 1 + |body| + 1
             && Closed(sg.fs, body, base + 1 + |TranslateAll(r.steps)| + 1, r.next, next, high)
    ensures var r := LowerExpr(nm, e, pool, n);
            Closed(sg.fs, [NOP] + TranslateAll(r.steps) + [JumpElseTo(Result(r), exit)] + body + [JumpTo(base), NOP], base, n, next, high)
  {
    hide Prepared, LowerExpr, TranslateAll, OkExpr, Region;
    var r := LowerExpr(nm, e, pool, n);
    var check, test := TranslateAll(r.steps), JumpElseTo(Result(r), exit);
    var front, back := [NOP] + (check + [test]) + body, JumpTo(base);
    assert Closed(sg.fs, front, base, n, next, high) by {
      hide Closed;
      ClosedOne(sg.fs, NOP, base, n, n, high);
      ClosedValue(sg, e, nm, pool, base + 1, n, high, test, r.next);
      ClosedConcat(sg.fs, [NOP], check + [test], base, n, n, r.next, high);
      ClosedConcat(sg.fs, [NOP] + (check + [test]), body, base, n, r.next, next, high);
    }
    RegionLoop(sg.fs, front, base, n, next, high);
    ThenNop(sg.fs, front + [back], base, n, next, high);
    assert [NOP] + check + [test] + body + [back, NOP] == front + [back] + [NOP];
  }

  lemma ClosedWeaken(fs: seq<Fun>, code: M.Chunk, base: int, n: int, next: int, high: int, lim: int)
    requires Closed(fs, code, base, n, next, high) && lim <= high
    ensures Closed(fs, code, base, n, next, lim)
  {
    hide Region;
    RegionWeaken(fs, code, base, n, next, high, lim);
  }

  lemma {:induction false} StmtsRegion(
    sg: Signature, ss: seq<Stmt>, nm: Names, pool: Pool, base: int, n: nat, lim: nat, inLoop: bool, brk: int)
    requires Prepared(sg, nm, pool, n) && OkStmts(sg, ss, nm.locals.Keys, n, lim, inLoop)
    requires ExitsAfter(inLoop, brk, base, CompileStmts(ss, nm, pool, n, base, brk).code)
    ensures var c := CompileStmts(ss, nm, pool, n, base, brk); c.next >= n && Closed(sg.fs, c.code, base, n, c.next, lim)
    decreases ss, 3
  {
    hide Region, Prepared, CompilesWell, CompileStmt, OkStmt, NamesOk;
    if ss == [] {
      RegionNone(sg.fs, base, n, lim);
    } else {
      hide Closed;
      CompileNothing(sg, nm, pool, n, Compiled([], nm, pool, n));
      CompileStmtFacts(sg, ss[0], nm, pool, n, lim, inLoop, base, brk);
      var h := CompileStmt(ss[0], nm, pool, n, base, brk);
      PrepareAfter(sg, h, nm, pool, n, n + StmtTemps(ss[0]), DefinedBy(ss[0]));
      StmtRegion(sg, ss[0], nm, pool, base, n, lim, inLoop, brk);
      var t := CompileStmts(ss[1..], h.nm, h.pool, h.next, base + |h.code|, brk);
      StmtsRegion(sg, ss[1..], h.nm, h.pool, base + |h.code|, h.next, lim, inLoop, brk);
      ClosedConcat(sg.fs, h.code, t.code, base, n, h.next, t.next, lim);
    }
  }

  // ---------------------------------------------------------------- reachable states

  /** What the whole chunk of a function satisfies. */
  ghost predicate ChunkFits(fs: seq<Fun>, c: M.Chunk, params: nat) {
    && (forall q | 0 <= q < |c| :: c[q].op == M.Call ==> CallFits(fs, c, q, params, 1))
    && (forall j | 0 <= j < |c| :: c[j].op == M.Jump && c[j].a.id <= j ==> LoopFits(c, 0, j))
    && (forall j | 0 <= j < |c| :: c[j].op == M.JumpElse ==> c[j].b.id > j)
    && JumpsFine(c, c, 0, 0, false)
  }

  ghost predicate CodeFits(fs: seq<Fun>, code: M.Code) {
    |code.chunks| == |fs| && forall i | 0 <= i < |fs| :: ChunkFits(fs, code.chunks[i], |fs[i].params|)
  }

  lemma RegionFits(fs: seq<Fun>, c: M.Chunk, params: nat, next: int)
    requires Region(fs, c, 0, params, next, 1) && JumpsFine(c, c, 0, 0, false)
    ensures ChunkFits(fs, c, params)
  {
    hide LoopFits, CallFits, JumpsFine;
  }

  lemma CompiledFits(p: Program, natives: map<string, int>)
    requires WellFormed(p, natives.Keys)
    ensures Compile(natives, p).Some? && CodeFits(Functions(p), Compile(natives, p).value)
    ensures |Functions(p)| == |Compile(natives, p).value.chunks|
    ensures var m := FindFunction(Functions(p), "main");
            m < |Functions(p)| && Functions(p)[m].params == [] && Compile(natives, p).value.entry == m
  {
    hide *;
    WellFormedParts(p, natives.Keys);
    var l := CompileLinked(p, natives);
    S.LinkedSizes(l);
    forall i | 0 <= i < |l.sg.fs| ensures ChunkFits(l.sg.fs, l.code.chunks[i], |l.sg.fs[i].params|) {
      LinkedFits(l, i);
    }
    AllFit(l);
  }

  lemma AllFit(l: Linked)
    requires |l.sg.fs| == |l.code.chunks|
    requires forall i | 0 <= i < |l.sg.fs| :: ChunkFits(l.sg.fs, l.code.chunks[i], |l.sg.fs[i].params|)
    ensures CodeFits(l.sg.fs, l.code)
  {
    hide ChunkFits;
  }

  lemma LinkedJumps(l: Linked, i: nat)
    requires WellLinked(l) && i < |l.sg.fs| == |l.pools| == |l.code.chunks| == |l.tables|
    ensures JumpsFine(l.code.chunks[i], l.code.chunks[i], 0, 0, false)
  {
    hide CompileStmts, CleanStmts, OkStmts, GoodPool, NamesOk, NothingLost, JumpsFine, FreshName, Distinct, Prepared, ParamLocals;
    var f := l.sg.fs[i];
    assert OkFunction(l.sg, f) && FunctionPlaced(l, i);
    BodyPrepared(l.sg, l.natives, f, l.pools[i]);
    var nm := BodyNames(l.natives, f);
    StmtsClean(l.sg, f.body, nm, l.pools[i], |f.params|, 1, false);
    CleanAllBreaksInside(f.body, nm, l.pools[i], |f.params|, false);
    StmtsJumps(f.body, nm, l.pools[i], |f.params|, 0, 0, false);
  }

  lemma LinkedFits(l: Linked, i: nat)
    requires WellLinked(l) && i < |l.sg.fs|
    ensures |l.sg.fs| == |l.code.chunks| && ChunkFits(l.sg.fs, l.code.chunks[i], |l.sg.fs[i].params|)
  {
    hide OkStmts, GoodPool, NothingLost, FreshName, ParamLocals, Distinct, CompileStmts, NamesOk, WellLinked, GoodNames, Region, ChunkFits,
         Ahead, Table, JumpsFine;
    S.LinkedFunction(l, i);
    LinkedNames(l);
    S.BodyAhead(l, i);
    LinkedJumps(l, i);
    var f := l.sg.fs[i];
    var nm := Names(l.natives, ParamLocals(f.params));
    StmtsRegion(l.sg, f.body, nm, l.pools[i], 0, |f.params|, 1, false, 0);
    RegionFits(l.sg.fs, l.code.chunks[i], |f.params|, CompileStmts(f.body, nm, l.pools[i], |f.params|, 0, 0).next);
  }

  /** The static bound at an instruction: the parameters, and every register that can have been
      raised before it. In the first activation the frame top starts on register 0. */
  function Bound(fs: seq<Fun>, code: M.Code, fn: int, ip: int): int
    requires 0 <= fn < |fs| == |code.chunks| && 0 <= ip <= |code.chunks[fn]|
  {
    var c := code.chunks[fn];
    M.Max(M.Max(0, |fs[fn].params| - 1), Highest(c[..PastLoops(c, ip, |c|)]))
  }

  ghost predicate FrameFits(fs: seq<Fun>, code: M.Code, fn: int, ip: int, rbp: int, rft: int)
    requires |fs| == |code.chunks|
  {
    0 <= fn < |fs| && 0 <= ip <= |code.chunks[fn]| && rft - rbp <= Bound(fs, code, fn, ip)
  }

  predicate IsCall(c: M.Chunk, ip: int) {
    0 <= ip < |c| && c[ip].op == M.Call
  }

  /** The topmost activation and all saved ones are within their bounds; right before a call the
      last argument has been moved, right after one nothing has. */
  ghost predicate Fits(fs: seq<Fun>, code: M.Code, s: M.State)
    requires |fs| == |code.chunks|
  {
    && FrameFits(fs, code, s.fn, s.ip, s.rbp, s.rft)
    && (IsCall(code.chunks[s.fn], s.ip) ==> s.ip > 0 && s.rft >= s.rbp + code.chunks[s.fn][s.ip - 1].a.id)
    && forall i | 1 <= i < |s.frames| ::
         var f := s.frames[i];
         && FrameFits(fs, code, f.fn, f.ip, f.rbp, f.rft)
         && f.ip > 0 && code.chunks[f.fn][f.ip - 1].op == M.Call
  }

  lemma NextPastLoops(c: M.Chunk, ip: nat)
    requires ip < |c|
    ensures PastLoops(c, ip, |c|) <= PastLoops(c, ip + 1, |c|)
  {
    var r := PastLoops(c, ip, |c|);
    if r > ip + 1 {
      assert Loops(c, ip + 1, r - 1);
    }
  }

  lemma {:induction false} ForwardPastLoops(c: M.Chunk, ip: nat, target: nat)
    requires ip <= target <= |c|
    ensures PastLoops(c, ip, |c|) <= PastLoops(c, target, |c|)
    decreases target - ip
  {
    if ip < target {
      NextPastLoops(c, ip);
      ForwardPastLoops(c, ip + 1, target);
    }
  }

  lemma BackPastLoops(c: M.Chunk, ip: nat)
    requires ip < |c| && c[ip].op == M.Jump && 0 <= c[ip].a.id <= ip
    requires forall j | 0 <= j < |c| :: c[j].op == M.Jump && c[j].a.id <= j ==> LoopFits(c, 0, j)
    ensures PastLoops(c, ip, |c|) <= PastLoops(c, c[ip].a.id, |c|)
  {
    var target, k := c[ip].a.id, PastLoops(c, ip, |c|) - 1;
    assert Loops(c, ip, ip) && Loops(c, ip, k) && LoopFits(c, 0, k);
    LoopNests(c, k, ip);
  }

  /** A loop around a jump back is a loop around the target of that jump. */
  lemma LoopNests(c: M.Chunk, k: nat, ip: nat)
    requires ip <= k < |c| && LoopFits(c, 0, k) && Loops(c, ip, k) && c[ip].op == M.Jump && 0 <= c[ip].a.id <= ip
    ensures k < PastLoops(c, c[ip].a.id, |c|)
  {
    hide PastLoops;
    assert Loops(c, c[ip].a.id, k);
  }

  lemma BoundGrows(fs: seq<Fun>, code: M.Code, fn: int, ip: int, ip': int)
    requires 0 <= fn < |fs| == |code.chunks| && 0 <= ip <= |code.chunks[fn]| && 0 <= ip' <= |code.chunks[fn]|
    requires var c := code.chunks[fn]; PastLoops(c, ip, |c|) <= PastLoops(c, ip', |c|)
    ensures Bound(fs, code, fn, ip) <= Bound(fs, code, fn, ip')
  {
    hide Highest, PastLoops;
    var c := code.chunks[fn];
    HighestGrows(c, PastLoops(c, ip, |c|), PastLoops(c, ip', |c|));
  }

  /** Going on to the next instruction, with the register raised by this one. */
  lemma BoundNext(fs: seq<Fun>, code: M.Code, fn: int, ip: int)
    requires 0 <= fn < |fs| == |code.chunks| && 0 <= ip < |code.chunks[fn]|
    ensures Bound(fs, code, fn, ip) <= Bound(fs, code, fn, ip + 1)
    ensures Raised(code.chunks[fn][ip]) <= Bound(fs, code, fn, ip + 1)
  {
    var c := code.chunks[fn];
    NextPastLoops(c, ip);
    BoundGrows(fs, code, fn, ip, ip + 1);
    var r := PastLoops(c, ip + 1, |c|);
    assert c[..r][ip] == c[ip];
  }

  /** No register of a loop around a call is raised above the last argument's. */
  lemma LoopCallTop(c: M.Chunk, j: int, ip: int, q: int)
    requires 0 <= j < |c| && LoopFits(c, 0, j) && c[j].a.id <= ip <= j && 0 <= q <= j && ip > 0 && c[ip].op == M.Call
    ensures Raised(c[q]) <= c[ip - 1].a.id
  {
  }

  lemma CallTop(fs: seq<Fun>, c: M.Chunk, params: nat, ip: nat, q: nat)
    requires ChunkFits(fs, c, params) && ip < |c| && c[ip].op == M.Call && q < PastLoops(c, ip, |c|)
    ensures ip > 0 && c[ip - 1].op == M.Mov && c[ip - 1].a.id >= params && Raised(c[q]) <= c[ip - 1].a.id
  {
    hide LoopFits;
    assert CallFits(fs, c, ip, params, 1);
    var r := PastLoops(c, ip, |c|);
    if q >= ip {
      assert Loops(c, ip, r - 1);
      LoopCallTop(c, r - 1, ip, q);
    }
  }

  /** Right before a call the bound is the register of the last argument. */
  lemma BoundAtCall(fs: seq<Fun>, code: M.Code, fn: int, ip: int)
    requires CodeFits(fs, code) && 0 <= fn < |fs| && 0 <= ip < |code.chunks[fn]| && code.chunks[fn][ip].op == M.Call
    ensures ip > 0 && code.chunks[fn][ip - 1].op == M.Mov
    ensures Bound(fs, code, fn, ip) == code.chunks[fn][ip - 1].a.id
  {
    var c, params := code.chunks[fn], |fs[fn].params|;
    var r := PastLoops(c, ip, |c|);
    assert ChunkFits(fs, c, params);
    hide ChunkFits, CodeFits, PastLoops;
    assert ip > 0 && c[ip - 1].op == M.Mov && c[ip - 1].a.id >= params by { CallPlace(fs, c, params, ip); }
    forall q | 0 <= q < r ensures Raised(c[..r][q]) <= c[ip - 1].a.id {
      CallTop(fs, c, params, ip, q);
    }
    assert r >= ip by { PastStart(c, ip); }
    assert c[..r][ip - 1] == c[ip - 1];
    assert Raised(c[ip - 1]) == c[ip - 1].a.id;
  }

  lemma CallPlace(fs: seq<Fun>, c: M.Chunk, params: nat, ip: nat)
    requires ChunkFits(fs, c, params) && ip < |c| && c[ip].op == M.Call
    ensures ip > 0 && c[ip - 1].op == M.Mov && c[ip - 1].a.id >= params
  {
    hide LoopFits;
    assert CallFits(fs, c, ip, params, 1);
  }

  lemma PastStart(c: M.Chunk, ip: nat)
    requires ip <= |c|
    ensures PastLoops(c, ip, |c|) >= ip
  {
  }

  /** An instruction that goes on to the next one and raises the frame top at most to its
      destination. */
  lemma FitsNext(fs: seq<Fun>, code: M.Code, s: M.State, t: M.State)
    requires CodeFits(fs, code) && M.Running(s) && M.AtInstr(code, s) && Fits(fs, code, s)
    requires t.fn == s.fn && t.ip == s.ip + 1 && t.rbp == s.rbp && t.frames == s.frames
    requires var i := code.chunks[s.fn][s.ip];
             t.rft <= M.Max(s.rft, s.rbp + Raised(i)) && t.rft >= s.rft && i.op != M.Call && (i.op == M.Mov ==> t.rft >= s.rbp + i.a.id)
    ensures Fits(fs, code, t)
  {
    hide Bound;
    BoundNext(fs, code, s.fn, s.ip);
    var c := code.chunks[s.fn];
    if IsCall(c, t.ip) {
      BoundAtCall(fs, code, s.fn, t.ip);
    }
  }

  /** A jump leads to a `nop` of the chunk and out of no loop's bound. */
  lemma JumpPast(fs: seq<Fun>, c: M.Chunk, params: nat, ip: nat, target: int)
    requires ChunkFits(fs, c, params) && ip < |c|
    requires (c[ip].op == M.Jump && target == c[ip].a.id) || (c[ip].op == M.JumpElse && target == c[ip].b.id)
    ensures 0 <= target < |c| && c[target] == NOP && PastLoops(c, ip, |c|) <= PastLoops(c, target, |c|)
  {
    hide CallFits, LoopFits, PastLoops;
    assert JumpFine(c, 0, c[ip], 0, false);
    ChunkLoops(fs, c, params);
    hide ChunkFits, JumpsFine;
    if target > ip {
      ForwardPastLoops(c, ip, target);
    } else {
      BackPastLoops(c, ip);
    }
  }

  lemma FitsJump(fs: seq<Fun>, code: M.Code, s: M.State, target: int)
    requires CodeFits(fs, code) && M.Running(s) && M.AtInstr(code, s) && Fits(fs, code, s)
    requires var i := code.chunks[s.fn][s.ip];
             (i.op == M.Jump && target == i.a.id) || (i.op == M.JumpElse && target == i.b.id)
    ensures Fits(fs, code, s.(ip := target))
  {
    hide ChunkFits, Bound, PastLoops;
    var c := code.chunks[s.fn];
    JumpPast(fs, c, |fs[s.fn].params|, s.ip, target);
    hide CodeFits;
    BoundGrows(fs, code, s.fn, s.ip, target);
  }

  lemma ChunkLoops(fs: seq<Fun>, c: M.Chunk, params: nat)
    requires ChunkFits(fs, c, params)
    ensures forall j | 0 <= j < |c| :: c[j].op == M.Jump && c[j].a.id <= j ==> LoopFits(c, 0, j)
  {
    hide LoopFits, CallFits;
  }

  lemma FitsCall(fs: seq<Fun>, code: M.Code, s: M.State)
    requires CodeFits(fs, code) && M.Running(s) && M.AtInstr(code, s) && Fits(fs, code, s) && code.chunks[s.fn][s.ip].op == M.Call
    ensures Fits(fs, code, M.StepCall(s, code.chunks[s.fn][s.ip]))
  {
    hide Bound;
    var c := code.chunks[s.fn];
    var i := c[s.ip];
    assert ChunkFits(fs, c, |fs[s.fn].params|) && CallFits(fs, c, s.ip, |fs[s.fn].params|, 1);
    BoundNext(fs, code, s.fn, s.ip);
    var u := M.StepCall(s, i);
    assert i.b.id - 1 <= Bound(fs, code, u.fn, 0) by { BoundParams(fs, code, u.fn); }
    if IsCall(code.chunks[u.fn], 0) {
      BoundAtCall(fs, code, u.fn, 0);
    }
    forall k | 1 <= k < |u.frames|
      ensures var f := u.frames[k];
              && FrameFits(fs, code, f.fn, f.ip, f.rbp, f.rft)
              && f.ip > 0 && code.chunks[f.fn][f.ip - 1].op == M.Call
    {
      assert k < |s.frames| ==> u.frames[k] == s.frames[k];
    }
  }

  lemma BoundParams(fs: seq<Fun>, code: M.Code, fn: int)
    requires 0 <= fn < |fs| == |code.chunks|
    ensures |fs[fn].params| - 1 <= Bound(fs, code, fn, 0)
  {
  }

  lemma FitsRet(fs: seq<Fun>, code: M.Code, s: M.State, t: M.State)
    requires CodeFits(fs, code) && M.Running(s) && Fits(fs, code, s) && |s.frames| > 1
    requires var f := s.frames[|s.frames| - 1];
             t.fn == f.fn && t.ip == f.ip && t.rbp == f.rbp && t.rft == f.rft && t.frames == s.frames[..|s.frames| - 1]
    ensures Fits(fs, code, t)
  {
    hide Bound;
    if IsCall(code.chunks[t.fn], t.ip) {
      BoundAtCall(fs, code, t.fn, t.ip);
    }
    forall k | 1 <= k < |t.frames| ensures t.frames[k] == s.frames[k] {
    }
  }

  lemma StepFits(fs: seq<Fun>, code: M.Code, s: M.State)
    requires CodeFits(fs, code) && M.Running(s) && Fits(fs, code, s) && M.Running(M.Step(code, s))
    ensures Fits(fs, code, M.Step(code, s))
  {
    hide CodeFits, Fits;
    var i := code.chunks[s.fn][s.ip];
    match i.op
    case Jump => FitsJump(fs, code, s, i.a.id);
    case JumpElse =>
      if Truthy(M.Read(s.mem, s.rbp + i.a.id)) {
        FitsNext(fs, code, s, M.Step(code, s));
      } else {
        FitsJump(fs, code, s, i.b.id);
      }
    case Call => FitsCall(fs, code, s);
    case Ret => FitsRet(fs, code, s, M.Step(code, s));
    case _ => FitsNext(fs, code, s, M.Step(code, s));
  }

  lemma {:induction false} StepsFit(fs: seq<Fun>, code: M.Code, s: M.State, k: nat)
    requires CodeFits(fs, code) && Fits(fs, code, s) && M.Running(M.Steps(code, s, k))
    ensures Fits(fs, code, M.Steps(code, s, k))
    decreases k
  {
    hide CodeFits, Fits, M.Step, M.Running;
    if k > 0 {
      M.RunningBefore(code, s, k - 1, k);
      M.StepsSucc(code, s, k - 1);
      StepsFit(fs, code, s, k - 1);
      StepFits(fs, code, M.Steps(code, s, k - 1));
    }
  }

  /** In every reachable state the frame top is at most the highest temporary allocated so far;
      inside a loop, at most the highest of that loop. At every call it is exactly the register
      to which the last argument has just been moved. */
  lemma FrameTop(p: Program, natives: map<string, int>, mem: map<int, Value>, k: nat)
    requires WellFormed(p, natives.Keys)
    ensures Compile(natives, p).Some?
    ensures var fs, code := Functions(p), Compile(natives, p).value;
            var s := After(code, mem, k);
            M.Running(s) ==>
              && |fs| == |code.chunks| && 0 <= s.fn < |fs| && 0 <= s.ip <= |code.chunks[s.fn]|
              && var c := code.chunks[s.fn];
              && s.rft - s.rbp <= M.Max(M.Max(0, |fs[s.fn].params| - 1), Highest(c[..PastLoops(c, s.ip, |c|)]))
              && ((forall j | s.ip <= j < |c| :: !Loops(c, s.ip, j)) ==>
                    s.rft - s.rbp <= M.Max(M.Max(0, |fs[s.fn].params| - 1), Highest(c[..s.ip])))
              && (IsCall(c, s.ip) ==> s.ip > 0 && c[s.ip - 1].op == M.Mov && s.rft == s.rbp + c[s.ip - 1].a.id)
  {
    hide WellFormed, Compile, Functions, M.Steps, CodeFits, FindFunction;
    CompiledFits(p, natives);
    var fs, code := Functions(p), Compile(natives, p).value;
    InitialFits(fs, code, mem);
    if M.Running(After(code, mem, k)) {
      StepsFit(fs, code, M.Initial(code, mem), k);
      var s := After(code, mem, k);
      if IsCall(code.chunks[s.fn], s.ip) {
        BoundAtCall(fs, code, s.fn, s.ip);
      }
    }
  }

  lemma InitialFits(fs: seq<Fun>, code: M.Code, mem: map<int, Value>)
    requires CodeFits(fs, code) && 0 <= code.entry < |fs|
    ensures Fits(fs, code, M.Initial(code, mem))
  {
    if IsCall(code.chunks[code.entry], 0) {
      BoundAtCall(fs, code, code.entry, 0);
    }
  }
}
