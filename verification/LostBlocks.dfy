/** Which blocks the emitter never visits, and when that costs steps: `link_bb` drops the third
    link of a block (src/ir/cfg.cpp:59-73), so the block after an `else` body that has blocks of
    its own is linked to nothing (src/ir/convert_ast.cpp:529-563). */
module LostBlocks {
  import opened Syntax
  import opened ExprLowering
  import opened Fragment
  import opened LoweringFacts
  import opened Compositional
  import opened StmtLowering
  import opened BlockGraph
  import opened CleanLowering
  import opened DfsOrder
  import opened Emission
  import opened EmissionFacts
  import Ir

  // ---------------------------------------------------------------- visited blocks

  function Never(count: nat): (r: seq<bool>)
    ensures |r| == count && forall i | 0 <= i < count :: !r[i]
  {
    seq(count, _ => false)
  }

  /** For each block of a statement, from the one it begins in to the one it ends in, whether
      the walk visits it. */
  function ReachedOf(s: Stmt): (r: seq<bool>)
    ensures |r| == NewBlocks(s) + 1 && r[0]
  {
    match s
    case If(_, thn, els) =>
      if els.NoElse? then [true] + Reached(thn) + [true]
      else [true] + Reached(thn) + Reached(els.body) + [Straight(els.body)]
    case While(_, body) => [true] + Reached(body) + [true]
    case _ => [true]
  }

  function Reached(ss: seq<Stmt>): (r: seq<bool>)
    ensures |r| == BlocksIn(ss) + 1 && r[0]
  {
    if ss == [] then [true] else Chain(ReachedOf(ss[0]), Reached(ss[1..]))
  }

  /** Once the last block of a statement is not visited, nothing in its list is. */
  function Chain(a: seq<bool>, b: seq<bool>): (r: seq<bool>)
    requires a != [] && b != []
    ensures |r| == |a| + |b| - 1
  {
    a[..|a| - 1] + (if a[|a| - 1] then b else Never(|b|))
  }

  /** Indices of the visited blocks when the first has id `c`. */
  function Positions(rs: seq<bool>, c: int): seq<int> {
    if rs == [] then [] else (if rs[0] then [c] else []) + Positions(rs[1..], c + 1)
  }

  lemma PositionsStep(rs: seq<bool>, c: int)
    requires rs != []
    ensures Positions(rs, c) == (if rs[0] then [c] else []) + Positions(rs[1..], c + 1)
  {
  }

  lemma {:induction false} PositionsConcat(a: seq<bool>, b: seq<bool>, c: int)
    ensures Positions(a + b, c) == Positions(a, c) + Positions(b, c + |a|)
  {
    hide Positions;
    PositionsEmpty(c);
    if a == [] {
      assert a + b == b && [] + Positions(b, c) == Positions(b, c);
    } else {
      PositionsConcat(a[1..], b, c + 1);
      assert (a + b)[0] == a[0] && (a + b)[1..] == a[1..] + b;
      PositionsStep(a, c);
      PositionsStep(a + b, c);
      ThreeLists(if a[0] then [c] else [], Positions(a[1..], c + 1), Positions(b, c + |a|));
    }
  }

  lemma PositionsEmpty(c: int)
    ensures Positions([], c) == []
  {
  }

  lemma ThreeLists(a: seq<int>, b: seq<int>, c: seq<int>)
    ensures a + b + c == a + (b + c)
  {
  }

  lemma PositionsOne(r: bool, c: int)
    ensures Positions([r], c) == if r then [c] else []
  {
    assert [r][1..] == [];
  }

  lemma {:induction false} PositionsNever(count: nat, c: int)
    ensures Positions(Never(count), c) == []
    decreases count
  {
    if count > 0 {
      PositionsNever(count - 1, c + 1);
      assert Never(count)[1..] == Never(count - 1);
    }
  }

  /** The visited blocks are those of the depth-first order. */
  lemma {:induction false} OrderIsReached(ss: seq<Stmt>, c: int)
    ensures Order(ss, c) == Positions(Reached(ss), c)
    decreases ss, 1
  {
    if ss == [] {
      PositionsOne(true, c);
    } else {
      hide Order, Reached, ReachedOf, Positions;
      OrderIsReached(ss[1..], c + NewBlocks(ss[0]));
      match ss[0]
      case If(_, _, _) => OrderIfReached(ss, c);
      case While(_, _) => OrderLoopReached(ss, c);
      case _ => OrderSimpleReached(ss, c);
    }
  }

  lemma OrderSimpleReached(ss: seq<Stmt>, c: int)
    requires ss != [] && !ss[0].If? && !ss[0].While? && Order(ss[1..], c) == Positions(Reached(ss[1..]), c)
    ensures Order(ss, c) == Positions(Reached(ss), c)
  {
    assert Reached(ss) == Reached(ss[1..]);
  }

  lemma {:induction false} OrderLoopReached(ss: seq<Stmt>, c: int)
    requires ss != [] && ss[0].While? && Order(ss[1..], c + NewBlocks(ss[0])) == Positions(Reached(ss[1..]), c + NewBlocks(ss[0]))
    ensures Order(ss, c) == Positions(Reached(ss), c)
    decreases ss, 0
  {
    hide Positions, Reached, ReachedOf, Order, NewBlocks, BlocksIn;
    var b, rest := Reached(ss[0].body), Reached(ss[1..]);
    OrderIsReached(ss[0].body, c + 1);
    LoopParts(ss);
    OrderLoop(ss, c);
    PositionsConcat([true] + b, rest, c);
    PositionsConcat([true], b, c);
    PositionsOne(true, c);
  }

  lemma LoopParts(ss: seq<Stmt>)
    requires ss != [] && ss[0].While?
    ensures Reached(ss) == [true] + Reached(ss[0].body) + Reached(ss[1..])
  {
    var r := ReachedOf(ss[0]);
    assert r == [true] + Reached(ss[0].body) + [true];
    hide Reached, ReachedOf;
    assert r[..|r| - 1] == [true] + Reached(ss[0].body);
    assert Reached(ss) == Chain(r, Reached(ss[1..])) by { ReachedFirst(ss); }
  }

  lemma ReachedFirst(ss: seq<Stmt>)
    requires ss != []
    ensures Reached(ss) == Chain(ReachedOf(ss[0]), Reached(ss[1..]))
  {
  }

  /** Both descriptions of an `if`, from those of its parts. */
  lemma IfParts(ss: seq<Stmt>, c: int)
    requires ss != [] && ss[0].If? && ss[0].els.NoElse?
    ensures Reached(ss) == [true] + Reached(ss[0].thn) + Reached(ss[1..])
    ensures Order(ss, c) == [c] + Order(ss[0].thn, c + 1) + Order(ss[1..], c + NewBlocks(ss[0]))
    ensures NewBlocks(ss[0]) == BlocksIn(ss[0].thn) + 2
  {
  }

  lemma ElseParts(ss: seq<Stmt>, c: int)
    requires ss != [] && ss[0].If? && ss[0].els.Else?
    ensures Reached(ss) == [true] + Reached(ss[0].thn) + Reached(ss[0].els.body)
                           + (if Straight(ss[0].els.body) then Reached(ss[1..]) else Never(|Reached(ss[1..])|))
    ensures Order(ss, c) == [c] + Order(ss[0].thn, c + 1) + Order(ss[0].els.body, ElseStart(ss[0], c))
                            + (if Straight(ss[0].els.body) then Order(ss[1..], c + NewBlocks(ss[0])) else [])
    ensures NewBlocks(ss[0]) == BlocksIn(ss[0].thn) + 2 + BlocksIn(ss[0].els.body) + 1
  {
    StraightHasNoBlocks(ss[0].els.body);
    assert NewBlocks(ss[0]) == BlocksIn(ss[0].thn) + 2 + BlocksIn(ss[0].els.body) + 1;
    hide Straight, NewBlocks, BlocksIn;
    ElseReached(ss[0]);
    ChainedElse(ss);
  }

  lemma ElseReached(s: Stmt)
    requires s.If? && s.els.Else?
    ensures ReachedOf(s) == [true] + Reached(s.thn) + Reached(s.els.body) + [Straight(s.els.body)]
  {
    hide Reached, Straight;
  }

  lemma ChainedElse(ss: seq<Stmt>)
    requires ss != [] && ss[0].If? && ss[0].els.Else?
    requires var s := ss[0]; ReachedOf(s) == [true] + Reached(s.thn) + Reached(s.els.body) + [Straight(s.els.body)]
    ensures Reached(ss) == [true] + Reached(ss[0].thn) + Reached(ss[0].els.body)
                           + (if Straight(ss[0].els.body) then Reached(ss[1..]) else Never(|Reached(ss[1..])|))
  {
    hide ReachedOf, Straight;
    var front := [true] + Reached(ss[0].thn) + Reached(ss[0].els.body);
    assert (front + [Straight(ss[0].els.body)])[..|front|] == front;
  }

  lemma {:induction false} OrderIfReached(ss: seq<Stmt>, c: int)
    requires ss != [] && ss[0].If? && Order(ss[1..], c + NewBlocks(ss[0])) == Positions(Reached(ss[1..]), c + NewBlocks(ss[0]))
    ensures Order(ss, c) == Positions(Reached(ss), c)
    decreases ss, 0
  {
    hide Positions, Reached, ReachedOf, Order, NewBlocks, BlocksIn;
    var s := ss[0];
    var t, rest := Reached(s.thn), Reached(ss[1..]);
    OrderIsReached(s.thn, c + 1);
    PositionsConcat([true], t, c);
    PositionsOne(true, c);
    if s.els.NoElse? {
      IfParts(ss, c);
      PositionsConcat([true] + t, rest, c);
    } else {
      ElseParts(ss, c);
      OrderIsReached(s.els.body, ElseStart(s, c));
      var f := Reached(s.els.body);
      PositionsConcat([true] + t, f, c);
      PositionsConcat([true] + t + f, if Straight(s.els.body) then rest else Never(|rest|), c);
      PositionsNever(|rest|, c + 1 + |t| + |f|);
    }
  }

  // ---------------------------------------------------------------- the blocks of a statement

  /** More steps in the last block. */
  function WithTail(bs: seq<Block>, steps: seq<Ir.Step>): (r: seq<Block>)
    requires bs != []
    ensures |r| == |bs|
  {
    bs[..|bs| - 1] + [bs[|bs| - 1] + steps]
  }

  lemma EmitBlocks(e: Emitted, steps: seq<Ir.Step>)
    requires e.blocks != []
    ensures Emit(e, steps).blocks == WithTail(e.blocks, steps)
  {
  }

  lemma TailTwice(bs: seq<Block>, a: seq<Ir.Step>, b: seq<Ir.Step>)
    requires bs != []
    ensures WithTail(WithTail(bs, a), b) == WithTail(bs, a + b)
  {
    assert bs[|bs| - 1] + a + b == bs[|bs| - 1] + (a + b);
  }

  lemma AddedBlocks(e: Emitted)
    requires e.blocks != []
    ensures AddBlock(e).blocks == e.blocks + [[]]
  {
    assert e.blocks[|e.blocks| - 1] + [] == e.blocks[|e.blocks| - 1];
  }

  const PASS_END: seq<Ir.Step> := [Meta(Ir.Pass)] + [Meta(Ir.EndIfElse)]

  const JUMP_ALT: seq<Ir.Step> := [JumpStep()] + [Meta(Ir.MarkIfElseAlt)] + [Meta(Ir.Pass)]

  const JUMP_BACK: seq<Ir.Step> := [JumpStep()] + [Meta(Ir.MarkContinue)]

  const LOOP_END: seq<Ir.Step> := [Meta(Ir.Pass)] + [Meta(Ir.EndWhile)]

  lemma FreshBlock(bs: seq<Block>, steps: seq<Ir.Step>)
    ensures WithTail(bs + [[]], steps) == bs + [steps]
  {
    assert [] + steps == steps;
  }

  lemma EndIfBlocks(e: Emitted, here: int, tId: int)
    requires e.blocks != []
    ensures EndIf(e, here, tId).blocks == e.blocks + [PASS_END]
  {
    AddedBlocks(e);
    EmitBlocks(AddBlock(e), [Meta(Ir.Pass)]);
    EmitBlocks(Emit(AddBlock(e), [Meta(Ir.Pass)]), [Meta(Ir.EndIfElse)]);
    TailTwice(e.blocks + [[]], [Meta(Ir.Pass)], [Meta(Ir.EndIfElse)]);
    FreshBlock(e.blocks, PASS_END);
    hide AddBlock, Emit;
  }

  lemma BeginElseBlocks(e: Emitted)
    requires e.blocks != []
    ensures BeginElse(e).blocks == WithTail(e.blocks, JUMP_ALT)
  {
    hide Emit;
    var a := Emit(e, [JumpStep()]);
    var b := Emit(a, [Meta(Ir.MarkIfElseAlt)]);
    EmitBlocks(e, [JumpStep()]);
    EmitBlocks(a, [Meta(Ir.MarkIfElseAlt)]);
    EmitBlocks(b, [Meta(Ir.Pass)]);
    TailTwice(e.blocks, [JumpStep()], [Meta(Ir.MarkIfElseAlt)]);
    TailTwice(e.blocks, [JumpStep()] + [Meta(Ir.MarkIfElseAlt)], [Meta(Ir.Pass)]);
  }

  lemma EndElseBlocks(e: Emitted, here: int, fId: int)
    requires e.blocks != []
    ensures EndElse(e, here, fId).blocks == WithTail(e.blocks, PASS_END) + [[]]
  {
    hide Emit, AddBlock;
    var a := Emit(e, [Meta(Ir.Pass)]);
    var b := Emit(a, [Meta(Ir.EndIfElse)]);
    EmitBlocks(e, [Meta(Ir.Pass)]);
    EmitBlocks(a, [Meta(Ir.EndIfElse)]);
    TailTwice(e.blocks, [Meta(Ir.Pass)], [Meta(Ir.EndIfElse)]);
    AddedBlocks(Connect(b, here, fId));
  }

  lemma EndLoopBlocks(e: Emitted, here: int, bId: int)
    requires e.blocks != []
    ensures EndLoop(e, here, bId).blocks == WithTail(e.blocks, JUMP_BACK) + [LOOP_END]
  {
    hide Emit, AddBlock;
    var a := Emit(e, [JumpStep()]);
    var back := Emit(a, [Meta(Ir.MarkContinue)]);
    EmitBlocks(e, [JumpStep()]);
    EmitBlocks(a, [Meta(Ir.MarkContinue)]);
    TailTwice(e.blocks, [JumpStep()], [Meta(Ir.MarkContinue)]);
    var c := Connect(Connect(back, bId, here), here, bId);
    AddedBlocks(c);
    EmitBlocks(AddBlock(c), [Meta(Ir.Pass)]);
    EmitBlocks(Emit(AddBlock(c), [Meta(Ir.Pass)]), [Meta(Ir.EndWhile)]);
    TailTwice(c.blocks + [[]], [Meta(Ir.Pass)], [Meta(Ir.EndWhile)]);
    FreshBlock(c.blocks, LOOP_END);
  }

  lemma BlockBlocks(ss: seq<Stmt>, nm: Names, pool: Pool, n: int, here: int)
    ensures LowerBlock(ss, nm, pool, n, here).blocks == [[]] + LowerStmts(ss, nm, pool, n, here + 1).blocks
  {
    hide LowerStmts;
    AddedBlocks(Start(nm, pool, n));
    assert AddBlock(Start(nm, pool, n)).blocks == [[], []];
    GlueFresh(LowerStmts(ss, nm, pool, n, here + 1).blocks);
    hide Glue, AddBlock;
  }

  lemma GlueFresh(b: seq<Block>)
    requires b != []
    ensures Glue([[], []], b) == [[]] + b
  {
    assert [] + b[0] == b[0] && [b[0]] + b[1..] == b;
  }

  lemma GlueNew(a: seq<Block>, b: seq<Block>)
    requires a != []
    ensures Glue(a, [[]] + b) == a + b
  {
    assert ([[]] + b)[0] == [] && ([[]] + b)[1..] == b;
    assert a[|a| - 1] + [] == a[|a| - 1];
  }

  /** A block of statements begins a new block after the newest. */
  lemma JoinBlocks(e: Emitted, ss: seq<Stmt>, nm: Names, pool: Pool, n: int, here: int)
    requires e.blocks != []
    ensures Join(e, LowerBlock(ss, nm, pool, n, here)).blocks == e.blocks + LowerStmts(ss, nm, pool, n, here + 1).blocks
  {
    hide LowerStmts, LowerBlock, Glue;
    BlockBlocks(ss, nm, pool, n, here);
    GlueNew(e.blocks, LowerStmts(ss, nm, pool, n, here + 1).blocks);
  }

  lemma {:induction false} BeginsInOne(nm: Names, pool: Pool, n: int, r: Lowered)
    requires r.addr.Some?
    ensures |BeginIf(nm, pool, n, r).blocks| == |BeginLoop(nm, pool, n, r).blocks| == 1
  {
  }

  /** The blocks of an `if`: its condition, its branches, what comes after. */
  lemma IfBlocks(s: Stmt, nm: Names, pool: Pool, n: int, here: int, inLoop: bool)
    requires s.If? && s.els.NoElse? && CleanStmt(s, nm, pool, n, inLoop)
    ensures var r := LowerExpr(nm, s.cond, pool, n);
            && r.addr.Some?
            && LowerStmt(s, nm, pool, n, here).blocks ==
                 [BeginIf(nm, pool, n, r).blocks[0]] + LowerStmts(s.thn, nm, r.pool, r.next, here + 1).blocks + [PASS_END]
  {
    hide LowerExpr, LowerStmts, LowerBlock, BeginIf, Join, Connect, EndIf, CleanStmts, NoMarkers;
    var r := LowerExpr(nm, s.cond, pool, n);
    var e := BeginIf(nm, pool, n, r);
    BeginContext(nm, pool, n, r);
    BeginsInOne(nm, pool, n, r);
    assert e.blocks == [e.blocks[0]];
    JoinBlocks(e, s.thn, nm, r.pool, r.next, here);
    var t := LowerBlock(s.thn, nm, r.pool, r.next, here);
    var j := Connect(Join(e, t), here, if t.ok then here + 1 else -1);
    EndIfBlocks(j, here, if t.ok then here + 1 else -1);
  }

  lemma ElseBlocks(s: Stmt, nm: Names, pool: Pool, n: int, here: int, inLoop: bool)
    requires s.If? && s.els.Else? && CleanStmt(s, nm, pool, n, inLoop)
    ensures var r := LowerExpr(nm, s.cond, pool, n);
            var t := CompileStmts(s.thn, nm, r.pool, r.next, 0, 0);
            && r.addr.Some?
            && LowerStmt(s, nm, pool, n, here).blocks ==
                 [BeginIf(nm, pool, n, r).blocks[0]]
                 + WithTail(LowerStmts(s.thn, nm, r.pool, r.next, here + 1).blocks, JUMP_ALT)
                 + WithTail(LowerStmts(s.els.body, t.nm, t.pool, t.next, ElseStart(s, here)).blocks, PASS_END) + [[]]
  {
    hide LowerExpr, LowerStmts, LowerBlock, BeginIf, Join, Connect, EndElse, BeginElse, CleanStmts, NoMarkers, CompileStmts, BlocksIn, LinksIn;
    var r := LowerExpr(nm, s.cond, pool, n);
    var e := BeginIf(nm, pool, n, r);
    BeginContext(nm, pool, n, r);
    BeginsInOne(nm, pool, n, r);
    assert e.blocks == [e.blocks[0]];
    JoinBlocks(e, s.thn, nm, r.pool, r.next, here);
    LowerThenClean(s, nm, pool, n, here, inLoop);
    var b := LowerBlock(s.thn, nm, r.pool, r.next, here);
    var j := Connect(Join(e, b), here, here + 1);
    var first, thn := e.blocks, LowerStmts(s.thn, nm, r.pool, r.next, here + 1).blocks;
    BeginElseBlocks(j);
    TailOfConcat(first, thn, JUMP_ALT);
    var alt := BeginElse(j);
    AltContext(j);
    var eHere := here + |alt.blocks| - 1;
    JoinBlocks(alt, s.els.body, alt.nm, alt.pool, alt.next, eHere);
    var f := LowerBlock(s.els.body, alt.nm, alt.pool, alt.next, eHere);
    EndElseBlocks(Join(alt, f), here, if f.ok then eHere + 1 else -1);
    TailOfConcat(first + WithTail(thn, JUMP_ALT), LowerStmts(s.els.body, alt.nm, alt.pool, alt.next, eHere + 1).blocks, PASS_END);
  }

  lemma AltContext(e: Emitted)
    requires e.blocks != []
    ensures var alt := BeginElse(e); alt.nm == e.nm && alt.pool == e.pool && alt.next == e.next && |alt.blocks| == |e.blocks|
  {
  }

  lemma TailOfConcat(a: seq<Block>, b: seq<Block>, steps: seq<Ir.Step>)
    requires b != []
    ensures WithTail(a + b, steps) == a + WithTail(b, steps)
  {
  }

  lemma LoopBlocks(s: Stmt, nm: Names, pool: Pool, n: int, here: int, inLoop: bool)
    requires s.While? && CleanStmt(s, nm, pool, n, inLoop)
    ensures var r := LowerExpr(nm, s.check, pool, n);
            && r.addr.Some?
            && LowerStmt(s, nm, pool, n, here).blocks ==
                 [BeginLoop(nm, pool, n, r).blocks[0]]
                 + WithTail(LowerStmts(s.body, nm, r.pool, r.next, here + 1).blocks, JUMP_BACK) + [LOOP_END]
  {
    hide LowerExpr, LowerStmts, LowerBlock, BeginLoop, Join, EndLoop, CleanStmts, NoMarkers;
    var r := LowerExpr(nm, s.check, pool, n);
    var e := BeginLoop(nm, pool, n, r);
    BeginContext(nm, pool, n, r);
    BeginsInOne(nm, pool, n, r);
    assert e.blocks == [e.blocks[0]];
    JoinBlocks(e, s.body, nm, r.pool, r.next, here);
    var b := LowerBlock(s.body, nm, r.pool, r.next, here);
    EndLoopBlocks(Join(e, b), here, if b.ok then here + 1 else -1);
    TailOfConcat(e.blocks, LowerStmts(s.body, nm, r.pool, r.next, here + 1).blocks, JUMP_BACK);
  }

  // ---------------------------------------------------------------- lost steps

  lemma {:induction false} FlatLosesNothing(ss: seq<Stmt>, last: bool)
    requires ElsesFlat(ss)
    ensures NothingLost(ss, last)
  {
    if ss != [] {
      FlatLosesNothing(ss[1..], last);
      match ss[0]
      case If(_, thn, els) =>
        FlatLosesNothing(thn, els.NoElse?);
        if els.Else? {
          StraightIsFlat(els.body);
          FlatLosesNothing(els.body, false);
        }
      case While(_, body) => FlatLosesNothing(body, false);
      case _ =>
    }
  }

  lemma {:induction false} StraightIsFlat(ss: seq<Stmt>)
    requires Straight(ss)
    ensures ElsesFlat(ss)
  {
    if ss != [] {
      StraightIsFlat(ss[1..]);
    }
  }

  /** The blocks that are not visited have no steps, and the last one is visited unless `last`. */
  ghost predicate LostFree(bs: seq<Block>, rs: seq<bool>, last: bool) {
    |bs| == |rs| && forall i | 0 <= i < |rs| && !rs[i] :: bs[i] == [] && (i == |rs| - 1 ==> last)
  }

  ghost predicate AllEmpty(bs: seq<Block>) {
    forall i | 0 <= i < |bs| :: bs[i] == []
  }

  lemma LostConcat(a: seq<Block>, b: seq<Block>, ra: seq<bool>, rb: seq<bool>, last: bool)
    requires |a| == |ra| && |b| == |rb| > 0
    ensures LostFree(a + b, ra + rb, last) <==> LostFree(a, ra, true) && LostFree(b, rb, last)
  {
    if LostFree(a + b, ra + rb, last) {
      forall i | 0 <= i < |ra| && !ra[i] ensures a[i] == [] {
        assert (ra + rb)[i] == ra[i];
      }
      forall i | 0 <= i < |rb| && !rb[i] ensures b[i] == [] && (i == |rb| - 1 ==> last) {
        assert (ra + rb)[|ra| + i] == rb[i] && (a + b)[|ra| + i] == b[i];
      }
    }
  }

  lemma LostTail(bs: seq<Block>, rs: seq<bool>, steps: seq<Ir.Step>)
    requires bs != [] && steps != [] && |bs| == |rs|
    ensures LostFree(WithTail(bs, steps), rs, true) <==> LostFree(bs, rs, false)
  {
    var l := WithTail(bs, steps);
    assert l[|bs| - 1] != [] by { assert l[|bs| - 1][|bs[|bs| - 1]|] == steps[0]; }
  }

  lemma LostVisited(b: Block)
    ensures LostFree([b], [true], true)
  {
  }

  lemma LostOne(b: Block, r: bool, last: bool)
    ensures LostFree([b], [r], last) <==> r || (b == [] && last)
  {
    assert [r][0] == r;
  }

  /** Nothing is lost inside a statement. */
  predicate KeptInside(s: Stmt) {
    match s
    case If(_, thn, els) => if els.NoElse? then NothingLost(thn, true) else NothingLost(thn, false) && NothingLost(els.body, false)
    case While(_, body) => NothingLost(body, false)
    case _ => true
  }

  lemma {:induction false} StmtLost(s: Stmt, nm: Names, pool: Pool, n: int, here: int, inLoop: bool)
    requires CleanStmt(s, nm, pool, n, inLoop)
    ensures LostFree(LowerStmt(s, nm, pool, n, here).blocks, ReachedOf(s), true) <==> KeptInside(s)
    ensures |LowerStmt(s, nm, pool, n, here).blocks| == |ReachedOf(s)|
    decreases s, 1
  {
    LowerStmtClean(s, nm, pool, n, here, inLoop);
    hide CleanStmt, LowerStmt, NewBlocks, LostFree, LinksOf, CompileStmt;
    match s
    case If(_, _, _) => IfLost(s, nm, pool, n, here, inLoop);
    case While(_, _) => LoopLost(s, nm, pool, n, here, inLoop);
    case _ =>
      var b := LowerStmt(s, nm, pool, n, here).blocks;
      assert b == [b[0]] by { SimpleBlocks(s, nm, pool, n, here); }
      LostVisited(b[0]);
  }

  lemma SimpleBlocks(s: Stmt, nm: Names, pool: Pool, n: int, here: int)
    requires !s.If? && !s.While?
    ensures |LowerStmt(s, nm, pool, n, here).blocks| == 1
  {
    hide LowerExpr;
  }

  lemma {:induction false} IfLost(s: Stmt, nm: Names, pool: Pool, n: int, here: int, inLoop: bool)
    requires s.If? && CleanStmt(s, nm, pool, n, inLoop)
    ensures LostFree(LowerStmt(s, nm, pool, n, here).blocks, ReachedOf(s), true) <==> KeptInside(s)
    decreases s, 0
  {
    hide LowerStmt, LostFree, LowerStmts, LowerExpr, Reached, CompileStmts, NothingLost, Straight, BlocksIn;
    var r := LowerExpr(nm, s.cond, pool, n);
    var thn, rt := LowerStmts(s.thn, nm, r.pool, r.next, here + 1).blocks, Reached(s.thn);
    StmtsLost(s.thn, nm, r.pool, r.next, here + 1, inLoop, s.els.NoElse?);
    if s.els.NoElse? {
      IfBlocks(s, nm, pool, n, here, inLoop);
      var b := [BeginIf(nm, pool, n, r).blocks[0]];
      LostVisited(b[0]);
      LostVisited(PASS_END);
      LostConcat(b, thn, [true], rt, true);
      LostConcat(b + thn, [PASS_END], [true] + rt, [true], true);
    } else {
      var c := CompileStmts(s.thn, nm, r.pool, r.next, 0, 0);
      ElseBlocks(s, nm, pool, n, here, inLoop);
      StmtsLost(s.els.body, c.nm, c.pool, c.next, ElseStart(s, here), inLoop, false);
      ElseLost(s, BeginIf(nm, pool, n, r).blocks[0], thn, LowerStmts(s.els.body, c.nm, c.pool, c.next, ElseStart(s, here)).blocks);
    }
  }

  lemma ElseLost(s: Stmt, b: Block, thn: seq<Block>, els: seq<Block>)
    requires s.If? && s.els.Else? && |thn| == |Reached(s.thn)| && |els| == |Reached(s.els.body)|
    ensures LostFree([b] + WithTail(thn, JUMP_ALT) + WithTail(els, PASS_END) + [[]], ReachedOf(s), true)
            <==> LostFree(thn, Reached(s.thn), false) && LostFree(els, Reached(s.els.body), false)
  {
    hide LostFree, Reached, Straight, WithTail;
    var rt, rf := Reached(s.thn), Reached(s.els.body);
    var t, f := WithTail(thn, JUMP_ALT), WithTail(els, PASS_END);
    LostVisited(b);
    LostTail(thn, rt, JUMP_ALT);
    LostTail(els, rf, PASS_END);
    LostOne([], Straight(s.els.body), true);
    LostConcat([b], t, [true], rt, true);
    LostConcat([b] + t, f, [true] + rt, rf, true);
    LostConcat([b] + t + f, [[]], [true] + rt + rf, [Straight(s.els.body)], true);
  }

  lemma {:induction false} LoopLost(s: Stmt, nm: Names, pool: Pool, n: int, here: int, inLoop: bool)
    requires s.While? && CleanStmt(s, nm, pool, n, inLoop)
    ensures LostFree(LowerStmt(s, nm, pool, n, here).blocks, ReachedOf(s), true) <==> KeptInside(s)
    decreases s, 0
  {
    hide LowerStmt, LostFree, LowerStmts, LowerExpr, Reached, NothingLost, BlocksIn, WithTail;
    var r := LowerExpr(nm, s.check, pool, n);
    var body, rb := LowerStmts(s.body, nm, r.pool, r.next, here + 1).blocks, Reached(s.body);
    StmtsLost(s.body, nm, r.pool, r.next, here + 1, true, false);
    LoopBlocks(s, nm, pool, n, here, inLoop);
    var b := [BeginLoop(nm, pool, n, r).blocks[0]];
    LostVisited(b[0]);
    LostVisited(LOOP_END);
    LostTail(body, rb, JUMP_BACK);
    LostConcat(b, WithTail(body, JUMP_BACK), [true], rb, true);
    LostConcat(b + WithTail(body, JUMP_BACK), [LOOP_END], [true] + rb, [true], true);
  }

  /** Two fragments glued: the first block of the second continues the last of the first. */
  lemma LostGlue(a: seq<Block>, b: seq<Block>, ra: seq<bool>, rb: seq<bool>, last: bool)
    requires |a| == |ra| > 0 && |b| == |rb| > 0 && ra[|ra| - 1] && rb[0]
    ensures LostFree(Glue(a, b), Chain(ra, rb), last) <==> LostFree(a, ra, true) && LostFree(b, rb, last)
  {
    var m := |a| - 1;
    assert a == a[..m] + [a[m]] && ra == ra[..m] + [ra[m]] && b == [b[0]] + b[1..] && rb == [rb[0]] + rb[1..];
    LostVisited(a[m]);
    LostVisited(b[0]);
    LostConcat(a[..m], [a[m]], ra[..m], [ra[m]], true);
    var c := [a[m] + b[0]] + b[1..];
    assert Glue(a, b) == a[..m] + c;
    LostConcat(a[..m], c, ra[..m], rb, last);
    assert LostFree(c, rb, last) <==> LostFree(b, rb, last);
  }

  lemma NeverFree(b: seq<Block>, last: bool)
    requires |b| > 0
    ensures LostFree(b, Never(|b|), last) <==> AllEmpty(b) && last
  {
    var rs := Never(|b|);
    if LostFree(b, rs, last) {
      assert !rs[|b| - 1];
      forall i | 0 <= i < |b| ensures b[i] == [] {
        assert !rs[i];
      }
    }
  }

  lemma LostRest(a: seq<Block>, b: seq<Block>, ra: seq<bool>, rb: seq<bool>, last: bool)
    requires |a| == |ra| > 0 && |b| == |rb| > 0 && !ra[|ra| - 1] && a[|a| - 1] == []
    ensures LostFree(Glue(a, b), Chain(ra, rb), last) <==> LostFree(a, ra, true) && AllEmpty(b) && last
  {
    var m := |a| - 1;
    assert a == a[..m] + [a[m]] && ra == ra[..m] + [ra[m]];
    LostOne(a[m], false, true);
    LostConcat(a[..m], [a[m]], ra[..m], [ra[m]], true);
    assert Glue(a, b) == a[..m] + b by { assert a[m] + b[0] == b[0]; }
    LostConcat(a[..m], b, ra[..m], Never(|b|), last);
    NeverFree(b, last);
  }

  /** A list loses no step if and only if no block that is not visited has steps. */
  lemma {:induction false} StmtsLost(ss: seq<Stmt>, nm: Names, pool: Pool, n: int, here: int, inLoop: bool, last: bool)
    requires CleanStmts(ss, nm, pool, n, inLoop)
    ensures LostFree(LowerStmts(ss, nm, pool, n, here).blocks, Reached(ss), last) <==> NothingLost(ss, last)
    ensures |LowerStmts(ss, nm, pool, n, here).blocks| == |Reached(ss)|
    decreases ss, 2
  {
    hide LostFree, CleanStmt, LowerStmt, ReachedOf, NewBlocks, Chain, Glue, CompileStmt, LinksOf, KeptInside;
    if ss == [] {
      LostVisited([]);
      LostOne([], true, last);
    } else {
      var s := ss[0];
      StmtLost(s, nm, pool, n, here, inLoop);
      LowerStmtClean(s, nm, pool, n, here, inLoop);
      var h, c := LowerStmt(s, nm, pool, n, here), CompileStmt(s, nm, pool, n, 0, 0);
      LowersParts(h, c, NewBlocks(s), LinksOf(s, here));
      var next := here + |h.blocks| - 1;
      StmtsLost(ss[1..], c.nm, c.pool, c.next, next, inLoop, last);
      var t := LowerStmts(ss[1..], c.nm, c.pool, c.next, next);
      LostCases(ss, last);
      if Nested(s) {
        NestedEnds(s, nm, pool, n, here, inLoop);
        SilentEmpty(ss[1..], c.nm, c.pool, c.next, next, inLoop);
        LostRest(h.blocks, t.blocks, ReachedOf(s), Reached(ss[1..]), last);
      } else {
        EndVisited(s);
        LostGlue(h.blocks, t.blocks, ReachedOf(s), Reached(ss[1..]), last);
      }
    }
  }

  /** An `else` body with blocks of its own. */
  predicate Nested(s: Stmt) {
    s.If? && s.els.Else? && !Straight(s.els.body)
  }

  lemma LostCases(ss: seq<Stmt>, last: bool)
    requires ss != []
    ensures NothingLost(ss, last)
            <==> KeptInside(ss[0]) && if Nested(ss[0]) then last && Silent(ss[1..]) else NothingLost(ss[1..], last)
  {
    hide Straight, Silent;
  }

  lemma EndVisited(s: Stmt)
    ensures ReachedOf(s)[|ReachedOf(s)| - 1] == !Nested(s)
  {
    hide Straight, Reached;
  }

  lemma NestedEnds(s: Stmt, nm: Names, pool: Pool, n: int, here: int, inLoop: bool)
    requires Nested(s) && CleanStmt(s, nm, pool, n, inLoop)
    ensures var b := LowerStmt(s, nm, pool, n, here).blocks; b[|b| - 1] == []
    ensures !ReachedOf(s)[|ReachedOf(s)| - 1]
  {
    hide LowerStmt, LowerStmts, LowerExpr, CompileStmts, WithTail, BeginIf, CleanStmt, Reached, Straight;
    ElseBlocks(s, nm, pool, n, here, inLoop);
    EndVisited(s);
  }

  /** Only literals and variables lower to no steps. */
  lemma NoStepsExactly(nm: Names, e: Expr, pool: Pool, n: int)
    requires CleanExpr(LowerExpr(nm, e, pool, n))
    ensures LowerExpr(nm, e, pool, n).steps == [] <==> e.Literal?
  {
    hide LowerItems, LowerArgs, Lookup, Intern, NoMarkers, LiteralValue;
  }

  lemma {:induction false} SilentEmpty(ss: seq<Stmt>, nm: Names, pool: Pool, n: int, here: int, inLoop: bool)
    requires CleanStmts(ss, nm, pool, n, inLoop)
    ensures AllEmpty(LowerStmts(ss, nm, pool, n, here).blocks) <==> Silent(ss)
    decreases ss
  {
    hide CleanStmt, LowerStmt, CompileStmt, LinksOf, NewBlocks, AllEmpty, Glue;
    if ss == [] {
      NoneEmpty();
    } else {
      LowerStmtClean(ss[0], nm, pool, n, here, inLoop);
      var h, c := LowerStmt(ss[0], nm, pool, n, here), CompileStmt(ss[0], nm, pool, n, 0, 0);
      LowersParts(h, c, NewBlocks(ss[0]), LinksOf(ss[0], here));
      SilentEmpty(ss[1..], c.nm, c.pool, c.next, here + |h.blocks| - 1, inLoop);
      SilentStmt(ss[0], nm, pool, n, here, inLoop);
      GlueEmpty(h.blocks, LowerStmts(ss[1..], c.nm, c.pool, c.next, here + |h.blocks| - 1).blocks);
    }
  }

  lemma NoneEmpty()
    ensures AllEmpty([[]])
  {
  }

  lemma GlueEmpty(a: seq<Block>, b: seq<Block>)
    requires a != [] && b != []
    ensures AllEmpty(Glue(a, b)) <==> AllEmpty(a) && AllEmpty(b)
  {
    var g, m := Glue(a, b), |a| - 1;
    if AllEmpty(g) {
      assert g[m] == a[m] + b[0];
      assert a[m] == [] && b[0] == [] by { assert |g[m]| == 0; }
      forall i | 0 <= i < |a| ensures a[i] == [] {
        assert i < m ==> g[i] == a[i];
      }
      forall i | 0 <= i < |b| ensures b[i] == [] {
        assert i > 0 ==> g[m + i] == b[i];
      }
    }
  }

  lemma OneEmpty(b: seq<Block>)
    requires |b| == 1
    ensures AllEmpty(b) <==> |b[0]| == 0
  {
    assert b[0] == [] <==> |b[0]| == 0;
  }

  lemma SilentStmt(s: Stmt, nm: Names, pool: Pool, n: int, here: int, inLoop: bool)
    requires CleanStmt(s, nm, pool, n, inLoop)
    ensures AllEmpty(LowerStmt(s, nm, pool, n, here).blocks) <==> s.ExprStmt? && s.expr.Literal?
  {
    match s
    case If(_, _, _) => NotSilent(s, nm, pool, n, here, inLoop);
    case While(_, _) => NotSilent(s, nm, pool, n, here, inLoop);
    case _ => SilentSimple(s, nm, pool, n, here, inLoop);
  }

  lemma SilentSimple(s: Stmt, nm: Names, pool: Pool, n: int, here: int, inLoop: bool)
    requires !s.If? && !s.While? && CleanStmt(s, nm, pool, n, inLoop)
    ensures AllEmpty(LowerStmt(s, nm, pool, n, here).blocks) <==> s.ExprStmt? && s.expr.Literal?
  {
    hide LowerExpr, NoMarkers, AllEmpty;
    var b := LowerStmt(s, nm, pool, n, here).blocks;
    if s.ExprStmt? {
      NoStepsExactly(nm, s.expr, pool, n);
      assert |b| == 1 && b[0] == [] + LowerExpr(nm, s.expr, pool, n).steps;
    } else {
      assert |b| == 1 && |b[0]| > 0;
    }
    OneEmpty(b);
  }

  /** An `if` or a loop ends in a block of its own that has steps, or its branch does. */
  lemma NotSilent(s: Stmt, nm: Names, pool: Pool, n: int, here: int, inLoop: bool)
    requires (s.If? || s.While?) && CleanStmt(s, nm, pool, n, inLoop)
    ensures !AllEmpty(LowerStmt(s, nm, pool, n, here).blocks)
  {
    hide LowerStmt, LowerStmts, LowerExpr, CompileStmts, BeginIf, BeginLoop, CleanStmt;
    var b := LowerStmt(s, nm, pool, n, here).blocks;
    if s.While? {
      LoopBlocks(s, nm, pool, n, here, inLoop);
      assert b[|b| - 1] == LOOP_END != [];
    } else if s.els.NoElse? {
      IfBlocks(s, nm, pool, n, here, inLoop);
      assert b[|b| - 1] == PASS_END != [];
    } else {
      ElseBlocks(s, nm, pool, n, here, inLoop);
      var k := |b| - 2;
      assert |b[k]| >= |PASS_END| > 0;
    }
  }

  // ---------------------------------------------------------------- emitted steps

  /** The steps of the visited blocks. */
  function Kept(bs: seq<Block>, rs: seq<bool>): seq<Ir.Step>
    requires |bs| == |rs|
  {
    if bs == [] then [] else (if rs[0] then bs[0] else []) + Kept(bs[1..], rs[1..])
  }

  lemma {:induction false} AllKept(bs: seq<Block>, rs: seq<bool>)
    requires LostFree(bs, rs, true)
    ensures Kept(bs, rs) == Flat(bs)
  {
    if bs != [] {
      assert LostFree(bs[1..], rs[1..], true);
      AllKept(bs[1..], rs[1..]);
      assert rs[0] || bs[0] == [];
    }
  }

  /** A block with steps has an instruction. */
  ghost predicate Instructive(bs: seq<Block>) {
    forall i | 0 <= i < |bs| && bs[i] != [] :: TranslateAll(bs[i]) != []
  }

  /** Losing a block with steps loses instructions. */
  lemma {:induction false} FewerKept(bs: seq<Block>, rs: seq<bool>)
    requires |bs| == |rs| && Instructive(bs)
    ensures |TranslateAll(Kept(bs, rs))| <= |TranslateAll(Flat(bs))|
    ensures |TranslateAll(Kept(bs, rs))| == |TranslateAll(Flat(bs))| ==> LostFree(bs, rs, true)
  {
    if bs != [] {
      assert Instructive(bs[1..]);
      FewerKept(bs[1..], rs[1..]);
      TranslateAppend(bs[0], Flat(bs[1..]));
      TranslateAppend(if rs[0] then bs[0] else [], Kept(bs[1..], rs[1..]));
      if |TranslateAll(Kept(bs, rs))| == |TranslateAll(Flat(bs))| {
        assert !rs[0] ==> bs[0] == [];
        forall i | 0 <= i < |rs| && !rs[i] ensures bs[i] == [] {
          assert i > 0 ==> rs[1..][i - 1] == rs[i] && bs[1..][i - 1] == bs[i];
        }
      }
    }
  }

  /** Emission appends as many instructions as the steps have, whatever is patched. */
  lemma {:induction false} EmittedCount(es: EmitterState, steps: seq<Ir.Step>)
    ensures EmitSteps(es, steps).Some? ==> |EmitSteps(es, steps).value.code| == |es.code| + |TranslateAll(steps)|
    decreases |steps|
  {
    hide EmitStep, TranslateStep;
    if steps != [] {
      StepCount(es, steps[0]);
      var r := EmitStep(es, steps[0]);
      if r.Some? {
        EmittedCount(r.value, steps[1..]);
      }
    }
  }

  lemma StepCount(es: EmitterState, step: Ir.Step)
    ensures EmitStep(es, step).Some? ==> |EmitStep(es, step).value.code| == |es.code| + |TranslateStep(step)|
  {
    hide PatchAll;
  }

  /** An instruction among the steps. */
  ghost predicate Works(b: Block) {
    TranslateAll(b) != []
  }

  lemma WorksMore(a: Block, b: Block)
    requires Works(a) || Works(b)
    ensures Works(a + b)
  {
    TranslateAppend(a, b);
  }

  lemma InstructiveConcat(a: seq<Block>, b: seq<Block>)
    requires Instructive(a) && Instructive(b)
    ensures Instructive(a + b)
  {
    var c := a + b;
    forall i | 0 <= i < |c| && c[i] != [] ensures TranslateAll(c[i]) != [] {
      assert c[i] == if i < |a| then a[i] else b[i - |a|];
    }
  }

  lemma InstructiveOne(b: Block)
    requires b == [] || Works(b)
    ensures Instructive([b])
  {
  }

  lemma InstructiveTail(bs: seq<Block>, steps: seq<Ir.Step>)
    requires bs != [] && Instructive(bs) && Works(steps)
    ensures Instructive(WithTail(bs, steps))
  {
    WorksMore(bs[|bs| - 1], steps);
  }

  lemma InstructiveGlue(a: seq<Block>, b: seq<Block>)
    requires a != [] && b != [] && Instructive(a) && Instructive(b)
    ensures Instructive(Glue(a, b))
  {
    var m := |a| - 1;
    if a[m] != [] || b[0] != [] {
      WorksMore(a[m], b[0]);
    }
    InstructiveOne(a[m] + b[0]);
    InstructiveConcat(a[..m], [a[m] + b[0]]);
    InstructiveConcat(a[..m] + [a[m] + b[0]], b[1..]);
  }

  /** The markers stand beside jumps and `nop`s. */
  lemma EndsWork()
    ensures Works(PASS_END) && Works(JUMP_ALT) && Works(JUMP_BACK) && Works(LOOP_END)
  {
  }

  lemma BeginWorks(nm: Names, pool: Pool, n: int, r: Lowered)
    requires r.addr.Some?
    ensures Works(BeginIf(nm, pool, n, r).blocks[0]) && Works(BeginLoop(nm, pool, n, r).blocks[0])
  {
    hide Works, TranslateAll;
    assert Works([JumpElseStep(r.addr.value)]) by { JumpWorks(r.addr.value); }
    var front := [] + [Meta(Ir.BeginIfElse)] + r.steps;
    WorksMore(front, [JumpElseStep(r.addr.value)]);
    WorksMore(front + [JumpElseStep(r.addr.value)], [Meta(Ir.MarkIfElseCheck)]);
    assert BeginIf(nm, pool, n, r).blocks[0] == front + [JumpElseStep(r.addr.value)] + [Meta(Ir.MarkIfElseCheck)];
    var front' := [] + [Meta(Ir.BeginWhile)] + [Meta(Ir.Pass)] + r.steps;
    WorksMore(front', [JumpElseStep(r.addr.value)]);
    WorksMore(front' + [JumpElseStep(r.addr.value)], [Meta(Ir.MarkWhileCheck)]);
    assert BeginLoop(nm, pool, n, r).blocks[0] == front' + [JumpElseStep(r.addr.value)] + [Meta(Ir.MarkWhileCheck)];
  }

  lemma JumpWorks(aa: Ir.Addr)
    ensures Works([JumpElseStep(aa)])
  {
    TranslateOne(JumpElseStep(aa));
  }

  lemma {:induction false} PlainWorks(steps: seq<Ir.Step>)
    requires NoMarkers(steps) && steps != []
    ensures Works(steps)
  {
    assert TranslateStep(steps[0]) != [];
  }

  lemma {:induction false} StmtsInstructive(ss: seq<Stmt>, nm: Names, pool: Pool, n: int, here: int, inLoop: bool)
    requires CleanStmts(ss, nm, pool, n, inLoop)
    ensures Instructive(LowerStmts(ss, nm, pool, n, here).blocks)
    decreases ss, 2
  {
    hide CleanStmt, LowerStmt, CompileStmt, LinksOf, NewBlocks, Instructive, Glue;
    if ss == [] {
      InstructiveOne([]);
    } else {
      LowerStmtClean(ss[0], nm, pool, n, here, inLoop);
      var h, c := LowerStmt(ss[0], nm, pool, n, here), CompileStmt(ss[0], nm, pool, n, 0, 0);
      LowersParts(h, c, NewBlocks(ss[0]), LinksOf(ss[0], here));
      StmtInstructive(ss[0], nm, pool, n, here, inLoop);
      StmtsInstructive(ss[1..], c.nm, c.pool, c.next, here + |h.blocks| - 1, inLoop);
      InstructiveGlue(h.blocks, LowerStmts(ss[1..], c.nm, c.pool, c.next, here + |h.blocks| - 1).blocks);
    }
  }

  lemma {:induction false} StmtInstructive(s: Stmt, nm: Names, pool: Pool, n: int, here: int, inLoop: bool)
    requires CleanStmt(s, nm, pool, n, inLoop)
    ensures Instructive(LowerStmt(s, nm, pool, n, here).blocks)
    decreases s, 1
  {
    match s
    case If(_, _, _) => IfInstructive(s, nm, pool, n, here, inLoop);
    case While(_, _) => LoopInstructive(s, nm, pool, n, here, inLoop);
    case _ => SimpleInstructive(s, nm, pool, n, here, inLoop);
  }

  lemma SimpleInstructive(s: Stmt, nm: Names, pool: Pool, n: int, here: int, inLoop: bool)
    requires !s.If? && !s.While? && CleanStmt(s, nm, pool, n, inLoop)
    ensures Instructive(LowerStmt(s, nm, pool, n, here).blocks)
  {
    hide LowerExpr, NoMarkers, Works, Instructive;
    SimpleBlocks(s, nm, pool, n, here);
    var b := LowerStmt(s, nm, pool, n, here).blocks;
    assert b == [b[0]];
    match s {
    case ExprStmt(e) =>
      var r := LowerExpr(nm, e, pool, n);
      assert b[0] == [] + r.steps == r.steps;
      if r.steps != [] {
        PlainWorks(r.steps);
      }
    case LocalDef(_, init) =>
      var r := LowerExpr(nm, init, pool, n);
      var move := [Ir.TacMove(Ir.TempAt(r.next), r.addr.value)];
      assert NoMarkers(move) by { OneMarkerless(move[0]); }
      PlainWorks(move);
      WorksMore([] + r.steps, move);
    case Return(result) =>
      var r := LowerExpr(nm, result, pool, n);
      var ret := [Ir.OperUnary(r.addr.value, Ir.Ret)];
      assert NoMarkers(ret) by { OneMarkerless(ret[0]); }
      PlainWorks(ret);
      WorksMore([] + r.steps, ret);
    case Break =>
      assert NoMarkers([JumpStep()]) by { OneMarkerless(JumpStep()); }
      PlainWorks([JumpStep()]);
      WorksMore([], [JumpStep()]);
      WorksMore([] + [JumpStep()], [Meta(Ir.MarkBreak)]);
    }
    InstructiveOne(b[0]);
  }

  lemma OneMarkerless(step: Ir.Step)
    requires !step.OperNonary?
    ensures NoMarkers([step])
  {
    assert [step][1..] == [];
  }

  lemma {:induction false} IfInstructive(s: Stmt, nm: Names, pool: Pool, n: int, here: int, inLoop: bool)
    requires s.If? && CleanStmt(s, nm, pool, n, inLoop)
    ensures Instructive(LowerStmt(s, nm, pool, n, here).blocks)
    decreases s, 0
  {
    hide LowerStmt, LowerStmts, LowerExpr, CompileStmts, Instructive, Works, WithTail, BeginIf, NoMarkers;
    var r := LowerExpr(nm, s.cond, pool, n);
    var b := BeginIf(nm, pool, n, r).blocks[0];
    var thn := LowerStmts(s.thn, nm, r.pool, r.next, here + 1).blocks;
    EndsWork();
    BeginWorks(nm, pool, n, r);
    InstructiveOne(b);
    StmtsInstructive(s.thn, nm, r.pool, r.next, here + 1, inLoop);
    if s.els.NoElse? {
      IfBlocks(s, nm, pool, n, here, inLoop);
      InstructiveOne(PASS_END);
      InstructiveConcat([b], thn);
      InstructiveConcat([b] + thn, [PASS_END]);
    } else {
      var c := CompileStmts(s.thn, nm, r.pool, r.next, 0, 0);
      ElseBlocks(s, nm, pool, n, here, inLoop);
      StmtsInstructive(s.els.body, c.nm, c.pool, c.next, ElseStart(s, here), inLoop);
      var els := LowerStmts(s.els.body, c.nm, c.pool, c.next, ElseStart(s, here)).blocks;
      InstructiveTail(thn, JUMP_ALT);
      InstructiveTail(els, PASS_END);
      InstructiveOne([]);
      InstructiveConcat([b], WithTail(thn, JUMP_ALT));
      InstructiveConcat([b] + WithTail(thn, JUMP_ALT), WithTail(els, PASS_END));
      InstructiveConcat([b] + WithTail(thn, JUMP_ALT) + WithTail(els, PASS_END), [[]]);
    }
  }

  lemma {:induction false} LoopInstructive(s: Stmt, nm: Names, pool: Pool, n: int, here: int, inLoop: bool)
    requires s.While? && CleanStmt(s, nm, pool, n, inLoop)
    ensures Instructive(LowerStmt(s, nm, pool, n, here).blocks)
    decreases s, 0
  {
    hide LowerStmt, LowerStmts, LowerExpr, Instructive, Works, WithTail, BeginLoop, NoMarkers;
    var r := LowerExpr(nm, s.check, pool, n);
    var b := BeginLoop(nm, pool, n, r).blocks[0];
    var body := LowerStmts(s.body, nm, r.pool, r.next, here + 1).blocks;
    EndsWork();
    BeginWorks(nm, pool, n, r);
    InstructiveOne(b);
    StmtsInstructive(s.body, nm, r.pool, r.next, here + 1, true);
    LoopBlocks(s, nm, pool, n, here, inLoop);
    InstructiveTail(body, JUMP_BACK);
    InstructiveOne(LOOP_END);
    InstructiveConcat([b], WithTail(body, JUMP_BACK));
    InstructiveConcat([b] + WithTail(body, JUMP_BACK), [LOOP_END]);
  }

  /** The steps that are emitted make as many instructions as the whole body has if and only if
      nothing is lost, and then they are all steps. */
  lemma KeptExactly(ss: seq<Stmt>, nm: Names, pool: Pool, n: int, here: int)
    requires CleanStmts(ss, nm, pool, n, false)
    ensures var bs := LowerStmts(ss, nm, pool, n, here).blocks;
            && |bs| == |Reached(ss)|
            && (NothingLost(ss, true) ==> Kept(bs, Reached(ss)) == Flat(bs))
            && (|TranslateAll(Kept(bs, Reached(ss)))| == |TranslateAll(Flat(bs))| <==> NothingLost(ss, true))
  {
    hide CleanStmts, LowerStmts, Reached, NothingLost, LostFree, Instructive, Kept, Flat, TranslateAll;
    var bs := LowerStmts(ss, nm, pool, n, here).blocks;
    StmtsLost(ss, nm, pool, n, here, false, true);
    StmtsInstructive(ss, nm, pool, n, here, false);
    FewerKept(bs, Reached(ss));
    if NothingLost(ss, true) {
      AllKept(bs, Reached(ss));
    }
  }
}
