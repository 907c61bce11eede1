/** Statements whose lowering meets no error anywhere, and what it then produces. */
module CleanLowering {
  import opened Syntax
  import opened ExprLowering
  import opened Fragment
  import opened LoweringFacts
  import opened Compositional
  import opened CompileFacts
  import opened StmtLowering
  import opened BlockGraph
  import Ir

  predicate CleanExpr(r: Lowered) {
    r.addr.Some? && r.errors == 0 && NoMarkers(r.steps)
  }

  /** Every name resolves, nothing is defined twice, `break` occurs only in loops. */
  predicate CleanStmt(s: Stmt, nm: Names, pool: Pool, n: int, inLoop: bool)
    decreases s
  {
    match s
    case ExprStmt(e) => CleanExpr(LowerExpr(nm, e, pool, n))
    case LocalDef(name, init) => CleanExpr(LowerExpr(nm, init, pool, n)) && name !in nm.locals
    case Return(result) => CleanExpr(LowerExpr(nm, result, pool, n))
    case Break => inLoop
    case If(cond, thn, els) =>
      var r := LowerExpr(nm, cond, pool, n);
      var t := CompileStmts(thn, nm, r.pool, r.next, 0, 0);
      && CleanExpr(r) && CleanStmts(thn, nm, r.pool, r.next, inLoop)
      && (els.Else? ==> CleanStmts(els.body, t.nm, t.pool, t.next, inLoop))
    case While(check, body) =>
      var r := LowerExpr(nm, check, pool, n);
      CleanExpr(r) && CleanStmts(body, nm, r.pool, r.next, true)
  }

  predicate CleanStmts(ss: seq<Stmt>, nm: Names, pool: Pool, n: int, inLoop: bool)
    decreases ss
  {
    ss == [] ||
    (&& CleanStmt(ss[0], nm, pool, n, inLoop)
     && var h := CompileStmt(ss[0], nm, pool, n, 0, 0);
     CleanStmts(ss[1..], h.nm, h.pool, h.next, inLoop))
  }

  /** The lowering succeeds, with the names, constants and temporaries of the compositional
      compiler, and the blocks and links given by the shape of the code. */
  ghost predicate LowersTo(e: Emitted, c: Compiled, blocks: nat, links: seq<Link>) {
    && e.ok && e.errors == 0 && e.nm == c.nm && e.pool == c.pool && e.next == c.next
    && |e.blocks| == blocks + 1 && e.links == links
  }

  lemma JoinLowers(h: Emitted, ch: Compiled, bh: nat, lh: seq<Link>, t: Emitted, ct: Compiled, bt: nat, lt: seq<Link>)
    requires h.blocks != [] && t.blocks != [] && LowersTo(h, ch, bh, lh) && LowersTo(t, ct, bt, lt)
    ensures LowersTo(Join(h, t), ct, bh + bt, lh + lt)
  {
    hide Glue;
  }

  /** The context in which an expression leaves what follows it. */
  function AfterExpr(nm: Names, r: Lowered): Compiled {
    Compiled([], nm, r.pool, r.next)
  }

  lemma BeginLowers(nm: Names, pool: Pool, n: int, r: Lowered)
    requires CleanExpr(r)
    ensures LowersTo(BeginIf(nm, pool, n, r), AfterExpr(nm, r), 0, [])
    ensures LowersTo(BeginLoop(nm, pool, n, r), AfterExpr(nm, r), 0, [])
  {
    hide NoMarkers;
  }

  lemma ConnectLowers(e: Emitted, c: Compiled, blocks: nat, links: seq<Link>, from: int, to: int)
    requires LowersTo(e, c, blocks, links)
    ensures LowersTo(Connect(e, from, to), c, blocks, links + [Link(from, to)])
  {
  }

  lemma EndIfLowers(e: Emitted, c: Compiled, blocks: nat, links: seq<Link>, here: int, tId: int)
    requires e.blocks != [] && LowersTo(e, c, blocks, links)
    ensures var post := here + blocks + 1;
            LowersTo(EndIf(e, here, tId), c, blocks + 1, links + [Link(tId, post), Link(here, post)])
  {
  }

  lemma BeginElseLowers(e: Emitted, c: Compiled, blocks: nat, links: seq<Link>)
    requires e.blocks != [] && LowersTo(e, c, blocks, links)
    ensures LowersTo(BeginElse(e), c, blocks, links)
  {
  }

  lemma EndElseLowers(e: Emitted, c: Compiled, blocks: nat, links: seq<Link>, here: int, fId: int)
    requires e.blocks != [] && LowersTo(e, c, blocks, links)
    ensures LowersTo(EndElse(e, here, fId), c, blocks + 1, links + [Link(here, fId), Link(fId, here + blocks + 1)])
  {
  }

  lemma EndLoopLowers(e: Emitted, c: Compiled, blocks: nat, links: seq<Link>, here: int, bId: int)
    requires e.blocks != [] && LowersTo(e, c, blocks, links)
    ensures LowersTo(EndLoop(e, here, bId), c, blocks + 1,
                     links + [Link(bId, here), Link(here, bId), Link(here, here + blocks + 1)])
  {
  }

  /** Only names, constants and counters of the reference matter. */
  lemma LowersSame(e: Emitted, c: Compiled, c': Compiled, blocks: nat, links: seq<Link>)
    requires LowersTo(e, c, blocks, links) && c'.nm == c.nm && c'.pool == c.pool && c'.next == c.next
    ensures LowersTo(e, c', blocks, links)
  {
  }

  lemma {:induction false} LowerStmtClean(s: Stmt, nm: Names, pool: Pool, n: int, here: int, inLoop: bool)
    requires CleanStmt(s, nm, pool, n, inLoop)
    ensures LowersTo(LowerStmt(s, nm, pool, n, here), CompileStmt(s, nm, pool, n, 0, 0), NewBlocks(s), LinksOf(s, here))
    decreases s, 2
  {
    match s
    case If(_, _, _) => LowerIfClean(s, nm, pool, n, here, inLoop);
    case While(_, _) => LowerWhileClean(s, nm, pool, n, here, inLoop);
    case _ => LowerSimpleClean(s, nm, pool, n, here, inLoop);
  }

  lemma LowerSimpleClean(s: Stmt, nm: Names, pool: Pool, n: int, here: int, inLoop: bool)
    requires !s.If? && !s.While? && CleanStmt(s, nm, pool, n, inLoop)
    ensures LowersTo(LowerStmt(s, nm, pool, n, here), CompileStmt(s, nm, pool, n, 0, 0), NewBlocks(s), LinksOf(s, here))
  {
    hide LowerExpr, TranslateAll, NoMarkers;
  }

  /** The first branch, up to the link that leads to it. */
  lemma {:induction false} LowerThenClean(s: Stmt, nm: Names, pool: Pool, n: int, here: int, inLoop: bool)
    requires s.If? && CleanStmt(s, nm, pool, n, inLoop)
    ensures var r := LowerExpr(nm, s.cond, pool, n);
            && CleanExpr(r)
            && var e := BeginIf(nm, pool, n, r);
            var t := LowerBlock(s.thn, e.nm, e.pool, e.next, here);
            && t.ok
            && LowersTo(Connect(Join(e, t), here, here + 1), CompileStmts(s.thn, nm, r.pool, r.next, 0, 0),
                        BlocksIn(s.thn) + 1, LinksIn(s.thn, here + 1) + [Link(here, here + 1)])
    decreases s, 0
  {
    hide LowerExpr, TranslateAll, NoMarkers, BeginIf, LowerBlock, Join, Connect, BlocksIn, LinksIn;
    var r := LowerExpr(nm, s.cond, pool, n);
    BeginLowers(nm, pool, n, r);
    var e := BeginIf(nm, pool, n, r);
    LowerBlockClean(s.thn, nm, r.pool, r.next, here, inLoop);
    var t := LowerBlock(s.thn, e.nm, e.pool, e.next, here);
    var c := CompileStmts(s.thn, nm, r.pool, r.next, 0, 0);
    assert [] + LinksIn(s.thn, here + 1) == LinksIn(s.thn, here + 1);
    JoinLowers(e, AfterExpr(nm, r), 0, [], t, c, BlocksIn(s.thn) + 1, LinksIn(s.thn, here + 1));
    ConnectLowers(Join(e, t), c, BlocksIn(s.thn) + 1, LinksIn(s.thn, here + 1), here, here + 1);
  }

  lemma {:induction false} LowerIfClean(s: Stmt, nm: Names, pool: Pool, n: int, here: int, inLoop: bool)
    requires s.If? && CleanStmt(s, nm, pool, n, inLoop)
    ensures LowersTo(LowerStmt(s, nm, pool, n, here), CompileStmt(s, nm, pool, n, 0, 0), NewBlocks(s), LinksOf(s, here))
    decreases s, 1
  {
    hide LowerExpr, TranslateAll, NoMarkers, BeginIf, EndIf, BeginElse, EndElse, LowerBlock, Join, Connect, BlocksIn, LinksIn,
         CompileStmts, LowersTo, CleanStmt, CleanStmts;
    LowerThenClean(s, nm, pool, n, here, inLoop);
    var r := LowerExpr(nm, s.cond, pool, n);
    var e := BeginIf(nm, pool, n, r);
    var t := Connect(Join(e, LowerBlock(s.thn, e.nm, e.pool, e.next, here)), here, here + 1);
    var c := CompileStmts(s.thn, nm, r.pool, r.next, 0, 0);
    var blocks, links := BlocksIn(s.thn) + 1, LinksIn(s.thn, here + 1) + [Link(here, here + 1)];
    if s.els.NoElse? {
      EndIfLowers(t, c, blocks, links, here, here + 1);
      IfLinks(s, here);
      IfShape(s, nm, pool, n);
      LowersSame(EndIf(t, here, here + 1), c, CompileStmt(s, nm, pool, n, 0, 0), NewBlocks(s), LinksOf(s, here));
    } else {
      LowerElseClean(s, nm, pool, n, here, inLoop, t, r, c, blocks, links);
    }
  }

  lemma IfLinks(s: Stmt, here: int)
    requires s.If? && s.els.NoElse?
    ensures var blocks, links := BlocksIn(s.thn) + 1, LinksIn(s.thn, here + 1) + [Link(here, here + 1)];
            var post := here + blocks + 1;
            NewBlocks(s) == blocks + 1 && LinksOf(s, here) == links + [Link(here + 1, post), Link(here, post)]
  {
    hide BlocksIn, LinksIn;
  }

  /** The second branch and the end of the `if`. */
  lemma {:induction false} LowerElseClean(
    s: Stmt, nm: Names, pool: Pool, n: int, here: int, inLoop: bool, t: Emitted, r: Lowered, c: Compiled, blocks: nat, links: seq<Link>)
    requires s.If? && s.els.Else? && CleanStmt(s, nm, pool, n, inLoop) && r == LowerExpr(nm, s.cond, pool, n) && CleanExpr(r)
    requires t.blocks != [] && LowersTo(t, c, blocks, links) && c == CompileStmts(s.thn, nm, r.pool, r.next, 0, 0)
    requires var e := BeginIf(nm, pool, n, r);
             var b := LowerBlock(s.thn, e.nm, e.pool, e.next, here);
             b.ok && t == Connect(Join(e, b), here, here + 1)
    requires blocks == BlocksIn(s.thn) + 1 && links == LinksIn(s.thn, here + 1) + [Link(here, here + 1)]
    ensures LowersTo(LowerStmt(s, nm, pool, n, here), CompileStmt(s, nm, pool, n, 0, 0), NewBlocks(s), LinksOf(s, here))
    decreases s, 0
  {
    hide LowerExpr, TranslateAll, NoMarkers, BeginIf, EndIf, BeginElse, EndElse, LowerBlock, Join, Connect, BlocksIn, LinksIn, CompileStmts;
    BeginElseLowers(t, c, blocks, links);
    var alt := BeginElse(t);
    var eHere := here + blocks;
    LowerBlockClean(s.els.body, c.nm, c.pool, c.next, eHere, inLoop);
    var f := LowerBlock(s.els.body, alt.nm, alt.pool, alt.next, eHere);
    var cf := CompileStmts(s.els.body, c.nm, c.pool, c.next, 0, 0);
    var fBlocks, fLinks := BlocksIn(s.els.body) + 1, LinksIn(s.els.body, eHere + 1);
    JoinLowers(alt, c, blocks, links, f, cf, fBlocks, fLinks);
    EndElseLowers(Join(alt, f), cf, blocks + fBlocks, links + fLinks, here, eHere + 1);
    ElseLinks(s, here);
    ElseShape(s, nm, pool, n);
    assert LowerStmt(s, nm, pool, n, here) == EndElse(Join(alt, f), here, eHere + 1);
    LowersSame(EndElse(Join(alt, f), here, eHere + 1), cf, CompileStmt(s, nm, pool, n, 0, 0), NewBlocks(s), LinksOf(s, here));
  }

  lemma ElseLinks(s: Stmt, here: int)
    requires s.If? && s.els.Else?
    ensures var blocks, links := BlocksIn(s.thn) + 1, LinksIn(s.thn, here + 1) + [Link(here, here + 1)];
            var fBlocks, fLinks := BlocksIn(s.els.body) + 1, LinksIn(s.els.body, here + blocks + 1);
            && NewBlocks(s) == blocks + fBlocks + 1
            && LinksOf(s, here) ==
                 links + fLinks + [Link(here, here + blocks + 1), Link(here + blocks + 1, here + (blocks + fBlocks) + 1)]
  {
    hide BlocksIn, LinksIn;
  }

  lemma IfShape(s: Stmt, nm: Names, pool: Pool, n: int)
    requires s.If? && s.els.NoElse?
    ensures var r := LowerExpr(nm, s.cond, pool, n);
            var t := CompileStmts(s.thn, nm, r.pool, r.next, 0, 0);
            var c := CompileStmt(s, nm, pool, n, 0, 0);
            c.nm == t.nm && c.pool == t.pool && c.next == t.next
  {
    hide LowerExpr, TranslateAll;
    var r := LowerExpr(nm, s.cond, pool, n);
    StmtsShape(s.thn, nm, r.pool, r.next, 0, 0, 0 + |TranslateAll(r.steps)| + 1, 0);
    hide CompileStmts;
  }

  lemma ElseShape(s: Stmt, nm: Names, pool: Pool, n: int)
    requires s.If? && s.els.Else?
    ensures var r := LowerExpr(nm, s.cond, pool, n);
            var t := CompileStmts(s.thn, nm, r.pool, r.next, 0, 0);
            var f := CompileStmts(s.els.body, t.nm, t.pool, t.next, 0, 0);
            var c := CompileStmt(s, nm, pool, n, 0, 0);
            c.nm == f.nm && c.pool == f.pool && c.next == f.next
  {
    hide LowerExpr, TranslateAll;
    var r := LowerExpr(nm, s.cond, pool, n);
    var first := 0 + |TranslateAll(r.steps)| + 1;
    StmtsShape(s.thn, nm, r.pool, r.next, 0, 0, first, 0);
    var t := CompileStmts(s.thn, nm, r.pool, r.next, first, 0);
    StmtsShape(s.els.body, t.nm, t.pool, t.next, 0, 0, first + |t.code| + 2, 0);
    hide CompileStmts;
  }

  lemma {:induction false} LowerWhileClean(s: Stmt, nm: Names, pool: Pool, n: int, here: int, inLoop: bool)
    requires s.While? && CleanStmt(s, nm, pool, n, inLoop)
    ensures LowersTo(LowerStmt(s, nm, pool, n, here), CompileStmt(s, nm, pool, n, 0, 0), NewBlocks(s), LinksOf(s, here))
    decreases s, 0
  {
    hide LowerExpr, TranslateAll, NoMarkers, BeginLoop, EndLoop, LowerBlock, Join, BlocksIn, LinksIn;
    var r := LowerExpr(nm, s.check, pool, n);
    BeginLowers(nm, pool, n, r);
    var e := BeginLoop(nm, pool, n, r);
    LowerBlockClean(s.body, nm, r.pool, r.next, here, true);
    var b := LowerBlock(s.body, e.nm, e.pool, e.next, here);
    var c := CompileStmts(s.body, nm, r.pool, r.next, 0, 0);
    assert [] + LinksIn(s.body, here + 1) == LinksIn(s.body, here + 1);
    JoinLowers(e, AfterExpr(nm, r), 0, [], b, c, BlocksIn(s.body) + 1, LinksIn(s.body, here + 1));
    EndLoopLowers(Join(e, b), c, BlocksIn(s.body) + 1, LinksIn(s.body, here + 1), here, here + 1);
    WhileShape(s, nm, pool, n);
    LowersSame(EndLoop(Join(e, b), here, here + 1), c, CompileStmt(s, nm, pool, n, 0, 0), NewBlocks(s), LinksOf(s, here));
  }

  lemma WhileShape(s: Stmt, nm: Names, pool: Pool, n: int)
    requires s.While?
    ensures var r := LowerExpr(nm, s.check, pool, n);
            var b := CompileStmts(s.body, nm, r.pool, r.next, 0, 0);
            var c := CompileStmt(s, nm, pool, n, 0, 0);
            c.nm == b.nm && c.pool == b.pool && c.next == b.next
  {
    hide LowerExpr, TranslateAll;
    var r := LowerExpr(nm, s.check, pool, n);
    var first := 0 + 1 + |TranslateAll(r.steps)| + 1;
    var exit := first + |CompileStmts(s.body, nm, r.pool, r.next, first, 0).code| + 1;
    StmtsShape(s.body, nm, r.pool, r.next, 0, 0, first, exit);
    hide CompileStmts;
  }

  lemma {:induction false} LowerBlockClean(ss: seq<Stmt>, nm: Names, pool: Pool, n: int, here: int, inLoop: bool)
    requires CleanStmts(ss, nm, pool, n, inLoop)
    ensures LowersTo(LowerBlock(ss, nm, pool, n, here), CompileStmts(ss, nm, pool, n, 0, 0), BlocksIn(ss) + 1, LinksIn(ss, here + 1))
    decreases ss, 4
  {
    LowerStmtsClean(ss, nm, pool, n, here + 1, inLoop);
  }

  lemma {:induction false} LowerStmtsClean(ss: seq<Stmt>, nm: Names, pool: Pool, n: int, here: int, inLoop: bool)
    requires CleanStmts(ss, nm, pool, n, inLoop)
    ensures LowersTo(LowerStmts(ss, nm, pool, n, here), CompileStmts(ss, nm, pool, n, 0, 0), BlocksIn(ss), LinksIn(ss, here))
    decreases ss, 3
  {
    hide CleanStmt, LowerStmt, CompileStmt, LinksOf, NewBlocks, Join, LowersTo;
    if ss == [] {
      NothingLowers(nm, pool, n);
    } else {
      LowerStmtClean(ss[0], nm, pool, n, here, inLoop);
      var h := LowerStmt(ss[0], nm, pool, n, here);
      var c := CompileStmt(ss[0], nm, pool, n, 0, 0);
      LowerStmtsClean(ss[1..], c.nm, c.pool, c.next, here + NewBlocks(ss[0]), inLoop);
      var t := LowerStmts(ss[1..], c.nm, c.pool, c.next, here + NewBlocks(ss[0]));
      StmtsShape(ss[1..], c.nm, c.pool, c.next, 0, 0, |c.code|, 0);
      var ct := CompileStmts(ss[1..], c.nm, c.pool, c.next, 0, 0);
      LowersParts(h, c, NewBlocks(ss[0]), LinksOf(ss[0], here));
      JoinLowers(h, c, NewBlocks(ss[0]), LinksOf(ss[0], here), t, ct, BlocksIn(ss[1..]), LinksIn(ss[1..], here + NewBlocks(ss[0])));
      LowersSame(Join(h, t), ct, CompileStmts(ss, nm, pool, n, 0, 0), BlocksIn(ss), LinksIn(ss, here));
    }
  }

  lemma NothingLowers(nm: Names, pool: Pool, n: int)
    ensures LowersTo(Start(nm, pool, n), Compiled([], nm, pool, n), 0, [])
  {
  }

  lemma LowersParts(e: Emitted, c: Compiled, blocks: nat, links: seq<Link>)
    requires LowersTo(e, c, blocks, links)
    ensures e.ok && e.nm == c.nm && e.pool == c.pool && e.next == c.next && |e.blocks| - 1 == blocks
  {
  }
}
