/** One-pass emission with backpatching yields the code of the compositional compiler. */
module Backpatching {
  import opened Syntax
  import opened ExprLowering
  import opened LoweringFacts
  import opened Compositional
  import opened StmtLowering
  import opened CleanLowering
  import opened Emission
  import Ir
  import Machine

  // ---------------------------------------------------------------- patched positions

  /** Indices of the jumps in a statement that a `break` of the enclosing loop compiles to. */
  function BreaksOf(s: Stmt, nm: Names, pool: Pool, n: int, base: int): seq<int>
    decreases s
  {
    match s
    case Break => [base]
    case If(cond, thn, els) =>
      var r := LowerExpr(nm, cond, pool, n);
      var first := base + |TranslateAll(r.steps)| + 1;
      var t := CompileStmts(thn, nm, r.pool, r.next, first, 0);
      var breaks := BreaksIn(thn, nm, r.pool, r.next, first);
      if els.NoElse? then breaks
      else breaks + BreaksIn(els.body, t.nm, t.pool, t.next, first + |t.code| + 2)
    case _ => []
  }

  function BreaksIn(ss: seq<Stmt>, nm: Names, pool: Pool, n: int, base: int): seq<int>
    decreases ss
  {
    if ss == [] then []
    else
      var h := CompileStmt(ss[0], nm, pool, n, base, 0);
      BreaksOf(ss[0], nm, pool, n, base) + BreaksIn(ss[1..], h.nm, h.pool, h.next, base + |h.code|)
  }

  /** `done` is `todo`, placed at `base`, with the listed jumps aimed at `target`. */
  ghost predicate Redirected(todo: Machine.Chunk, done: Machine.Chunk, base: int, ips: seq<int>, target: int) {
    && |todo| == |done|
    && (forall i | 0 <= i < |ips| :: base <= ips[i] < base + |todo|)
    && (forall i | 0 <= i < |todo| ::
          done[i] == if base + i in ips then SetTarget0(todo[i], target) else todo[i])
  }

  lemma RedirectedNone(code: Machine.Chunk, base: int, target: int)
    ensures Redirected(code, code, base, [], target)
  {
  }

  lemma RedirectedConcat(
    a: Machine.Chunk, a': Machine.Chunk, b: Machine.Chunk, b': Machine.Chunk, base: int,
    ips: seq<int>, ips': seq<int>, target: int)
    requires Redirected(a, a', base, ips, target) && Redirected(b, b', base + |a|, ips', target)
    ensures Redirected(a + b, a' + b', base, ips + ips', target)
  {
    forall i | 0 <= i < |a + b|
      ensures (a' + b')[i] == if base + i in ips + ips' then SetTarget0((a + b)[i], target) else (a + b)[i]
    {
      if i < |a| {
        assert base + i !in ips';
      } else {
        assert base + i !in ips && base + |a| + (i - |a|) == base + i;
      }
    }
  }

  /** Code compiled for one `break` target differs from code compiled for another exactly at
      the pending jumps. */
  lemma {:induction false} StmtRedirected(s: Stmt, nm: Names, pool: Pool, n: int, base: int, brk: int)
    ensures Redirected(CompileStmt(s, nm, pool, n, base, 0).code, CompileStmt(s, nm, pool, n, base, brk).code, base,
                       BreaksOf(s, nm, pool, n, base), brk)
    decreases s, 1
  {
    match s
    case If(_, _, _) => IfRedirected(s, nm, pool, n, base, brk);
    case Break =>
    case _ =>
      assert CompileStmt(s, nm, pool, n, base, brk).code == CompileStmt(s, nm, pool, n, base, 0).code;
      RedirectedNone(CompileStmt(s, nm, pool, n, base, 0).code, base, brk);
  }

  lemma {:induction false} IfRedirected(s: Stmt, nm: Names, pool: Pool, n: int, base: int, brk: int)
    requires s.If?
    ensures Redirected(CompileStmt(s, nm, pool, n, base, 0).code, CompileStmt(s, nm, pool, n, base, brk).code, base,
                       BreaksOf(s, nm, pool, n, base), brk)
    decreases s, 0
  {
    hide LowerExpr, TranslateAll, Redirected, CompileStmts, BreaksIn;
    var r := LowerExpr(nm, s.cond, pool, n);
    var check := TranslateAll(r.steps);
    var first := base + |check| + 1;
    StmtsRedirected(s.thn, nm, r.pool, r.next, first, brk);
    StmtsShape(s.thn, nm, r.pool, r.next, first, 0, first, brk);
    var t, t' := CompileStmts(s.thn, nm, r.pool, r.next, first, 0), CompileStmts(s.thn, nm, r.pool, r.next, first, brk);
    var tb := BreaksIn(s.thn, nm, r.pool, r.next, first);
    var end := first + |t.code|;
    if s.els.NoElse? {
      Wrap(check + [JumpElseTo(Result(r), end)], t.code, t'.code, [NOP], base, tb, brk);
    } else {
      StmtsRedirected(s.els.body, t.nm, t.pool, t.next, end + 2, brk);
      StmtsShape(s.els.body, t.nm, t.pool, t.next, end + 2, 0, end + 2, brk);
      var f, f' := CompileStmts(s.els.body, t.nm, t.pool, t.next, end + 2, 0), CompileStmts(s.els.body, t.nm, t.pool, t.next, end + 2, brk);
      WrapTwice(check + [JumpElseTo(Result(r), end + 1)], t.code, t'.code, [JumpTo(end + 2 + |f.code|), NOP],
                f.code, f'.code, [NOP], base, tb, BreaksIn(s.els.body, t.nm, t.pool, t.next, end + 2), brk);
    }
  }

  lemma WrapTwice(
    front: Machine.Chunk, t: Machine.Chunk, t': Machine.Chunk, middle: Machine.Chunk, f: Machine.Chunk, f': Machine.Chunk,
    back: Machine.Chunk, base: int, ips: seq<int>, ips': seq<int>, target: int)
    requires Redirected(t, t', base + |front|, ips, target)
    requires Redirected(f, f', base + |front| + |t| + |middle|, ips', target)
    ensures Redirected(front + t + middle + f + back, front + t' + middle + f' + back, base, ips + ips', target)
  {
    Wrap(front, t, t', middle, base, ips, target);
    RedirectedConcat(front + t + middle, front + t' + middle, f, f', base, ips, ips', target);
    hide Redirected;
    var a, a' := front + t + middle + f, front + t' + middle + f';
    RedirectedNone(back, base + |a|, target);
    RedirectedConcat(a, a', back, back, base, ips + ips', [], target);
    assert ips + ips' + [] == ips + ips';
  }

  lemma Wrap(front: Machine.Chunk, c: Machine.Chunk, c': Machine.Chunk, back: Machine.Chunk, base: int, ips: seq<int>, target: int)
    requires Redirected(c, c', base + |front|, ips, target)
    ensures Redirected(front + c + back, front + c' + back, base, ips, target)
  {
    hide Redirected;
    RedirectedNone(front, base, target);
    RedirectedConcat(front, front, c, c', base, [], ips, target);
    RedirectedNone(back, base + |front + c|, target);
    RedirectedConcat(front + c, front + c', back, back, base, [] + ips, [], target);
    assert [] + ips + [] == ips;
  }

  lemma {:induction false} StmtsRedirected(ss: seq<Stmt>, nm: Names, pool: Pool, n: int, base: int, brk: int)
    ensures Redirected(CompileStmts(ss, nm, pool, n, base, 0).code, CompileStmts(ss, nm, pool, n, base, brk).code, base,
                       BreaksIn(ss, nm, pool, n, base), brk)
    decreases ss, 1
  {
    if ss != [] {
      hide CompileStmt, BreaksOf, Redirected;
      var h, h' := CompileStmt(ss[0], nm, pool, n, base, 0), CompileStmt(ss[0], nm, pool, n, base, brk);
      StmtRedirected(ss[0], nm, pool, n, base, brk);
      StmtShape(ss[0], nm, pool, n, base, 0, base, brk);
      StmtsRedirected(ss[1..], h.nm, h.pool, h.next, base + |h.code|, brk);
      RedirectedConcat(h.code, h'.code, CompileStmts(ss[1..], h.nm, h.pool, h.next, base + |h.code|, 0).code,
                       CompileStmts(ss[1..], h.nm, h.pool, h.next, base + |h.code|, brk).code, base,
                       BreaksOf(ss[0], nm, pool, n, base), BreaksIn(ss[1..], h.nm, h.pool, h.next, base + |h.code|), brk);
    }
  }

  /** Patching a list of positions one by one redirects all of them. */
  lemma {:induction false} PatchAllAt(code: Machine.Chunk, ips: seq<int>, target: int)
    requires AllInChunk(code, ips)
    ensures forall i | 0 <= i < |code| ::
              PatchAll(code, ips, target)[i] == if i in ips then SetTarget0(code[i], target) else code[i]
    decreases |ips|
  {
    if ips != [] {
      PatchAllAt(code[ips[0] := SetTarget0(code[ips[0]], target)], ips[1..], target);
    }
  }

  /** Patching the pending jumps of a part in the middle of a chunk. */
  lemma PatchMiddle(front: Machine.Chunk, c: Machine.Chunk, c': Machine.Chunk, back: Machine.Chunk, ips: seq<int>, target: int)
    requires Redirected(c, c', |front|, ips, target)
    ensures AllInChunk(front + c + back, ips) && PatchAll(front + c + back, ips, target) == front + c' + back
  {
    var code := front + c + back;
    assert AllInChunk(code, ips);
    PatchAllAt(code, ips, target);
    var done := front + c' + back;
    forall i | 0 <= i < |code| ensures PatchAll(code, ips, target)[i] == done[i] {
      if |front| <= i < |front| + |c| {
        assert |front| + (i - |front|) == i;
      } else {
        assert i !in ips;
      }
    }
  }
}
