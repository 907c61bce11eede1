/** The order in which the emitter visits the blocks of a function
    (src/bcgen/emitter.cpp:418-461): a depth-first walk with an explicit stack. */
module DfsOrder {
  import opened Syntax
  import opened Fragment
  import opened ExprLowering
  import opened StmtLowering
  import opened BlockGraph
  import opened Cfg

  function Unvisited(count: nat, visited: set<int>): set<int> {
    set i: int | 0 <= i < count && i !in visited
  }

  /** Successors in the order they are pushed: falsy first. */
  function Pushed(b: BasicBlock): seq<int> {
    (if b.falsy == DUD_BLOCK then [] else [b.falsy]) + (if b.truthy == DUD_BLOCK then [] else [b.truthy])
  }

  /** Ids of the emitted blocks, in emission order. The top of the stack is last. */
  function Dfs(blocks: seq<BasicBlock>, frontier: seq<int>, visited: set<int>): Option<seq<int>>
    decreases |Unvisited(|blocks|, visited)|, |frontier|
  {
    if frontier == [] then Some([])
    else
      var id, rest := frontier[|frontier| - 1], frontier[..|frontier| - 1];
      if id in visited then Dfs(blocks, rest, visited)
      else if !(0 <= id < |blocks|) then None
      else
        VisitShrinks(|blocks|, visited, id);
        Prepend([id], Dfs(blocks, rest + Pushed(blocks[id]), visited + {id}))
  }

  lemma VisitShrinks(count: nat, visited: set<int>, id: int)
    requires 0 <= id < count && id !in visited
    ensures |Unvisited(count, visited + {id})| < |Unvisited(count, visited)|
  {
    assert Unvisited(count, visited + {id}) == Unvisited(count, visited) - {id};
  }

  function Prepend(ids: seq<int>, o: Option<seq<int>>): Option<seq<int>> {
    match o
    case None => None
    case Some(more) => Some(ids + more)
  }

  lemma PrependTwice(a: seq<int>, b: seq<int>, o: Option<seq<int>>)
    ensures Prepend(a, Prepend(b, o)) == Prepend(a + b, o)
  {
    if o.Some? {
      assert a + (b + o.value) == a + b + o.value;
    }
  }

  /** What the walk emits of a statement list whose first block is `c`: after an `else` body
      that has blocks of its own, nothing follows. */
  function Order(ss: seq<Stmt>, c: int): seq<int> {
    if ss == [] then [c]
    else
      match ss[0]
      case If(_, thn, els) =>
        var t := c + 1;
        if els.NoElse? then [c] + Order(thn, t) + Order(ss[1..], c + NewBlocks(ss[0]))
        else
          var f := t + BlocksIn(thn) + 1;
          [c] + Order(thn, t) + Order(els.body, f)
          + (if BlocksIn(els.body) == 0 then Order(ss[1..], c + NewBlocks(ss[0])) else [])
      case While(_, body) => [c] + Order(body, c + 1) + Order(ss[1..], c + NewBlocks(ss[0]))
      case _ => Order(ss[1..], c)
  }

  // ---------------------------------------------------------------- links of a list

  function Only(link: Link, k: int): seq<int> {
    if link.from == k then [link.to] else []
  }

  lemma OneTarget(x: Link, k: int)
    ensures Targets([x], k) == Only(x, k)
  {
    assert [x][1..] == [];
  }

  lemma TwoTargets(x: Link, y: Link, k: int)
    ensures Targets([x, y], k) == Only(x, k) + Only(y, k)
  {
    OneTarget(y, k);
    assert [x, y][1..] == [y];
  }

  lemma ThreeTargets(x: Link, y: Link, z: Link, k: int)
    ensures Targets([x, y, z], k) == Only(x, k) + Only(y, k) + Only(z, k)
  {
    TwoTargets(y, z, k);
    assert [x, y, z][1..] == [y, z];
  }

  /** Targets that an `if` without `else` gives to block `k`. */
  lemma IfTargets(s: Stmt, c: int, k: int)
    requires s.If? && s.els.NoElse?
    ensures var t, post := c + 1, c + NewBlocks(s);
            Targets(LinksOf(s, c), k) ==
              Targets(LinksIn(s.thn, t), k) + (Only(Link(c, t), k) + Only(Link(t, post), k) + Only(Link(c, post), k))
  {
    var t, post := c + 1, c + NewBlocks(s);
    hide BlocksIn, Targets, Only;
    TargetsAppend(LinksIn(s.thn, t), [Link(c, t), Link(t, post), Link(c, post)], k);
    ThreeTargets(Link(c, t), Link(t, post), Link(c, post), k);
  }

  function ElseStart(s: Stmt, c: int): int
    requires s.If?
  {
    c + 1 + BlocksIn(s.thn) + 1
  }

  lemma ElseTargets(s: Stmt, c: int, k: int)
    requires s.If? && s.els.Else?
    ensures var t, f, post := c + 1, ElseStart(s, c), c + NewBlocks(s);
            Targets(LinksOf(s, c), k) ==
              Targets(LinksIn(s.thn, t), k) + Only(Link(c, t), k)
              + Targets(LinksIn(s.els.body, f), k) + (Only(Link(c, f), k) + Only(Link(f, post), k))
  {
    var t, f, post := c + 1, ElseStart(s, c), c + NewBlocks(s);
    hide BlocksIn, Targets, Only;
    TargetsAppend(LinksIn(s.thn, t) + [Link(c, t)] + LinksIn(s.els.body, f), [Link(c, f), Link(f, post)], k);
    TargetsAppend(LinksIn(s.thn, t) + [Link(c, t)], LinksIn(s.els.body, f), k);
    TargetsAppend(LinksIn(s.thn, t), [Link(c, t)], k);
    OneTarget(Link(c, t), k);
    TwoTargets(Link(c, f), Link(f, post), k);
  }

  lemma LoopTargets(s: Stmt, c: int, k: int)
    requires s.While?
    ensures var b, post := c + 1, c + NewBlocks(s);
            Targets(LinksOf(s, c), k) ==
              Targets(LinksIn(s.body, b), k) + (Only(Link(b, c), k) + Only(Link(c, b), k) + Only(Link(c, post), k))
  {
    var b, post := c + 1, c + NewBlocks(s);
    hide BlocksIn, Targets, Only;
    TargetsAppend(LinksIn(s.body, b), [Link(b, c), Link(c, b), Link(c, post)], k);
    ThreeTargets(Link(b, c), Link(c, b), Link(c, post), k);
  }

  /** Links leave only blocks of the construct itself. */
  lemma {:induction false} LinksOfFrom(s: Stmt, c: int, k: int)
    requires k < c || c + NewBlocks(s) <= k
    ensures Targets(LinksOf(s, c), k) == []
    decreases s
  {
    hide Targets, LinksIn, BlocksIn;
    match s
    case If(_, thn, els) =>
      LinksInFrom(thn, c + 1, k);
      if els.Else? {
        LinksInFrom(els.body, ElseStart(s, c), k);
        ElseTargets(s, c, k);
      } else {
        IfTargets(s, c, k);
      }
    case While(_, body) =>
      LinksInFrom(body, c + 1, k);
      LoopTargets(s, c, k);
    case _ => NoTargets(k);
  }

  lemma NoTargets(k: int)
    ensures Targets([], k) == []
  {
  }

  lemma {:induction false} LinksInFrom(ss: seq<Stmt>, c: int, k: int)
    requires k < c || c + BlocksIn(ss) < k
    ensures Targets(LinksIn(ss, c), k) == []
    decreases ss
  {
    hide NewBlocks, LinksOf;
    if ss != [] {
      LinksOfFrom(ss[0], c, k);
      LinksInFrom(ss[1..], c + NewBlocks(ss[0]), k);
      TargetsAppend(LinksOf(ss[0], c), LinksIn(ss[1..], c + NewBlocks(ss[0])), k);
    }
  }

  /** Successors of block `k` of a list; `ctx`: targets queued later for its first block. */
  ghost predicate WiredAt(blocks: seq<BasicBlock>, ss: seq<Stmt>, c: int, ctx: seq<int>, k: int)
    requires 0 <= k < |blocks|
  {
    Successors(blocks[k]) == FirstTwo(Targets(LinksIn(ss, c), k) + (if k == c then ctx else []))
  }

  ghost predicate Wired(blocks: seq<BasicBlock>, ss: seq<Stmt>, c: int, ctx: seq<int>) {
    && 0 <= c && c + BlocksIn(ss) < |blocks|
    && forall k | c <= k <= c + BlocksIn(ss) :: WiredAt(blocks, ss, c, ctx, k)
  }

  /** Links of the first statement and of the others. */
  lemma ListTargets(ss: seq<Stmt>, c: int, k: int)
    requires ss != []
    ensures Targets(LinksIn(ss, c), k) == Targets(LinksOf(ss[0], c), k) + Targets(LinksIn(ss[1..], c + NewBlocks(ss[0])), k)
    ensures k < c + NewBlocks(ss[0]) ==> Targets(LinksIn(ss[1..], c + NewBlocks(ss[0])), k) == []
  {
    hide LinksOf, NewBlocks, Targets, BlocksIn;
    TargetsAppend(LinksOf(ss[0], c), LinksIn(ss[1..], c + NewBlocks(ss[0])), k);
    if k < c + NewBlocks(ss[0]) {
      LinksInFrom(ss[1..], c + NewBlocks(ss[0]), k);
    }
  }

  lemma WiredSimple(blocks: seq<BasicBlock>, ss: seq<Stmt>, c: int, ctx: seq<int>)
    requires ss != [] && !ss[0].If? && !ss[0].While? && Wired(blocks, ss, c, ctx)
    ensures Wired(blocks, ss[1..], c, ctx)
  {
    assert LinksIn(ss, c) == [] + LinksIn(ss[1..], c) == LinksIn(ss[1..], c);
    assert BlocksIn(ss) == BlocksIn(ss[1..]);
    hide LinksIn, BlocksIn;
    forall k | c <= k <= c + BlocksIn(ss[1..]) ensures WiredAt(blocks, ss[1..], c, ctx, k) {
      assert WiredAt(blocks, ss, c, ctx, k);
    }
  }

  lemma RestAt(blocks: seq<BasicBlock>, ss: seq<Stmt>, c: int, ctx: seq<int>, k: int)
    requires ss != [] && NewBlocks(ss[0]) > 0 && 0 <= c && c + NewBlocks(ss[0]) <= k < |blocks| && WiredAt(blocks, ss, c, ctx, k)
    ensures WiredAt(blocks, ss[1..], c + NewBlocks(ss[0]), [], k)
  {
    hide LinksIn, BlocksIn, LinksOf, Targets, NewBlocks, Successors, FirstTwo;
    var post := c + NewBlocks(ss[0]);
    ListTargets(ss, c, k);
    LinksOfFrom(ss[0], c, k);
    var a := Targets(LinksIn(ss[1..], post), k);
    assert [] + a + [] == a && a + [] == a;
  }

  /** After a construct that adds blocks, the rest of the list starts afresh. */
  lemma WiredRest(blocks: seq<BasicBlock>, ss: seq<Stmt>, c: int, ctx: seq<int>)
    requires ss != [] && NewBlocks(ss[0]) > 0 && Wired(blocks, ss, c, ctx)
    ensures Wired(blocks, ss[1..], c + NewBlocks(ss[0]), [])
  {
    hide NewBlocks, WiredAt;
    var post := c + NewBlocks(ss[0]);
    forall k | post <= k <= post + BlocksIn(ss[1..]) ensures WiredAt(blocks, ss[1..], post, [], k) {
      RestAt(blocks, ss, c, ctx, k);
    }
  }

  /** Successors of a block inside the first statement. */
  lemma InFirst(blocks: seq<BasicBlock>, ss: seq<Stmt>, c: int, ctx: seq<int>, k: int)
    requires ss != [] && Wired(blocks, ss, c, ctx) && c <= k < c + NewBlocks(ss[0])
    ensures Successors(blocks[k]) == FirstTwo(Targets(LinksOf(ss[0], c), k) + (if k == c then ctx else []))
  {
    assert WiredAt(blocks, ss, c, ctx, k);
    ListTargets(ss, c, k);
    hide LinksIn, LinksOf, Targets, NewBlocks;
    assert Targets(LinksOf(ss[0], c), k) + [] == Targets(LinksOf(ss[0], c), k);
  }

  lemma Trimmed(a: seq<int>, b: seq<int>, x: int, y: int)
    ensures a + ([] + [] + []) == a && a + ([] + [x] + []) == a + [x] && a + ([x] + [] + []) == a + [x]
    ensures FirstTwo([] + ([x] + [] + [y]) + b) == [x, y] && FirstTwo([] + ([] + [x] + [y]) + b) == [x, y]
    ensures a + [] == a
  {
  }

  lemma WiredIf(blocks: seq<BasicBlock>, ss: seq<Stmt>, c: int, ctx: seq<int>)
    requires ss != [] && ss[0].If? && ss[0].els.NoElse? && Wired(blocks, ss, c, ctx)
    ensures var post := c + NewBlocks(ss[0]);
            && Successors(blocks[c]) == [c + 1, post]
            && Wired(blocks, ss[0].thn, c + 1, [post])
  {
    var t, post := c + 1, c + NewBlocks(ss[0]);
    assert NewBlocks(ss[0]) == BlocksIn(ss[0].thn) + 2;
    hide Successors, Targets, LinksIn, LinksOf, FirstTwo, NewBlocks, WiredAt;
    forall k | c <= k < post
      ensures k == c ==> Successors(blocks[k]) == [t, post]
      ensures t <= k ==> WiredAt(blocks, ss[0].thn, t, [post], k)
    {
      IfSuccessors(blocks, ss, c, ctx, k);
    }
  }

  lemma IfSuccessors(blocks: seq<BasicBlock>, ss: seq<Stmt>, c: int, ctx: seq<int>, k: int)
    requires ss != [] && ss[0].If? && ss[0].els.NoElse? && c <= k < c + NewBlocks(ss[0]) && Wired(blocks, ss, c, ctx)
    ensures var t, post := c + 1, c + NewBlocks(ss[0]);
            && (k == c ==> Successors(blocks[k]) == [t, post])
            && (c < k ==> WiredAt(blocks, ss[0].thn, t, [post], k))
  {
    hide Wired, Targets, LinksIn, LinksOf, FirstTwo, NewBlocks, BlocksIn, Successors, Only;
    InFirst(blocks, ss, c, ctx, k);
    IfTargets(ss[0], c, k);
    NoneAdded(Targets(LinksOf(ss[0], c), k));
    IfAt(ss[0], c, ctx, k, Targets(LinksOf(ss[0], c), k));
  }

  lemma IfAt(s: Stmt, c: int, ctx: seq<int>, k: int, own: seq<int>)
    requires s.If? && s.els.NoElse? && c <= k < c + NewBlocks(s)
    requires var t, post := c + 1, c + NewBlocks(s);
             own == Targets(LinksIn(s.thn, t), k) + (Only(Link(c, t), k) + Only(Link(t, post), k) + Only(Link(c, post), k))
    ensures var t, post := c + 1, c + NewBlocks(s);
            && (k == c ==> FirstTwo(own + ctx) == [t, post])
            && (c < k ==> own == Targets(LinksIn(s.thn, t), k) + (if k == t then [post] else []))
  {
    var t, post := c + 1, c + NewBlocks(s);
    assert NewBlocks(s) == BlocksIn(s.thn) + 2;
    var x, y, z := Only(Link(c, t), k), Only(Link(t, post), k), Only(Link(c, post), k);
    assert x == (if k == c then [t] else []) && y == (if k == t then [post] else []) && z == (if k == c then [post] else []);
    hide Targets, LinksIn, FirstTwo, NewBlocks, BlocksIn, Only;
    if k == c {
      LinksInFrom(s.thn, t, k);
      Trimmed([], ctx, t, post);
    } else {
      Trimmed(Targets(LinksIn(s.thn, t), k), [], post, post);
    }
  }

  lemma NoneAdded(a: seq<int>)
    ensures a + [] == a
  {
  }

  lemma TrimmedElse(a: seq<int>, b: seq<int>, x: int, y: int)
    ensures FirstTwo([] + [x] + [] + ([y] + []) + b) == [x, y]
    ensures a + [] + [] + ([] + []) == a && [] + [] + a + ([] + [x]) == a + [x] && [] + [] + a + ([] + []) == a
    ensures a + [] == a
  {
  }

  lemma WiredElse(blocks: seq<BasicBlock>, ss: seq<Stmt>, c: int, ctx: seq<int>)
    requires ss != [] && ss[0].If? && ss[0].els.Else? && Wired(blocks, ss, c, ctx)
    ensures var f, post := ElseStart(ss[0], c), c + NewBlocks(ss[0]);
            && Successors(blocks[c]) == [c + 1, f]
            && Wired(blocks, ss[0].thn, c + 1, []) && Wired(blocks, ss[0].els.body, f, [post])
  {
    var s := ss[0];
    var t, f, post := c + 1, ElseStart(s, c), c + NewBlocks(s);
    assert NewBlocks(s) == BlocksIn(s.thn) + 2 + BlocksIn(s.els.body) + 1;
    hide Successors, Targets, LinksIn, LinksOf, FirstTwo, NewBlocks;
    forall k | c <= k < post
      ensures k == c ==> Successors(blocks[k]) == [t, f]
      ensures t <= k < f ==> WiredAt(blocks, s.thn, t, [], k)
      ensures f <= k ==> WiredAt(blocks, s.els.body, f, [post], k)
    {
      ElseSuccessors(blocks, ss, c, ctx, k);
    }
  }

  lemma ElseSuccessors(blocks: seq<BasicBlock>, ss: seq<Stmt>, c: int, ctx: seq<int>, k: int)
    requires ss != [] && ss[0].If? && ss[0].els.Else? && c <= k < c + NewBlocks(ss[0]) && Wired(blocks, ss, c, ctx)
    ensures var f, post := ElseStart(ss[0], c), c + NewBlocks(ss[0]);
            && (k == c ==> Successors(blocks[k]) == [c + 1, f])
            && (c < k < f ==> WiredAt(blocks, ss[0].thn, c + 1, [], k))
            && (f <= k ==> WiredAt(blocks, ss[0].els.body, f, [post], k))
  {
    hide Wired, Targets, LinksIn, LinksOf, FirstTwo, NewBlocks, BlocksIn, Successors, Only;
    InFirst(blocks, ss, c, ctx, k);
    ElseTargets(ss[0], c, k);
    NoneAdded(Targets(LinksOf(ss[0], c), k));
    ElseAt(ss[0], c, ctx, k, Targets(LinksOf(ss[0], c), k));
  }

  /** What the targets of a block of an `if` with `else` come down to. */
  lemma ElseAt(s: Stmt, c: int, ctx: seq<int>, k: int, own: seq<int>)
    requires s.If? && s.els.Else? && c <= k < c + NewBlocks(s)
    requires var t, f, post := c + 1, ElseStart(s, c), c + NewBlocks(s);
             own == Targets(LinksIn(s.thn, t), k) + Only(Link(c, t), k)
                    + Targets(LinksIn(s.els.body, f), k) + (Only(Link(c, f), k) + Only(Link(f, post), k))
    ensures var t, f, post := c + 1, ElseStart(s, c), c + NewBlocks(s);
            && (k == c ==> FirstTwo(own + ctx) == [t, f])
            && (c < k < f ==> own == Targets(LinksIn(s.thn, t), k) + [])
            && (f <= k ==> own == Targets(LinksIn(s.els.body, f), k) + (if k == f then [post] else []))
  {
    var t, f, post := c + 1, ElseStart(s, c), c + NewBlocks(s);
    assert NewBlocks(s) == BlocksIn(s.thn) + 2 + BlocksIn(s.els.body) + 1;
    hide Targets, LinksIn, FirstTwo, NewBlocks;
    if !(t <= k < f) { LinksInFrom(s.thn, t, k); }
    if k < f { LinksInFrom(s.els.body, f, k); }
    TrimmedElse([], ctx, t, f);
    TrimmedElse(Targets(LinksIn(s.thn, t), k), [], t, f);
    TrimmedElse(Targets(LinksIn(s.els.body, f), k), [], post, f);
  }

  lemma WiredLoop(blocks: seq<BasicBlock>, ss: seq<Stmt>, c: int, ctx: seq<int>)
    requires ss != [] && ss[0].While? && Wired(blocks, ss, c, ctx)
    ensures Successors(blocks[c]) == [c + 1, c + NewBlocks(ss[0])] && Wired(blocks, ss[0].body, c + 1, [c])
  {
    var b, post := c + 1, c + NewBlocks(ss[0]);
    assert NewBlocks(ss[0]) == BlocksIn(ss[0].body) + 2;
    hide Successors, Targets, LinksIn, LinksOf, FirstTwo, NewBlocks, WiredAt;
    forall k | c <= k < post
      ensures k == c ==> Successors(blocks[k]) == [b, post]
      ensures b <= k ==> WiredAt(blocks, ss[0].body, b, [c], k)
    {
      LoopSuccessors(blocks, ss, c, ctx, k);
    }
  }

  lemma LoopSuccessors(blocks: seq<BasicBlock>, ss: seq<Stmt>, c: int, ctx: seq<int>, k: int)
    requires ss != [] && ss[0].While? && c <= k < c + NewBlocks(ss[0]) && Wired(blocks, ss, c, ctx)
    ensures var b, post := c + 1, c + NewBlocks(ss[0]);
            && (k == c ==> Successors(blocks[k]) == [b, post])
            && (c < k ==> WiredAt(blocks, ss[0].body, b, [c], k))
  {
    hide Wired, Targets, LinksIn, LinksOf, FirstTwo, NewBlocks, BlocksIn, Successors, Only;
    InFirst(blocks, ss, c, ctx, k);
    LoopTargets(ss[0], c, k);
    NoneAdded(Targets(LinksOf(ss[0], c), k));
    LoopAt(ss[0], c, ctx, k, Targets(LinksOf(ss[0], c), k));
  }

  lemma LoopAt(s: Stmt, c: int, ctx: seq<int>, k: int, own: seq<int>)
    requires s.While? && c <= k < c + NewBlocks(s)
    requires var b, post := c + 1, c + NewBlocks(s);
             own == Targets(LinksIn(s.body, b), k) + (Only(Link(b, c), k) + Only(Link(c, b), k) + Only(Link(c, post), k))
    ensures var b, post := c + 1, c + NewBlocks(s);
            && (k == c ==> FirstTwo(own + ctx) == [b, post])
            && (c < k ==> own == Targets(LinksIn(s.body, b), k) + (if k == b then [c] else []))
  {
    var b, post := c + 1, c + NewBlocks(s);
    assert NewBlocks(s) == BlocksIn(s.body) + 2;
    hide Targets, LinksIn, FirstTwo, NewBlocks, BlocksIn;
    if k == c {
      LinksInFrom(s.body, b, k);
      Trimmed([], ctx, b, post);
    } else {
      Trimmed(Targets(LinksIn(s.body, b), k), [], c, c);
    }
  }

  // ---------------------------------------------------------------- the walk

  lemma Visit(blocks: seq<BasicBlock>, rest: seq<int>, c: int, visited: set<int>)
    requires 0 <= c < |blocks| && c !in visited
    ensures Dfs(blocks, rest + [c], visited) == Prepend([c], Dfs(blocks, rest + Pushed(blocks[c]), visited + {c}))
  {
    var frontier := rest + [c];
    assert frontier[|frontier| - 1] == c && frontier[..|frontier| - 1] == rest;
  }

  lemma Skip(blocks: seq<BasicBlock>, rest: seq<int>, c: int, visited: set<int>)
    requires c in visited
    ensures Dfs(blocks, rest + [c], visited) == Dfs(blocks, rest, visited)
  {
    var frontier := rest + [c];
    assert frontier[|frontier| - 1] == c && frontier[..|frontier| - 1] == rest;
  }

  function IdSet(ids: seq<int>): set<int> {
    set i | i in ids
  }

  lemma IdSetConcat(a: seq<int>, b: seq<int>)
    ensures IdSet(a + b) == IdSet(a) + IdSet(b)
  {
  }

  /** Only blocks of the list are emitted, each at most once and in increasing order. */
  ghost predicate Increasing(ids: seq<int>, lo: int, hi: int) {
    && (forall i | 0 <= i < |ids| :: lo <= ids[i] <= hi)
    && (forall i, j | 0 <= i < j < |ids| :: ids[i] < ids[j])
  }

  lemma IncreasingConcat(a: seq<int>, b: seq<int>, lo: int, mid: int, hi: int)
    requires Increasing(a, lo, mid - 1) && Increasing(b, mid, hi) && lo <= mid <= hi + 1
    ensures Increasing(a + b, lo, hi)
  {
  }

  lemma IncreasingOne(c: int, hi: int)
    requires c <= hi
    ensures Increasing([c], c, hi)
  {
  }

  lemma IncreasingTwo(c: int, a: seq<int>, post: int, b: seq<int>, last: int)
    requires c < post <= last + 1 && Increasing(a, c + 1, post - 1) && Increasing(b, post, last)
    ensures Increasing([c] + a, c, post - 1) && Increasing([c] + a + b, c, last)
  {
    hide Increasing;
    IncreasingOne(c, c);
    IncreasingConcat([c], a, c, c + 1, post - 1);
    IncreasingConcat([c] + a, b, c, post, last);
  }

  lemma IncreasingAny(lo: int, hi: int)
    ensures Increasing([], lo, hi)
  {
  }

  lemma {:induction false} OrderIncreasing(ss: seq<Stmt>, c: int)
    ensures Order(ss, c) != [] && Order(ss, c)[0] == c && Increasing(Order(ss, c), c, c + BlocksIn(ss))
    decreases ss
  {
    hide Increasing;
    if ss == [] {
      IncreasingOne(c, c);
    } else {
      var post := c + NewBlocks(ss[0]);
      OrderIncreasing(ss[1..], post);
      match ss[0]
      case If(_, thn, els) =>
        OrderIncreasing(thn, c + 1);
        if els.Else? {
          OrderIncreasing(els.body, ElseStart(ss[0], c));
        }
        OrderIfIncreasing(ss, c);
      case While(_, body) =>
        OrderIncreasing(body, c + 1);
        hide BlocksIn;
        IncreasingTwo(c, Order(body, c + 1), post, Order(ss[1..], post), post + BlocksIn(ss[1..]));
        OrderLoop(ss, c);
      case _ =>
    }
  }

  lemma OrderLoop(ss: seq<Stmt>, c: int)
    requires ss != [] && ss[0].While?
    ensures BlocksIn(ss) == NewBlocks(ss[0]) + BlocksIn(ss[1..])
    ensures NewBlocks(ss[0]) == BlocksIn(ss[0].body) + 2
    ensures Order(ss, c) == [c] + Order(ss[0].body, c + 1) + Order(ss[1..], c + NewBlocks(ss[0]))
  {
  }

  lemma OrderIfIncreasing(ss: seq<Stmt>, c: int)
    requires ss != [] && ss[0].If?
    requires Increasing(Order(ss[0].thn, c + 1), c + 1, c + 1 + BlocksIn(ss[0].thn))
    requires Increasing(Order(ss[1..], c + NewBlocks(ss[0])), c + NewBlocks(ss[0]), c + NewBlocks(ss[0]) + BlocksIn(ss[1..]))
    requires ss[0].els.Else? ==>
               var f := ElseStart(ss[0], c); Increasing(Order(ss[0].els.body, f), f, f + BlocksIn(ss[0].els.body))
    ensures Order(ss, c) != [] && Order(ss, c)[0] == c && Increasing(Order(ss, c), c, c + BlocksIn(ss))
  {
    hide Increasing;
    var post := c + NewBlocks(ss[0]);
    var last := post + BlocksIn(ss[1..]);
    var a, z := Order(ss[0].thn, c + 1), Order(ss[1..], post);
    if ss[0].els.NoElse? {
      IncreasingTwo(c, a, post, z, last);
    } else {
      var f := ElseStart(ss[0], c);
      var b := Order(ss[0].els.body, f);
      IncreasingTwo(c, a, f, b, post - 1);
      IncreasingConcat([c] + a + b, z, c, post, last);
      IncreasingAny(post, last);
      IncreasingConcat([c] + a + b, [], c, post, last);
    }
  }

  /** Pushed after the list's blocks have been walked. */
  function Pending(ss: seq<Stmt>, ctx: seq<int>): seq<int> {
    if BlocksIn(ss) == 0 then ctx else []
  }

  ghost predicate Walked(blocks: seq<BasicBlock>, from: seq<int>, visited: set<int>, ids: seq<int>, to: seq<int>) {
    Dfs(blocks, from, visited) == Prepend(ids, Dfs(blocks, to, visited + IdSet(ids)))
  }

  lemma WalkedTrans(blocks: seq<BasicBlock>, f0: seq<int>, v: set<int>, a: seq<int>, f1: seq<int>, b: seq<int>, f2: seq<int>)
    requires Walked(blocks, f0, v, a, f1) && Walked(blocks, f1, v + IdSet(a), b, f2)
    ensures Walked(blocks, f0, v, a + b, f2)
  {
    hide Dfs;
    IdSetConcat(a, b);
    assert v + IdSet(a) + IdSet(b) == v + IdSet(a + b);
    PrependTwice(a, b, Dfs(blocks, f2, v + IdSet(a + b)));
  }

  lemma WalkedSkip(blocks: seq<BasicBlock>, f0: seq<int>, v: set<int>, a: seq<int>, rest: seq<int>, c: int)
    requires Walked(blocks, f0, v, a, rest + [c]) && c in v + IdSet(a)
    ensures Walked(blocks, f0, v, a, rest)
  {
    Skip(blocks, rest, c, v + IdSet(a));
  }

  lemma WalkedHead(blocks: seq<BasicBlock>, rest: seq<int>, c: int, visited: set<int>, x: int, y: int)
    requires 0 <= c < |blocks| && c !in visited && Successors(blocks[c]) == [x, y]
    ensures Walked(blocks, rest + [c], visited, [c], rest + [y] + [x])
  {
    Visit(blocks, rest, c, visited);
    assert |Successors(blocks[c])| == 2;
    assert Successors(blocks[c])[0] == x && Successors(blocks[c])[1] == y;
    assert Pushed(blocks[c]) == [y, x];
    assert rest + [y, x] == rest + [y] + [x];
    assert IdSet([c]) == {c};
  }

  lemma WalkedLeaf(blocks: seq<BasicBlock>, rest: seq<int>, c: int, visited: set<int>, ctx: seq<int>)
    requires 0 <= c < |blocks| && c !in visited && Successors(blocks[c]) == ctx && |ctx| <= 1
    ensures Walked(blocks, rest + [c], visited, [c], rest + ctx)
  {
    Visit(blocks, rest, c, visited);
    assert Pushed(blocks[c]) == Successors(blocks[c]);
    assert IdSet([c]) == {c};
  }

  ghost predicate Fresh(lo: int, hi: int, visited: set<int>) {
    forall k | lo <= k <= hi :: k !in visited
  }

  /** The ids walked so far keep out of the blocks that follow. */
  lemma FreshAfter(visited: set<int>, ids: seq<int>, lo: int, mid: int, hi: int)
    requires Fresh(lo, hi, visited) && Increasing(ids, lo, mid - 1) && lo <= mid
    ensures Fresh(mid, hi, visited + IdSet(ids))
  {
  }

  /** The walk of the blocks of a statement list, whatever is on the stack below. */
  ghost predicate ListWalked(blocks: seq<BasicBlock>, ss: seq<Stmt>, c: int, ctx: seq<int>, rest: seq<int>, visited: set<int>) {
    Walked(blocks, rest + [c], visited, Order(ss, c), rest + Pending(ss, ctx))
  }

  ghost predicate ToWalk(blocks: seq<BasicBlock>, ss: seq<Stmt>, c: int, ctx: seq<int>, visited: set<int>) {
    Wired(blocks, ss, c, ctx) && |ctx| <= 1 && Fresh(c, c + BlocksIn(ss), visited)
  }

  lemma {:induction false} WalkList(blocks: seq<BasicBlock>, ss: seq<Stmt>, c: int, ctx: seq<int>, rest: seq<int>, visited: set<int>)
    requires ToWalk(blocks, ss, c, ctx, visited)
    ensures ListWalked(blocks, ss, c, ctx, rest, visited)
    decreases ss, 1
  {
    hide ToWalk, ListWalked;
    if ss == [] {
      WalkNothing(blocks, ss, c, ctx, rest, visited);
    } else {
      match ss[0]
      case If(_, _, els) =>
        if els.NoElse? {
          WalkIf(blocks, ss, c, ctx, rest, visited);
        } else {
          WalkElse(blocks, ss, c, ctx, rest, visited);
        }
      case While(_, _) => WalkLoop(blocks, ss, c, ctx, rest, visited);
      case _ =>
        SimpleToWalk(blocks, ss, c, ctx, visited);
        WalkList(blocks, ss[1..], c, ctx, rest, visited);
        SimpleWalked(blocks, ss, c, ctx, rest, visited);
    }
  }

  lemma WalkNothing(blocks: seq<BasicBlock>, ss: seq<Stmt>, c: int, ctx: seq<int>, rest: seq<int>, visited: set<int>)
    requires ss == [] && ToWalk(blocks, ss, c, ctx, visited)
    ensures ListWalked(blocks, ss, c, ctx, rest, visited)
  {
    assert WiredAt(blocks, ss, c, ctx, c);
    assert [] + ctx == ctx;
    WalkedLeaf(blocks, rest, c, visited, ctx);
  }

  lemma SimpleToWalk(blocks: seq<BasicBlock>, ss: seq<Stmt>, c: int, ctx: seq<int>, visited: set<int>)
    requires ss != [] && !ss[0].If? && !ss[0].While? && ToWalk(blocks, ss, c, ctx, visited)
    ensures ToWalk(blocks, ss[1..], c, ctx, visited)
  {
    assert BlocksIn(ss) == BlocksIn(ss[1..]);
    WiredSimple(blocks, ss, c, ctx);
  }

  lemma SimpleWalked(blocks: seq<BasicBlock>, ss: seq<Stmt>, c: int, ctx: seq<int>, rest: seq<int>, visited: set<int>)
    requires ss != [] && !ss[0].If? && !ss[0].While? && ListWalked(blocks, ss[1..], c, ctx, rest, visited)
    ensures ListWalked(blocks, ss, c, ctx, rest, visited)
  {
    assert BlocksIn(ss) == BlocksIn(ss[1..]) && Order(ss, c) == Order(ss[1..], c);
  }

  lemma IfToWalk(blocks: seq<BasicBlock>, ss: seq<Stmt>, c: int, ctx: seq<int>, rest: seq<int>, visited: set<int>)
    requires ss != [] && ss[0].If? && ss[0].els.NoElse? && ToWalk(blocks, ss, c, ctx, visited)
    ensures var post := c + NewBlocks(ss[0]);
            && Walked(blocks, rest + [c], visited, [c], rest + [post] + [c + 1])
            && ToWalk(blocks, ss[0].thn, c + 1, [post], visited + IdSet([c]))
            && ToWalk(blocks, ss[1..], post, [], visited + IdSet([c] + Order(ss[0].thn, c + 1)))
  {
    var post := c + NewBlocks(ss[0]);
    var t := Order(ss[0].thn, c + 1);
    WiredIf(blocks, ss, c, ctx);
    WiredRest(blocks, ss, c, ctx);
    assert NewBlocks(ss[0]) == BlocksIn(ss[0].thn) + 2 && BlocksIn(ss) == NewBlocks(ss[0]) + BlocksIn(ss[1..]);
    hide Wired, Successors, Order, Increasing, Walked, NewBlocks, BlocksIn;
    WalkedHead(blocks, rest, c, visited, c + 1, post);
    IncreasingOne(c, c);
    OrderIncreasing(ss[0].thn, c + 1);
    IncreasingConcat([c], t, c, c + 1, post - 1);
    FreshAfter(visited, [c], c, c + 1, post - 1);
    FreshAfter(visited, [c] + t, c, post, post + BlocksIn(ss[1..]));
  }

  /** On to the block after a construct, whether or not it is on the stack twice. */
  lemma WalkRest(
    blocks: seq<BasicBlock>, from: seq<int>, visited: set<int>, ids: seq<int>, rest: seq<int>, post: int, tail: seq<Stmt>, extra: seq<int>)
    requires Walked(blocks, from, visited, ids, rest + [post] + extra)
    requires extra == [] || extra == [post] || (|extra| == 1 && extra[0] in visited + IdSet(ids))
    requires extra == [post] ==> ListWalked(blocks, tail, post, [], rest + [post], visited + IdSet(ids))
    requires extra != [post] ==> ListWalked(blocks, tail, post, [], rest, visited + IdSet(ids))
    ensures Walked(blocks, from, visited, ids + Order(tail, post), rest)
  {
    hide Walked;
    OrderIncreasing(tail, post);
    if extra == [post] {
      assert rest + [post] + [] == rest + [post];
      WalkedTrans(blocks, from, visited, ids, rest + [post] + extra, Order(tail, post), rest + [post]);
      InOrder(ids, Order(tail, post));
      WalkedSkip(blocks, from, visited, ids + Order(tail, post), rest, post);
    } else {
      assert rest + [] == rest && rest + [post] + [] == rest + [post];
      if extra != [] {
        assert extra == [extra[0]];
        WalkedSkip(blocks, from, visited, ids, rest + [post], extra[0]);
      }
      WalkedTrans(blocks, from, visited, ids, rest + [post], Order(tail, post), rest);
    }
  }

  lemma InOrder(ids: seq<int>, more: seq<int>)
    requires more != []
    ensures more[0] in IdSet(ids + more)
  {
    assert (ids + more)[|ids|] == more[0];
  }

  lemma {:induction false} WalkIf(blocks: seq<BasicBlock>, ss: seq<Stmt>, c: int, ctx: seq<int>, rest: seq<int>, visited: set<int>)
    requires ss != [] && ss[0].If? && ss[0].els.NoElse? && ToWalk(blocks, ss, c, ctx, visited)
    ensures ListWalked(blocks, ss, c, ctx, rest, visited)
    decreases ss, 0
  {
    hide ToWalk, Walked, Wired;
    var post := c + NewBlocks(ss[0]);
    var t := Order(ss[0].thn, c + 1);
    IfToWalk(blocks, ss, c, ctx, rest, visited);
    WalkList(blocks, ss[0].thn, c + 1, [post], rest + [post], visited + IdSet([c]));
    WalkedTrans(blocks, rest + [c], visited, [c], rest + [post] + [c + 1], t, rest + [post] + Pending(ss[0].thn, [post]));
    var seen := visited + IdSet([c] + t);
    WalkList(blocks, ss[1..], post, [], rest, seen);
    WalkList(blocks, ss[1..], post, [], rest + [post], seen);
    WalkRest(blocks, rest + [c], visited, [c] + t, rest, post, ss[1..], Pending(ss[0].thn, [post]));
    assert rest + [] == rest;
  }

  lemma LoopToWalk(blocks: seq<BasicBlock>, ss: seq<Stmt>, c: int, ctx: seq<int>, rest: seq<int>, visited: set<int>)
    requires ss != [] && ss[0].While? && ToWalk(blocks, ss, c, ctx, visited)
    ensures var post := c + NewBlocks(ss[0]);
            && Walked(blocks, rest + [c], visited, [c], rest + [post] + [c + 1])
            && ToWalk(blocks, ss[0].body, c + 1, [c], visited + IdSet([c]))
            && ToWalk(blocks, ss[1..], post, [], visited + IdSet([c] + Order(ss[0].body, c + 1)))
  {
    var post := c + NewBlocks(ss[0]);
    var b := Order(ss[0].body, c + 1);
    WiredLoop(blocks, ss, c, ctx);
    WiredRest(blocks, ss, c, ctx);
    assert NewBlocks(ss[0]) == BlocksIn(ss[0].body) + 2 && BlocksIn(ss) == NewBlocks(ss[0]) + BlocksIn(ss[1..]);
    hide Wired, Successors, Order, Increasing, Walked, NewBlocks, BlocksIn;
    WalkedHead(blocks, rest, c, visited, c + 1, post);
    IncreasingOne(c, c);
    OrderIncreasing(ss[0].body, c + 1);
    IncreasingConcat([c], b, c, c + 1, post - 1);
    FreshAfter(visited, [c], c, c + 1, post - 1);
    FreshAfter(visited, [c] + b, c, post, post + BlocksIn(ss[1..]));
  }

  lemma {:induction false} WalkLoop(blocks: seq<BasicBlock>, ss: seq<Stmt>, c: int, ctx: seq<int>, rest: seq<int>, visited: set<int>)
    requires ss != [] && ss[0].While? && ToWalk(blocks, ss, c, ctx, visited)
    ensures ListWalked(blocks, ss, c, ctx, rest, visited)
    decreases ss, 0
  {
    hide ToWalk, Walked, Wired;
    var post := c + NewBlocks(ss[0]);
    var b := Order(ss[0].body, c + 1);
    LoopToWalk(blocks, ss, c, ctx, rest, visited);
    WalkList(blocks, ss[0].body, c + 1, [c], rest + [post], visited + IdSet([c]));
    WalkedTrans(blocks, rest + [c], visited, [c], rest + [post] + [c + 1], b, rest + [post] + Pending(ss[0].body, [c]));
    var seen := visited + IdSet([c] + b);
    InOrder([], [c] + b);
    assert [] + ([c] + b) == [c] + b;
    WalkList(blocks, ss[1..], post, [], rest, seen);
    WalkRest(blocks, rest + [c], visited, [c] + b, rest, post, ss[1..], Pending(ss[0].body, [c]));
    assert rest + [] == rest;
  }

  lemma ElseToWalk(blocks: seq<BasicBlock>, ss: seq<Stmt>, c: int, ctx: seq<int>, rest: seq<int>, visited: set<int>)
    requires ss != [] && ss[0].If? && ss[0].els.Else? && ToWalk(blocks, ss, c, ctx, visited)
    ensures var f, post := ElseStart(ss[0], c), c + NewBlocks(ss[0]);
            var t, e := Order(ss[0].thn, c + 1), Order(ss[0].els.body, f);
            && Walked(blocks, rest + [c], visited, [c], rest + [f] + [c + 1])
            && ToWalk(blocks, ss[0].thn, c + 1, [], visited + IdSet([c]))
            && ToWalk(blocks, ss[0].els.body, f, [post], visited + IdSet([c] + t))
            && ToWalk(blocks, ss[1..], post, [], visited + IdSet([c] + t + e))
  {
    var f, post := ElseStart(ss[0], c), c + NewBlocks(ss[0]);
    var t, e := Order(ss[0].thn, c + 1), Order(ss[0].els.body, f);
    WiredElse(blocks, ss, c, ctx);
    WiredRest(blocks, ss, c, ctx);
    assert NewBlocks(ss[0]) == BlocksIn(ss[0].thn) + 2 + BlocksIn(ss[0].els.body) + 1;
    assert BlocksIn(ss) == NewBlocks(ss[0]) + BlocksIn(ss[1..]);
    hide Wired, Successors, Order, Increasing, Walked, NewBlocks, BlocksIn;
    WalkedHead(blocks, rest, c, visited, c + 1, f);
    IncreasingOne(c, c);
    OrderIncreasing(ss[0].thn, c + 1);
    OrderIncreasing(ss[0].els.body, f);
    IncreasingConcat([c], t, c, c + 1, f - 1);
    IncreasingConcat([c] + t, e, c, f, post - 1);
    FreshAfter(visited, [c], c, c + 1, f - 1);
    FreshAfter(visited, [c] + t, c, f, post - 1);
    FreshAfter(visited, [c] + t + e, c, post, post + BlocksIn(ss[1..]));
  }

  lemma {:induction false} WalkElse(blocks: seq<BasicBlock>, ss: seq<Stmt>, c: int, ctx: seq<int>, rest: seq<int>, visited: set<int>)
    requires ss != [] && ss[0].If? && ss[0].els.Else? && ToWalk(blocks, ss, c, ctx, visited)
    ensures ListWalked(blocks, ss, c, ctx, rest, visited)
    decreases ss, 0
  {
    hide ToWalk, Walked, Wired;
    var f, post := ElseStart(ss[0], c), c + NewBlocks(ss[0]);
    var t, e := Order(ss[0].thn, c + 1), Order(ss[0].els.body, f);
    ElseToWalk(blocks, ss, c, ctx, rest, visited);
    WalkList(blocks, ss[0].thn, c + 1, [], rest + [f], visited + IdSet([c]));
    assert rest + [f] + [] == rest + [f];
    WalkedTrans(blocks, rest + [c], visited, [c], rest + [f] + [c + 1], t, rest + [f]);
    WalkList(blocks, ss[0].els.body, f, [post], rest, visited + IdSet([c] + t));
    var pend := Pending(ss[0].els.body, [post]);
    WalkedTrans(blocks, rest + [c], visited, [c] + t, rest + [f], e, rest + pend);
    assert rest + [] == rest;
    if pend == [post] {
      var seen := visited + IdSet([c] + t + e);
      WalkList(blocks, ss[1..], post, [], rest, seen);
      WalkedTrans(blocks, rest + [c], visited, [c] + t + e, rest + [post], Order(ss[1..], post), rest);
    } else {
      assert [c] + t + e + [] == [c] + t + e;
    }
  }

  // ---------------------------------------------------------------- all blocks, in order

  lemma {:induction false} StraightHasNoBlocks(ss: seq<Stmt>)
    ensures Straight(ss) <==> BlocksIn(ss) == 0
    ensures Straight(ss) ==> ElsesFlat(ss)
  {
    if ss != [] {
      StraightHasNoBlocks(ss[1..]);
    }
  }

  ghost predicate LengthFits(ss: seq<Stmt>, c: int) {
    |Order(ss, c)| <= BlocksIn(ss) + 1 && (|Order(ss, c)| == BlocksIn(ss) + 1 <==> ElsesFlat(ss))
  }

  lemma OrderLengthIf(ss: seq<Stmt>, c: int)
    requires ss != [] && ss[0].If? && LengthFits(ss[0].thn, c + 1) && LengthFits(ss[1..], c + NewBlocks(ss[0]))
    requires var els := ss[0].els;
             els.Else? ==> LengthFits(els.body, ElseStart(ss[0], c))
    ensures LengthFits(ss, c)
  {
    assert ElsesFlat(ss) == (ElseFlat(ss[0]) && ElsesFlat(ss[1..]));
    var a, z := |Order(ss[0].thn, c + 1)|, |Order(ss[1..], c + NewBlocks(ss[0]))|;
    if ss[0].els.NoElse? {
      assert |Order(ss, c)| == 1 + a + z && BlocksIn(ss) == BlocksIn(ss[0].thn) + 2 + BlocksIn(ss[1..]);
    } else {
      StraightHasNoBlocks(ss[0].els.body);
      var e := |Order(ss[0].els.body, ElseStart(ss[0], c))|;
      assert BlocksIn(ss) == BlocksIn(ss[0].thn) + 2 + BlocksIn(ss[0].els.body) + 1 + BlocksIn(ss[1..]);
      assert |Order(ss, c)| == 1 + a + e + (if BlocksIn(ss[0].els.body) == 0 then z else 0);
    }
  }

  /** No block is lost exactly if no `else` body has an `if` or `while` of its own. */
  lemma {:induction false} OrderLength(ss: seq<Stmt>, c: int)
    ensures LengthFits(ss, c)
    decreases ss
  {
    if ss != [] {
      OrderLength(ss[1..], c + NewBlocks(ss[0]));
      match ss[0]
      case If(_, thn, els) =>
        OrderLength(thn, c + 1);
        if els.Else? {
          OrderLength(els.body, ElseStart(ss[0], c));
        }
        OrderLengthIf(ss, c);
      case While(_, body) => OrderLength(body, c + 1);
      case _ =>
    }
  }

  function Range(lo: int, count: nat): (r: seq<int>)
    ensures |r| == count && forall i | 0 <= i < count :: r[i] == lo + i
  {
    seq(count, i => lo + i)
  }

  /** Increasing ids that leave no room are all ids. */
  lemma {:induction false} IncreasingFull(ids: seq<int>, lo: int, hi: int)
    requires Increasing(ids, lo, hi) && |ids| == hi - lo + 1
    ensures ids == Range(lo, |ids|)
    decreases |ids|
  {
    if ids != [] {
      var init := ids[..|ids| - 1];
      assert forall i | 0 <= i < |init| :: init[i] == ids[i] && ids[i] < ids[|ids| - 1];
      if ids[|ids| - 1] < hi || |init| == 0 {
        IncreasingBound(ids, lo, ids[|ids| - 1]);
      } else {
        IncreasingFull(init, lo, hi - 1);
      }
      IncreasingBound(init, lo, hi - 1);
      assert ids == init + [hi];
    }
  }

  lemma {:induction false} IncreasingBound(ids: seq<int>, lo: int, hi: int)
    requires Increasing(ids, lo, hi)
    ensures |ids| <= if hi < lo then 0 else hi - lo + 1
    decreases |ids|
  {
    if ids != [] {
      var init := ids[..|ids| - 1];
      assert forall i | 0 <= i < |init| :: init[i] == ids[i] && ids[i] < ids[|ids| - 1];
      IncreasingBound(init, lo, ids[|ids| - 1] - 1);
    }
  }

  /** The blocks of a function body with their links applied. */
  ghost predicate BodyGraph(blocks: seq<BasicBlock>, ss: seq<Stmt>) {
    && |blocks| == BlocksIn(ss) + 1
    && forall k | 0 <= k < |blocks| :: Successors(blocks[k]) == FirstTwo(Targets(LinksIn(ss, 0), k))
  }

  lemma BodyToWalk(blocks: seq<BasicBlock>, ss: seq<Stmt>)
    requires BodyGraph(blocks, ss)
    ensures ToWalk(blocks, ss, 0, [], {}) && |blocks| == BlocksIn(ss) + 1
  {
    hide LinksIn, Successors, Targets, FirstTwo;
    forall k | 0 <= k <= BlocksIn(ss) ensures WiredAt(blocks, ss, 0, [], k) {
      NoneAdded(Targets(LinksIn(ss, 0), k));
    }
  }

  lemma BodyWalked(blocks: seq<BasicBlock>, ss: seq<Stmt>)
    requires ListWalked(blocks, ss, 0, [], [], {})
    ensures Dfs(blocks, [0], {}) == Some(Order(ss, 0))
  {
    hide Order;
    assert [] + [0] == [0];
    assert Order(ss, 0) + [] == Order(ss, 0);
  }

  /** Increasing ids from 0 are all ids exactly if there are enough of them. */
  lemma FullExactly(ids: seq<int>, count: nat)
    requires Increasing(ids, 0, count - 1)
    ensures ids == Range(0, count) <==> |ids| == count
  {
    if |ids| == count {
      IncreasingFull(ids, 0, count - 1);
    }
  }

  /** Emission starts at the entry block and goes through the blocks in creation order; it
      reaches every block, each exactly once, if and only if no `else` body has an `if` or
      `while` of its own. */
  lemma EmissionOrder(blocks: seq<BasicBlock>, ss: seq<Stmt>)
    requires BodyGraph(blocks, ss)
    ensures Dfs(blocks, [0], {}) == Some(Order(ss, 0))
    ensures Increasing(Order(ss, 0), 0, |blocks| - 1)
    ensures Dfs(blocks, [0], {}) == Some(Range(0, |blocks|)) <==> ElsesFlat(ss)
  {
    hide Order, Dfs, Increasing, BodyGraph, ToWalk, ListWalked, ElsesFlat, BlocksIn, Range;
    BodyToWalk(blocks, ss);
    WalkList(blocks, ss, 0, [], [], {});
    BodyWalked(blocks, ss);
    OrderIncreasing(ss, 0);
    OrderLength(ss, 0);
    FullExactly(Order(ss, 0), |blocks|);
  }

  lemma OrderElse(ss: seq<Stmt>, c: int)
    requires ss != [] && ss[0].If? && ss[0].els.Else? && !Straight(ss[0].els.body)
    ensures Order(ss, c) == [c] + Order(ss[0].thn, c + 1) + Order(ss[0].els.body, ElseStart(ss[0], c))
    ensures c + NewBlocks(ss[0]) == ElseStart(ss[0], c) + BlocksIn(ss[0].els.body) + 1
    ensures ElseStart(ss[0], c) == c + 1 + BlocksIn(ss[0].thn) + 1
  {
    StraightHasNoBlocks(ss[0].els.body);
    hide Straight;
    var front := [c] + Order(ss[0].thn, c + 1) + Order(ss[0].els.body, ElseStart(ss[0], c));
    assert Order(ss, c) == front + [] == front;
  }

  /** Nothing after an `else` body with blocks of its own is emitted. */
  lemma TailDropped(ss: seq<Stmt>, c: int, k: int)
    requires ss != [] && ss[0].If? && ss[0].els.Else? && !Straight(ss[0].els.body) && k >= c + NewBlocks(ss[0])
    ensures k !in Order(ss, c)
  {
    hide Order, NewBlocks, BlocksIn, Straight;
    OrderElse(ss, c);
    OrderIncreasing(ss[0].thn, c + 1);
    OrderIncreasing(ss[0].els.body, ElseStart(ss[0], c));
  }
}
