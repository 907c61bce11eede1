/** The object graph of a nested sequence literal, given directly: one object per sequence
    node, in preorder, and its construction by the source semantics and by the machine. */
module SequenceGraph {
  import opened Values
  import opened Syntax
  import opened Semantics
  import opened ExprLowering
  import opened Compositional
  import opened SimulationBase
  import S = Simulation
  import Ir
  import M = Machine

  /** A literal of any depth whose leaves are constants and defined variables. */
  predicate IsData(e: Expr, env: Env) {
    match e
    case Literal(kind, lexeme) => kind == TkIdent ==> lexeme in env
    case Sequence(items, _) => AreData(items, env)
    case _ => false
  }

  predicate AreData(items: seq<Expr>, env: Env) {
    items == [] || (IsData(items[0], env) && AreData(items[1..], env))
  }

  function Nodes(e: Expr): nat {
    match e
    case Sequence(items, _) => 1 + NodesIn(items)
    case _ => 0
  }

  function NodesIn(items: seq<Expr>): nat {
    if items == [] then 0 else Nodes(items[0]) + NodesIn(items[1..])
  }

  /** The value of a literal whose first object gets id `base`. */
  function ValueOf(e: Expr, env: Env, base: nat): Value
    requires IsData(e, env)
  {
    match e
    case Literal(kind, lexeme) => if kind == TkIdent then env[lexeme] else LiteralValue(kind, lexeme)
    case Sequence(_, _) => Obj(base)
  }

  /** The items of one object; the objects of an item follow those of the items before it. */
  function ItemValues(items: seq<Expr>, env: Env, base: nat): (r: seq<Value>)
    requires AreData(items, env)
    ensures |r| == |items|
  {
    if items == [] then []
    else [ValueOf(items[0], env, base)] + ItemValues(items[1..], env, base + Nodes(items[0]))
  }

  /** The objects of a literal, in id order. */
  function GraphOf(e: Expr, env: Env, base: nat): (r: Heap)
    requires IsData(e, env)
    ensures |r| == Nodes(e)
  {
    match e
    case Literal(_, _) => []
    case Sequence(items, isTuple) =>
      [SeqObj(ItemValues(items, env, base + 1), isTuple)] + GraphsOf(items, env, base + 1)
  }

  function GraphsOf(items: seq<Expr>, env: Env, base: nat): (r: Heap)
    requires AreData(items, env)
    ensures |r| == NodesIn(items)
  {
    if items == [] then []
    else GraphOf(items[0], env, base) + GraphsOf(items[1..], env, base + Nodes(items[0]))
  }

  /** Evaluating a literal appends its graph to the heap and changes no earlier object. */
  lemma {:induction false} LiteralBuilds(fs: seq<Fun>, e: Expr, env: Env, heap: Heap, fuel: nat)
    requires IsData(e, env)
    ensures Eval(fs, e, env, heap, fuel) == Val(ValueOf(e, env, |heap|), heap + GraphOf(e, env, |heap|))
    decreases e
  {
    hide EvalItems, ItemValues, GraphsOf, AreData, FreezeIf, PushItem;
    match e
    case Literal(_, _) => assert heap + [] == heap;
    case Sequence(items, isTuple) =>
      var id := |heap|;
      ItemsBuild(fs, items, id, env, heap, [], [], fuel);
      var vs, more := ItemValues(items, env, id + 1), GraphsOf(items, env, id + 1);
      assert heap + [SeqObj([], false)] + [] == heap + [SeqObj([], false)];
      assert [] + vs == vs && [] + more == more;
      Froze(heap, vs, more, isTuple);
  }

  lemma Froze(front: Heap, vs: seq<Value>, back: Heap, isTuple: bool)
    ensures FreezeIf(front + [SeqObj(vs, false)] + back, |front|, isTuple) == front + ([SeqObj(vs, isTuple)] + back)
  {
    var heap := front + [SeqObj(vs, false)] + back;
    assert heap[|front|] == SeqObj(vs, false);
  }

  lemma Pushed(front: Heap, vs: seq<Value>, back: Heap, more: Heap, v: Value)
    ensures PushItem(front + [SeqObj(vs, false)] + back + more, |front|, v) == front + [SeqObj(vs + [v], false)] + (back + more)
  {
    var heap := front + [SeqObj(vs, false)] + back + more;
    assert heap[|front|] == SeqObj(vs, false);
  }

  lemma NextItem(fs: seq<Fun>, items: seq<Expr>, id: nat, env: Env, heap: Heap, v: Value, h: Heap, fuel: nat)
    requires items != [] && Eval(fs, items[0], env, heap, fuel) == Val(v, h)
    ensures EvalItems(fs, items, id, env, heap, fuel) == EvalItems(fs, items[1..], id, env, PushItem(h, id, v), fuel)
  {
    hide Eval, PushItem;
  }

  lemma NoItems(fs: seq<Fun>, id: nat, env: Env, heap: Heap, fuel: nat, base: nat)
    ensures EvalItems(fs, [], id, env, heap, fuel) == Val(Obj(id), heap)
    ensures ItemValues([], env, base) == [] && GraphsOf([], env, base) == []
  {
  }

  lemma Unfolded(items: seq<Expr>, env: Env, base: nat)
    requires items != [] && AreData(items, env)
    ensures IsData(items[0], env) && AreData(items[1..], env)
    ensures var next := base + Nodes(items[0]);
            && ItemValues(items, env, base) == [ValueOf(items[0], env, base)] + ItemValues(items[1..], env, next)
            && GraphsOf(items, env, base) == GraphOf(items[0], env, base) + GraphsOf(items[1..], env, next)
  {
  }

  /** The items are appended to the open object between `front` and `back`. */
  lemma {:induction false} ItemsBuild(
    fs: seq<Fun>, items: seq<Expr>, id: nat, env: Env, front: Heap, vs: seq<Value>, back: Heap, fuel: nat)
    requires AreData(items, env) && id == |front|
    ensures var base := id + 1 + |back|;
            EvalItems(fs, items, id, env, front + [SeqObj(vs, false)] + back, fuel) ==
              Val(Obj(id), front + [SeqObj(vs + ItemValues(items, env, base), false)] + (back + GraphsOf(items, env, base)))
    decreases items
  {
    hide Eval, EvalItems, PushItem, IsData, ValueOf, GraphOf, ItemValues, GraphsOf, AreData, Nodes;
    var heap := front + [SeqObj(vs, false)] + back;
    var base := |heap|;
    if items == [] {
      NoItems(fs, id, env, heap, fuel, base);
      assert vs + [] == vs && back + [] == back;
    } else {
      Unfolded(items, env, base);
      LiteralBuilds(fs, items[0], env, heap, fuel);
      var v, g := ValueOf(items[0], env, base), GraphOf(items[0], env, base);
      NextItem(fs, items, id, env, heap, v, heap + g, fuel);
      Pushed(front, vs, back, g, v);
      ItemsBuild(fs, items[1..], id, env, front, vs + [v], back + g, fuel);
      var next := base + Nodes(items[0]);
      assert vs + [v] + ItemValues(items[1..], env, next) == vs + ([v] + ItemValues(items[1..], env, next));
      assert back + g + GraphsOf(items[1..], env, next) == back + (g + GraphsOf(items[1..], env, next));
    }
  }

  /** Variables refer to objects below `lo` only: to those that existed before. */
  ghost predicate Older(env: Env, lo: nat) {
    forall x | x in env && env[x].Obj? :: env[x].id < lo
  }

  /** Item `j` of the `k`-th object of a graph refers to the object `m`. */
  predicate Refers(g: Heap, k: int, j: int, m: nat) {
    0 <= k < |g| && 0 <= j < |g[k].items| && g[k].items[j] == Obj(m)
  }

  predicate ItemRefers(vs: seq<Value>, j: int, m: nat) {
    0 <= j < |vs| && vs[j] == Obj(m)
  }

  /** References to new objects go forward and stay inside; no two lead to the same object. */
  ghost predicate TreeLike(g: Heap, base: nat, lo: nat) {
    && (forall k, j, m: nat | Refers(g, k, j, m) && m >= lo :: base + k < m < base + |g|)
    && (forall k, j, k', j', m: nat | Refers(g, k, j, m) && Refers(g, k', j', m) && m >= lo :: k == k' && j == j')
  }

  /** The same for the items of one object and the graphs of these items. */
  ghost predicate ForestLike(vs: seq<Value>, g: Heap, base: nat, lo: nat) {
    && TreeLike(g, base, lo)
    && (forall j, m: nat | ItemRefers(vs, j, m) && m >= lo :: base <= m < base + |g|)
    && (forall j, j', m: nat | ItemRefers(vs, j, m) && ItemRefers(vs, j', m) && m >= lo :: j == j')
    && (forall i, k, j, m: nat | ItemRefers(vs, i, m) && Refers(g, k, j, m) :: m < lo)
  }

  /** Every object but the first is referred to by an object of the graph. */
  ghost predicate Connected(g: Heap, base: nat) {
    forall m: nat | base < m < base + |g| :: Owned(g, m)
  }

  ghost predicate Owned(g: Heap, m: nat) {
    exists k, j :: Refers(g, k, j, m)
  }

  ghost predicate ForestConnected(vs: seq<Value>, g: Heap, base: nat) {
    forall m: nat | base <= m < base + |g| :: Owned(g, m) || exists j :: ItemRefers(vs, j, m)
  }

  /** Whatever the variables refer to, the new objects of a literal form a tree: every object
      but the first is referred to from exactly one item position of the new objects, of an
      earlier object. There is no sharing among them and no cycle. */
  lemma {:induction false} LiteralIsTree(e: Expr, env: Env, base: nat, lo: nat)
    requires IsData(e, env) && Older(env, lo) && lo <= base
    ensures TreeLike(GraphOf(e, env, base), base, lo) && Connected(GraphOf(e, env, base), base)
    decreases e
  {
    match e
    case Literal(_, _) =>
    case Sequence(items, isTuple) =>
      hide ItemValues, GraphsOf, AreData, IsData, Older;
      ItemsAreForest(items, env, base + 1, lo);
      Rooted(ItemValues(items, env, base + 1), GraphsOf(items, env, base + 1), isTuple, base, lo);
  }

  lemma Rooted(vs: seq<Value>, g: Heap, isTuple: bool, base: nat, lo: nat)
    requires ForestLike(vs, g, base + 1, lo) && ForestConnected(vs, g, base + 1)
    ensures TreeLike([SeqObj(vs, isTuple)] + g, base, lo) && Connected([SeqObj(vs, isTuple)] + g, base)
  {
    var all := [SeqObj(vs, isTuple)] + g;
    assert forall k, j, m: nat :: Refers(all, k, j, m) <==> (if k == 0 then ItemRefers(vs, j, m) else Refers(g, k - 1, j, m));
    RootedConnected(vs, g, isTuple, base);
  }

  lemma RootedConnected(vs: seq<Value>, g: Heap, isTuple: bool, base: nat)
    requires ForestConnected(vs, g, base + 1)
    ensures Connected([SeqObj(vs, isTuple)] + g, base)
  {
    var all := [SeqObj(vs, isTuple)] + g;
    forall m: nat | base < m < base + |all| ensures Owned(all, m) {
      if Owned(g, m) {
        var k, j :| Refers(g, k, j, m);
        assert Refers(all, k + 1, j, m);
      } else {
        var j :| ItemRefers(vs, j, m);
        assert Refers(all, 0, j, m);
      }
    }
  }

  lemma {:induction false} ItemsAreForest(items: seq<Expr>, env: Env, base: nat, lo: nat)
    requires AreData(items, env) && Older(env, lo) && lo <= base
    ensures ForestLike(ItemValues(items, env, base), GraphsOf(items, env, base), base, lo)
    ensures ForestConnected(ItemValues(items, env, base), GraphsOf(items, env, base), base)
    decreases items
  {
    hide *;
    if items == [] {
      NoForest(env, base, lo);
    } else {
      Unfolded(items, env, base);
      LiteralIsTree(items[0], env, base, lo);
      RootValue(items[0], env, base, lo);
      var next := base + Nodes(items[0]);
      ItemsAreForest(items[1..], env, next, lo);
      Planted(ValueOf(items[0], env, base), GraphOf(items[0], env, base),
              ItemValues(items[1..], env, next), GraphsOf(items[1..], env, next), base, lo);
    }
  }

  lemma NoForest(env: Env, base: nat, lo: nat)
    ensures ForestLike(ItemValues([], env, base), GraphsOf([], env, base), base, lo)
    ensures ForestConnected(ItemValues([], env, base), GraphsOf([], env, base), base)
  {
  }

  /** A nested literal's value is its first object; any other value refers to older objects. */
  lemma RootValue(e: Expr, env: Env, base: nat, lo: nat)
    requires IsData(e, env) && Older(env, lo)
    ensures var v := ValueOf(e, env, base);
            if e.Sequence? then v == Obj(base) && |GraphOf(e, env, base)| > 0
            else |GraphOf(e, env, base)| == 0 && (v.Obj? ==> v.id < lo)
  {
  }

  /** One more item in front of a forest. */
  lemma Planted(v: Value, g: Heap, vs: seq<Value>, gs: Heap, base: nat, lo: nat)
    requires TreeLike(g, base, lo) && Connected(g, base) && lo <= base
    requires if |g| > 0 then v == Obj(base) else v.Obj? ==> v.id < lo
    requires ForestLike(vs, gs, base + |g|, lo) && ForestConnected(vs, gs, base + |g|)
    ensures ForestLike([v] + vs, g + gs, base, lo) && ForestConnected([v] + vs, g + gs, base)
  {
    hide ForestConnected, Connected;
    assert forall k, j, m: nat :: Refers(g + gs, k, j, m) <==> (if k < |g| then Refers(g, k, j, m) else Refers(gs, k - |g|, j, m));
    assert forall j, m: nat :: ItemRefers([v] + vs, j, m) <==> (if j == 0 then v == Obj(m) else ItemRefers(vs, j - 1, m));
    PlantedTree(g, gs, vs, base, lo);
    PlantedConnected(v, g, vs, gs, base);
  }

  lemma PlantedTree(g: Heap, gs: Heap, vs: seq<Value>, base: nat, lo: nat)
    requires TreeLike(g, base, lo) && ForestLike(vs, gs, base + |g|, lo)
    ensures TreeLike(g + gs, base, lo)
  {
    assert forall k, j, m: nat :: Refers(g + gs, k, j, m) <==> (if k < |g| then Refers(g, k, j, m) else Refers(gs, k - |g|, j, m));
  }

  lemma PlantedConnected(v: Value, g: Heap, vs: seq<Value>, gs: Heap, base: nat)
    requires Connected(g, base) && (|g| > 0 ==> v == Obj(base)) && ForestConnected(vs, gs, base + |g|)
    ensures ForestConnected([v] + vs, g + gs, base)
  {
    var all := g + gs;
    forall m: nat | base <= m < base + |all| ensures Owned(all, m) || exists j :: ItemRefers([v] + vs, j, m) {
      if m == base && |g| > 0 {
        assert ItemRefers([v] + vs, 0, m);
      } else if m < base + |g| {
        assert Owned(g, m);
        var k, j :| Refers(g, k, j, m);
        assert Refers(all, k, j, m);
      } else if Owned(gs, m) {
        var k, j :| Refers(gs, k, j, m);
        assert Refers(all, k + |g|, j, m);
      } else {
        var j :| ItemRefers(vs, j, m);
        assert ItemRefers([v] + vs, j + 1, m);
      }
    }
  }

  /** The compiled literal builds the same graph on the machine's heap: new objects only, in
      preorder, frozen exactly where the literal is a tuple, and nothing else changes. */
  lemma MachineBuilds(l: Linked, s: M.State, e: Expr, nm: Names, pool: Pool, env: Env, n: nat, lim: nat) returns (k: nat)
    requires S.ExprReady(l, s, e, nm, pool, env, n, lim) && IsData(e, env)
    ensures var t := M.Steps(l.code, s, k);
            var r := LowerExpr(nm, e, pool, n);
            && t == M.State(s.fn, s.ip + |TranslateAll(r.steps)|, s.rbp, t.rft, t.mem, t.heap, s.frames, M.Ok)
            && t.heap == s.heap + GraphOf(e, env, |s.heap|)
            && M.Fetch(l.code, t, Translate(Result(r))) == M.Found(ValueOf(e, env, |s.heap|))
            && forall i | i < s.rbp + n :: M.Read(t.mem, i) == M.Read(s.mem, i)
  {
    hide S.ExprReady, LowerExpr, TranslateAll, Result, M.Steps;
    k := S.SimulateExpr(l, s, e, nm, pool, env, n, lim, 0);
    LiteralBuilds(l.sg.fs, e, env, s.heap, 0);
  }
}
