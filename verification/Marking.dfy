/** Which heap objects a collection must keep (src/runtime/vm.cpp:178-211). */
module Marking {
  import opened Values

  /** Object `b` is an item of object `a`. */
  ghost predicate Edge(heap: Heap, a: nat, b: nat) {
    a < |heap| && exists k :: 0 <= k < |heap[a].items| && heap[a].items[k] == Obj(b)
  }

  ghost predicate Path(heap: Heap, path: seq<nat>) {
    path != [] && forall i | 0 <= i < |path| - 1 :: Edge(heap, path[i], path[i + 1])
  }

  /** There is a path of items from a root to the object. */
  ghost predicate Reachable(heap: Heap, roots: set<nat>, id: nat) {
    exists path: seq<nat> :: Path(heap, path) && path[0] in roots && path[|path| - 1] == id
  }

  lemma RootReachable(heap: Heap, roots: set<nat>, id: nat)
    requires id in roots
    ensures Reachable(heap, roots, id)
  {
    assert Path(heap, [id]) && [id][0] in roots && [id][|[id]| - 1] == id;
  }

  lemma StepReachable(heap: Heap, roots: set<nat>, a: nat, b: nat)
    requires Reachable(heap, roots, a) && Edge(heap, a, b)
    ensures Reachable(heap, roots, b)
  {
    var path: seq<nat> :| Path(heap, path) && path[0] in roots && path[|path| - 1] == a;
    var longer := path + [b];
    assert Path(heap, longer) && longer[0] in roots && longer[|longer| - 1] == b;
  }

  /** A set that holds the roots and is closed under items holds all that is reachable. */
  lemma {:induction false} ClosedHoldsPath(heap: Heap, closed: set<nat>, path: seq<nat>)
    requires Path(heap, path) && path[0] in closed
    requires forall a: nat, b: nat | a in closed && Edge(heap, a, b) :: b in closed
    ensures path[|path| - 1] in closed
    decreases |path|
  {
    if |path| > 1 {
      assert Edge(heap, path[0], path[1]);
      ClosedHoldsPath(heap, closed, path[1..]);
    }
  }

  lemma ClosedHoldsReachable(heap: Heap, roots: set<nat>, closed: set<nat>)
    requires roots <= closed && forall a: nat, b: nat | a in closed && Edge(heap, a, b) :: b in closed
    ensures forall id | Reachable(heap, roots, id) :: id in closed
  {
    forall id | Reachable(heap, roots, id) ensures id in closed {
      var path: seq<nat> :| Path(heap, path) && path[0] in roots && path[|path| - 1] == id;
      ClosedHoldsPath(heap, closed, path);
    }
  }

  /** No item refers to an object that does not exist. */
  ghost predicate NoDangling(heap: Heap) {
    forall a: nat, b: nat | Edge(heap, a, b) :: b < |heap|
  }

  /** Position of the first queue entry that has not been visited. */
  function FirstUnvisited(queue: seq<nat>, visited: set<nat>): (k: nat)
    ensures k <= |queue|
    ensures forall i | 0 <= i < k :: queue[i] in visited
    ensures k < |queue| ==> queue[k] !in visited
  {
    if queue == [] || queue[0] !in visited then 0 else 1 + FirstUnvisited(queue[1..], visited)
  }

  /** Every item of a visited object has been visited or is in the queue. */
  ghost predicate Covered(heap: Heap, visited: set<nat>, queue: seq<nat>) {
    forall a: nat, b: nat | a in visited && Edge(heap, a, b) :: b in visited || b in queue
  }

  /** Objects not visited yet. */
  ghost function Left(heap: Heap, visited: set<nat>): set<nat> {
    set i: nat | i < |heap| && i !in visited
  }

  lemma SomeEntry(ids: seq<nat>)
    requires ids != []
    ensures exists x :: x in ids
  {
    assert ids[0] in ids;
  }

  /** Taking a visited entry off the queue brings the first unvisited one closer, whatever is
      added at the other end; with none left, nothing is added. */
  lemma {:induction false} QueueShrinks(queue: seq<nat>, added: seq<nat>, visited: set<nat>)
    requires queue != [] && queue[0] in visited
    requires forall x | x in added :: x in queue && x !in visited
    ensures FirstUnvisited(queue[1..] + added, visited) < FirstUnvisited(queue, visited)
  {
    var k := FirstUnvisited(queue, visited);
    if k == |queue| {
      assert forall x | x in queue :: x in visited;
      if added != [] {
        SomeEntry(added);
      }
      assert queue[1..] + added == queue[1..];
    } else {
      var rest := queue[1..] + added;
      assert rest[k - 1] == queue[k] && rest[k - 1] !in visited;
    }
  }

  /** Items of an object that are references to unvisited objects, in order. */
  function UnvisitedItems(items: seq<Value>, visited: set<nat>): (r: seq<nat>)
    ensures forall b: nat :: b in r <==> b !in visited && Obj(b) in items
  {
    if items == [] then []
    else
      var rest := UnvisitedItems(items[1..], visited);
      assert items == [items[0]] + items[1..];
      if items[0].Obj? && items[0].id !in visited then [items[0].id] + rest else rest
  }

  /** The objects that registers refer to. */
  ghost function Roots(registers: seq<Value>): set<nat> {
    set i | 0 <= i < |registers| && registers[i].Obj? :: registers[i].id
  }

  method QueueRoots(registers: seq<Value>) returns (queue: seq<nat>)
    ensures forall id: nat :: id in queue <==> id in Roots(registers)
  {
    queue := [];
    var i := 0;
    while i < |registers|
      invariant 0 <= i <= |registers|
      invariant forall id: nat :: id in queue <==> id in Roots(registers[..i])
    {
      assert registers[..i + 1] == registers[..i] + [registers[i]];
      assert Roots(registers[..i + 1]) == Roots(registers[..i]) + (if registers[i].Obj? then {registers[i].id} else {}) by {
        RootsOne(registers[..i], registers[i]);
      }
      if registers[i].Obj? {
        queue := queue + [registers[i].id];
      }
      i := i + 1;
    }
    assert registers[..i] == registers;
  }

  lemma RootsOne(registers: seq<Value>, v: Value)
    ensures Roots(registers + [v]) == Roots(registers) + (if v.Obj? then {v.id} else {})
  {
    var all := registers + [v];
    forall id | id in Roots(registers) ensures id in Roots(all) {
      var i :| 0 <= i < |registers| && registers[i].Obj? && registers[i].id == id;
      assert all[i] == registers[i];
    }
    if v.Obj? {
      assert all[|registers|] == v;
    }
  }

  method QueueItems(items: seq<Value>, visited: set<nat>, queue: seq<nat>) returns (longer: seq<nat>)
    ensures longer == queue + UnvisitedItems(items, visited)
  {
    hide UnvisitedItems;
    longer := queue;
    var j := 0;
    while j < |items|
      invariant 0 <= j <= |items|
      invariant longer + UnvisitedItems(items[j..], visited) == queue + UnvisitedItems(items, visited)
    {
      ItemsFirst(items[j..], visited);
      assert items[j..][1..] == items[j + 1..];
      ghost var before := longer;
      if items[j].Obj? && items[j].id !in visited {
        longer := longer + [items[j].id];
        assert before + ([items[j].id] + UnvisitedItems(items[j + 1..], visited)) == longer + UnvisitedItems(items[j + 1..], visited);
      }
      j := j + 1;
    }
    ItemsNone(visited);
    assert items[j..] == [] && longer + [] == longer;
  }

  lemma ItemsFirst(items: seq<Value>, visited: set<nat>)
    requires items != []
    ensures UnvisitedItems(items, visited) ==
            if items[0].Obj? && items[0].id !in visited then [items[0].id] + UnvisitedItems(items[1..], visited)
            else UnvisitedItems(items[1..], visited)
  {
  }

  lemma ItemsNone(visited: set<nat>)
    ensures UnvisitedItems([], visited) == []
  {
  }

  ghost predicate AllReachable(heap: Heap, roots: set<nat>, ids: seq<nat>) {
    forall id | id in ids :: id < |heap| && Reachable(heap, roots, id)
  }

  /** What holds each time the queue is looked at. */
  ghost predicate Marked(heap: Heap, roots: set<nat>, visited: set<nat>, queue: seq<nat>) {
    && AllReachable(heap, roots, queue)
    && (forall id | id in visited :: Reachable(heap, roots, id))
    && (forall id | id in roots :: id in visited || id in queue)
    && Covered(heap, visited, queue)
  }

  /** The mark phase: the objects reachable from the registers, no more and no fewer.
      Objects may be queued and processed several times. */
  method Mark(registers: seq<Value>, heap: Heap) returns (live: set<nat>)
    requires NoDangling(heap) && forall i | 0 <= i < |registers| && registers[i].Obj? :: registers[i].id < |heap|
    ensures forall id: nat :: id in live <==> Reachable(heap, Roots(registers), id)
  {
    ghost var roots := Roots(registers);
    live := {};
    var visited: set<nat> := {};
    var queue := QueueRoots(registers);
    MarkBegins(heap, registers, queue);
    while queue != []
      invariant live == visited && Marked(heap, roots, visited, queue)
      decreases |Left(heap, visited)|, FirstUnvisited(queue, visited)
    {
      var next := queue[0];
      InRange(heap, roots, visited, queue);
      live := live + {next};
      MarkStep(heap, roots, queue, visited, UnvisitedItems(heap[next].items, visited));
      queue := QueueItems(heap[next].items, visited, queue[1..]);
      visited := visited + {next};
    }
    MarkEnds(heap, roots, visited);
  }

  lemma MarkBegins(heap: Heap, registers: seq<Value>, queue: seq<nat>)
    requires forall i | 0 <= i < |registers| && registers[i].Obj? :: registers[i].id < |heap|
    requires forall id: nat :: id in queue <==> id in Roots(registers)
    ensures Marked(heap, Roots(registers), {}, queue)
  {
    forall id | id in queue ensures id < |heap| && Reachable(heap, Roots(registers), id) {
      RootReachable(heap, Roots(registers), id);
    }
  }

  lemma InRange(heap: Heap, roots: set<nat>, visited: set<nat>, queue: seq<nat>)
    requires Marked(heap, roots, visited, queue) && queue != []
    ensures queue[0] < |heap| && Reachable(heap, roots, queue[0])
  {
    assert queue[0] in queue;
  }

  lemma MarkEnds(heap: Heap, roots: set<nat>, visited: set<nat>)
    requires Marked(heap, roots, visited, [])
    ensures forall id: nat :: id in visited <==> Reachable(heap, roots, id)
  {
    hide Reachable, Edge;
    ClosedHoldsReachable(heap, roots, visited);
  }

  lemma AddedEdges(heap: Heap, next: nat, visited: set<nat>, added: seq<nat>)
    requires next < |heap| && added == UnvisitedItems(heap[next].items, visited)
    ensures forall b | b in added :: Edge(heap, next, b) && b !in visited
    ensures forall b: nat | Edge(heap, next, b) :: b in visited || b in added
  {
    hide UnvisitedItems;
    forall b | b in added ensures Edge(heap, next, b) {
      assert Obj(b) in heap[next].items;
    }
    forall b: nat | Edge(heap, next, b) ensures b in visited || b in added {
      assert Obj(b) in heap[next].items;
    }
  }

  /** Processing one queue entry keeps the invariant and makes progress. */
  lemma MarkStep(heap: Heap, roots: set<nat>, queue: seq<nat>, visited: set<nat>, added: seq<nat>)
    requires NoDangling(heap) && Marked(heap, roots, visited, queue) && queue != [] && queue[0] < |heap|
    requires added == UnvisitedItems(heap[queue[0]].items, visited)
    ensures Marked(heap, roots, visited + {queue[0]}, queue[1..] + added)
    ensures queue[0] in visited ==>
              Left(heap, visited + {queue[0]}) == Left(heap, visited)
              && FirstUnvisited(queue[1..] + added, visited + {queue[0]}) < FirstUnvisited(queue, visited)
    ensures queue[0] !in visited ==> |Left(heap, visited + {queue[0]})| < |Left(heap, visited)|
  {
    hide Edge, Reachable, UnvisitedItems;
    var next := queue[0];
    AddedEdges(heap, next, visited, added);
    MarkKeeps(heap, roots, queue, visited, added);
    if next in visited {
      assert visited + {next} == visited;
      QueueShrinks(queue, added, visited);
    } else {
      assert Left(heap, visited + {next}) == Left(heap, visited) - {next};
      assert next in Left(heap, visited);
    }
  }

  lemma MarkKeeps(heap: Heap, roots: set<nat>, queue: seq<nat>, visited: set<nat>, added: seq<nat>)
    requires NoDangling(heap) && Marked(heap, roots, visited, queue) && queue != []
    requires forall b | b in added :: Edge(heap, queue[0], b)
    requires forall b: nat | Edge(heap, queue[0], b) :: b in visited || b in added
    ensures Marked(heap, roots, visited + {queue[0]}, queue[1..] + added)
  {
    hide Edge, Reachable;
    var next := queue[0];
    assert queue == [next] + queue[1..];
    InRange(heap, roots, visited, queue);
    forall b | b in added ensures b < |heap| && Reachable(heap, roots, b) {
      StepReachable(heap, roots, next, b);
    }
  }
}
