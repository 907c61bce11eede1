/** The slot allocator of the virtual machine's heap (src/runtime/heap_storage.cpp): a fixed
    table of object slots, a queue of freed slots and an overhead count. */
module HeapStorage {
  import opened Values
  import opened ExprLowering

  const MAX_OVERHEAD := 16384
  const GC_THRESHOLD := 8192
  const OBJ_OVERHEAD := 16
  const CAPACITY := MAX_OVERHEAD / OBJ_OVERHEAD

  type Slot = Option<SeqObj>

  datatype ObjectTag = DudTag | SequenceTag

  /** The contents of the storage. */
  datatype Store = Store(slots: seq<Slot>, holes: seq<nat>, overhead: int, nextId: nat)

  function Fresh(): Store {
    Store(seq(CAPACITY, _ => None), [], 0, 0)
  }

  /** The slot handed out next. */
  function NextSlot(st: Store): nat {
    if st.holes != [] then st.holes[0] else st.nextId
  }

  /** Creating past the end of the table has no defined effect. */
  predicate CanCreate(st: Store) {
    st.holes != [] || st.nextId < CAPACITY
  }

  function Create(st: Store): Store
    requires NextSlot(st) < |st.slots|
  {
    Store(st.slots[NextSlot(st) := Some(SeqObj([], false))], if st.holes != [] then st.holes[1..] else [],
          st.overhead + OBJ_OVERHEAD, st.nextId + 1)
  }

  function Destroy(st: Store, id: nat): Store
    requires id < |st.slots|
  {
    if st.slots[id].None? then st
    else Store(st.slots[id := None], st.holes + [id], st.overhead - OBJ_OVERHEAD, st.nextId)
  }

  function Live(slots: seq<Slot>): nat {
    if slots == [] then 0 else (if slots[0].Some? then 1 else 0) + Live(slots[1..])
  }

  lemma {:induction false} LiveUpdate(slots: seq<Slot>, i: nat, s: Slot)
    requires i < |slots|
    ensures Live(slots[i := s]) == Live(slots) - (if slots[i].Some? then 1 else 0) + (if s.Some? then 1 else 0)
  {
    if i == 0 {
      assert slots[0 := s][1..] == slots[1..];
    } else {
      LiveUpdate(slots[1..], i - 1, s);
      assert slots[i := s][1..] == slots[1..][i - 1 := s];
    }
  }

  /** Holes are distinct empty slots below `nextId`; nothing lives at or above `nextId`; the
      overhead counts the live objects. */
  ghost predicate Consistent(st: Store) {
    && |st.slots| == CAPACITY && st.overhead == OBJ_OVERHEAD * Live(st.slots)
    && (forall i | 0 <= i < |st.holes| :: st.holes[i] < st.nextId && st.holes[i] < CAPACITY && st.slots[st.holes[i]].None?)
    && (forall i, j | 0 <= i < j < |st.holes| :: st.holes[i] != st.holes[j])
    && (forall i | st.nextId <= i < CAPACITY :: st.slots[i].None?)
  }

  /** A consistent storage hands out a free slot of the table exactly if there is a hole or
      fewer than `CAPACITY` objects have been created so far. */
  lemma CreateSafeExactly(st: Store)
    requires Consistent(st)
    ensures CanCreate(st) <==> NextSlot(st) < CAPACITY && st.slots[NextSlot(st)].None?
  {
  }

  lemma CreateKeeps(st: Store)
    requires Consistent(st) && CanCreate(st)
    ensures Consistent(Create(st)) && Live(Create(st).slots) == Live(st.slots) + 1
  {
    LiveUpdate(st.slots, NextSlot(st), Some(SeqObj([], false)));
  }

  lemma DestroyKeeps(st: Store, id: nat)
    requires Consistent(st) && id < CAPACITY
    ensures Consistent(Destroy(st, id))
    ensures st.slots[id].Some? ==> Live(Destroy(st, id).slots) == Live(st.slots) - 1
  {
    LiveUpdate(st.slots, id, None);
  }

  lemma {:induction false} NothingLives(slots: seq<Slot>)
    requires forall i | 0 <= i < |slots| :: slots[i].None?
    ensures Live(slots) == 0
  {
    if slots != [] {
      NothingLives(slots[1..]);
    }
  }

  datatype Request = MakeOne | Free(id: nat)

  /** A sequence of requests; `None` once one of them has no defined effect. */
  function Serve(st: Store, reqs: seq<Request>): Option<Store>
    decreases |reqs|
  {
    if reqs == [] then Some(st)
    else
      match reqs[0]
      case MakeOne => if NextSlot(st) < |st.slots| then Serve(Create(st), reqs[1..]) else None
      case Free(id) => if id < |st.slots| then Serve(Destroy(st, id), reqs[1..]) else None
  }

  function Creations(reqs: seq<Request>): nat {
    if reqs == [] then 0 else (if reqs[0].MakeOne? then 1 else 0) + Creations(reqs[1..])
  }

  /** Over any sequence of requests the storage stays consistent, and `nextId` counts the
      creations: reusing a hole uses up a fresh id as well. */
  lemma {:induction false} ServeKeeps(st: Store, reqs: seq<Request>)
    requires Consistent(st)
    ensures var r := Serve(st, reqs); r.Some? ==> Consistent(r.value) && r.value.nextId == st.nextId + Creations(reqs)
    decreases |reqs|
  {
    if reqs != [] {
      match reqs[0]
      case MakeOne =>
        CreateSafeExactly(st);
        if NextSlot(st) < |st.slots| {
          CreateKeeps(st);
          ServeKeeps(Create(st), reqs[1..]);
        }
      case Free(id) =>
        if id < |st.slots| {
          DestroyKeeps(st, id);
          ServeKeeps(Destroy(st, id), reqs[1..]);
        }
    }
  }

  /** The first `CAPACITY` creations are always served, whatever is freed in between. */
  lemma {:induction false} ServedWithinCapacity(st: Store, reqs: seq<Request>)
    requires Consistent(st) && st.nextId + Creations(reqs) <= CAPACITY
    requires forall i | 0 <= i < |reqs| :: reqs[i].Free? ==> reqs[i].id < CAPACITY
    ensures Serve(st, reqs).Some?
    decreases |reqs|
  {
    if reqs != [] {
      match reqs[0]
      case MakeOne =>
        CreateKeeps(st);
        ServedWithinCapacity(Create(st), reqs[1..]);
      case Free(id) =>
        assert reqs[0].id < CAPACITY;
        DestroyKeeps(st, id);
        ServedWithinCapacity(Destroy(st, id), reqs[1..]);
    }
  }

  /** Freeing an object and creating one again leaves every slot free or taken as before, but
      each such round costs one of the fresh ids. */
  lemma ReuseCostsAnId(st: Store, id: nat)
    requires Consistent(st) && id < CAPACITY && st.slots[id].Some? && st.holes == []
    ensures var again := Create(Destroy(st, id));
            && again.slots == st.slots[id := Some(SeqObj([], false))] && again.holes == []
            && again.overhead == st.overhead && again.nextId == st.nextId + 1
  {
    assert ([] + [id])[1..] == [];
  }

  class Storage {
    const slots: array<Slot>
    var holes: seq<nat>
    var overhead: int
    var nextId: nat

    ghost function Now(): Store
      reads this, slots
    {
      Store(slots[..], holes, overhead, nextId)
    }

    ghost predicate Valid()
      reads this, slots
    {
      Consistent(Now())
    }

    constructor ()
      ensures Valid() && fresh(slots) && Now() == Fresh()
    {
      slots := new Slot[CAPACITY](_ => None);
      holes, overhead, nextId := [], 0, 0;
      new;
      assert slots[..] == Fresh().slots;
      NothingLives(slots[..]);
    }

    /** Collection is due once half of the slots are taken. */
    method IsRipe() returns (ripe: bool)
      requires Valid()
      ensures ripe <==> 2 * Live(slots[..]) >= CAPACITY
    {
      ripe := overhead >= GC_THRESHOLD;
    }

    /** The slot of a new empty sequence; no slot for other tags. */
    method TryCreate(tag: ObjectTag) returns (id: Option<nat>)
      requires Valid() && (tag == SequenceTag ==> CanCreate(Now()))
      modifies this, slots
      ensures Valid()
      ensures tag == DudTag ==> id == None && Now() == old(Now())
      ensures tag == SequenceTag ==> id == Some(NextSlot(old(Now()))) && Now() == Create(old(Now()))
    {
      match tag
      case DudTag => id := None;
      case SequenceTag =>
        CreateKeeps(Now());
        var next := nextId;
        if holes != [] {
          next := holes[0];
          holes := holes[1..];
        }
        slots[next] := Some(SeqObj([], false));
        overhead := overhead + OBJ_OVERHEAD;
        nextId := nextId + 1;
        id := Some(next);
        assert slots[..] == old(slots[..])[next := Some(SeqObj([], false))];
        assert Now() == Create(old(Now()));
    }

    /** Free a slot; false if it was empty. */
    method TryDestroy(id: nat) returns (ok: bool)
      requires Valid() && id < slots.Length
      modifies this, slots
      ensures Valid() && Now() == Destroy(old(Now()), id)
      ensures ok <==> old(slots[id]).Some?
    {
      DestroyKeeps(Now(), id);
      ok := slots[id].Some?;
      if ok {
        slots[id] := None;
        overhead := overhead - OBJ_OVERHEAD;
        holes := holes + [id];
        assert slots[..] == old(slots[..])[id := None];
      }
      assert Now() == Destroy(old(Now()), id);
    }

    /** Change the object in a taken slot. */
    method Update(id: nat, obj: SeqObj)
      requires Valid() && id < slots.Length && slots[id].Some?
      modifies slots
      ensures Valid() && Now() == old(Now()).(slots := old(slots[..])[id := Some(obj)])
    {
      LiveUpdate(slots[..], id, Some(obj));
      slots[id] := Some(obj);
      assert slots[..] == old(slots[..])[id := Some(obj)];
    }
  }
}
