/** The stream table of one HTTP/2 session: a vector of recycled slots, a free list of
    slot numbers and an unordered id index with swap-erase.  The functions cover every
    table; the lemmas show that from an empty table on it behaves as a plain map. */
module StreamTables {
  import opened Optional
  import opened Sequences

  type Id = int

  /** A point of the steady clock; Never is its maximum, which no timer waits for. */
  datatype Deadline = At(time: int) | Never

  datatype Kind = Total | Write | Read

  /** Why a response carries an error, if it does. */
  datatype Failure = NoFailure | TimedOut(kind: Kind) | ResetByPeer | ConnectionLost

  datatype Stream = Stream(
    done: bool,
    callback: bool,
    total: Deadline,
    write: Deadline,
    read: Deadline,
    readTimeout: int,
    failure: Failure)

  /** A state as reset_for_reuse leaves it. */
  const BLANK := Stream(false, false, At(0), At(0), At(0), 0, NoFailure)

  datatype Entry = Entry(id: Id, inUse: bool, state: Stream)

  datatype IndexEntry = IndexEntry(id: Id, slot: nat)

  datatype Table = Table(streams: seq<Entry>, free: seq<nat>, index: seq<IndexEntry>)

  datatype Found = Found(table: Table, slot: Option<nat>)

  const EMPTY_TABLE := Table([], [], [])

  // ---------------------------------------------------------------------------
  // The operations, on any table
  // ---------------------------------------------------------------------------

  /** Position of the first index entry for an id, or the length of the index. */
  function Position(index: seq<IndexEntry>, id: Id): (k: nat)
    ensures k <= |index|
    ensures forall i :: 0 <= i < k ==> index[i].id != id
    ensures k < |index| ==> index[k].id == id
  {
    if index == [] || index[0].id == id then 0 else 1 + Position(index[1..], id)
  }

  /** A look-up drops an index entry whose slot was given to another stream. */
  function Find(t: Table, id: Id): Found {
    var k := Position(t.index, id);
    if k == |t.index| then Found(t, None)
    else
      var slot := t.index[k].slot;
      if slot >= |t.streams| || !t.streams[slot].inUse || t.streams[slot].id != id then
        Found(t.(index := t.index[..k] + t.index[k + 1..]), None)
      else Found(t, Some(slot))
  }

  function EraseIndex(index: seq<IndexEntry>, id: Id): seq<IndexEntry> {
    var k := Position(index, id);
    if k == |index| then index
    else index[k := index[|index| - 1]][..|index| - 1]
  }

  predicate Usable(streams: seq<Entry>, slot: nat) {
    slot < |streams| && !streams[slot].inUse
  }

  /** Length of the free list up to and including its last usable slot number. */
  function LastUsable(streams: seq<Entry>, free: seq<nat>): (k: nat)
    ensures k <= |free|
    ensures k > 0 ==> Usable(streams, free[k - 1])
    ensures forall i :: k <= i < |free| ==> !Usable(streams, free[i])
  {
    if free == [] then 0
    else if Usable(streams, free[|free| - 1]) then |free|
    else LastUsable(streams, free[..|free| - 1])
  }

  function Acquire(t: Table, id: Id): Table {
    var k := LastUsable(t.streams, t.free);
    var slot := if k > 0 then t.free[k - 1] else |t.streams|;
    Table(if k > 0 then t.streams[slot := Entry(id, true, BLANK)] else t.streams + [Entry(id, true, BLANK)],
          if k > 0 then t.free[..k - 1] else [],
          t.index + [IndexEntry(id, slot)])
  }

  function Release(t: Table, id: Id): Table {
    var f := Find(t, id);
    if f.slot.None? then f.table
    else
      Table(f.table.streams[f.slot.value := Entry(0, false, BLANK)],
            f.table.free + [f.slot.value],
            EraseIndex(f.table.index, id))
  }

  /** nghttp2 chose another id than the expected one. */
  function Rename(t: Table, expected: Id, actual: Id): Table {
    var f := Find(t, expected);
    if f.slot.None? then Acquire(f.table, actual)
    else
      var slot := f.slot.value;
      f.table.(streams := f.table.streams[slot := f.table.streams[slot].(id := actual)],
               index := EraseIndex(f.table.index, expected) + [IndexEntry(actual, slot)])
  }

  function Store(t: Table, id: Id, state: Stream): Table {
    var f := Find(t, id);
    if f.slot.None? then f.table
    else f.table.(streams := f.table.streams[f.slot.value := f.table.streams[f.slot.value].(state := state)])
  }

  // ---------------------------------------------------------------------------
  // The map that a table stands for
  // ---------------------------------------------------------------------------

  ghost predicate DistinctIds(index: seq<IndexEntry>) {
    forall i, j :: 0 <= i < j < |index| ==> index[i].id != index[j].id
  }

  ghost predicate DistinctSlots(index: seq<IndexEntry>) {
    forall i, j :: 0 <= i < j < |index| ==> index[i].slot != index[j].slot
  }

  ghost predicate Points(streams: seq<Entry>, e: IndexEntry) {
    e.slot < |streams| && streams[e.slot].inUse && streams[e.slot].id == e.id
  }

  ghost predicate Covered(t: Table, k: nat) {
    k < |t.streams| && t.streams[k].inUse ==> IndexEntry(t.streams[k].id, k) in t.index
  }

  /** Index entries and slots in use are in bijection, and the free list holds exactly
      the unused slots without repeats. */
  ghost predicate Consistent(t: Table) {
    && DistinctIds(t.index)
    && DistinctSlots(t.index)
    && (forall i :: 0 <= i < |t.index| ==> Points(t.streams, t.index[i]))
    && (forall k: nat :: Covered(t, k))
    && NoRepeats(t.free)
    && (forall k: nat :: k in t.free <==> Usable(t.streams, k))
  }

  ghost predicate IndexApart(t: Table, i: nat, j: nat) {
    i < j < |t.index| ==> t.index[i].id != t.index[j].id && t.index[i].slot != t.index[j].slot
  }

  ghost predicate FreeApart(t: Table, i: nat, j: nat) {
    i < j < |t.free| ==> t.free[i] != t.free[j]
  }

  ghost predicate IndexPoints(t: Table, i: nat) {
    i < |t.index| ==> Points(t.streams, t.index[i])
  }

  ghost predicate FreeExact(t: Table, k: nat) {
    k in t.free <==> Usable(t.streams, k)
  }

  /** Consistent, with every clause behind a name, so that it is unfolded on demand. */
  ghost predicate Valid(t: Table) {
    && (forall i: nat, j: nat :: IndexApart(t, i, j))
    && (forall i: nat, j: nat :: FreeApart(t, i, j))
    && (forall i: nat :: IndexPoints(t, i))
    && (forall k: nat :: Covered(t, k))
    && (forall k: nat :: FreeExact(t, k))
  }

  lemma Expose(t: Table)
    requires Valid(t)
    ensures Consistent(t)
  {
    assert forall i: nat, j: nat :: IndexApart(t, i, j);
    forall i, j | 0 <= i < j < |t.index|
      ensures t.index[i].id != t.index[j].id && t.index[i].slot != t.index[j].slot
    {
      assert IndexApart(t, i, j);
    }
    forall i, j | 0 <= i < j < |t.free|
      ensures t.free[i] != t.free[j]
    {
      assert FreeApart(t, i, j);
    }
    forall i | 0 <= i < |t.index|
      ensures Points(t.streams, t.index[i])
    {
      assert IndexPoints(t, i);
    }
    forall k: nat
      ensures k in t.free <==> Usable(t.streams, k)
    {
      assert FreeExact(t, k);
    }
  }

  lemma Conceal(t: Table)
    requires Consistent(t)
    ensures Valid(t)
  {
  }

  function IdsOf(index: seq<IndexEntry>): set<Id> {
    set e | e in index :: e.id
  }

  ghost function Ids(t: Table): set<Id> {
    IdsOf(t.index)
  }

  ghost function SlotOf(t: Table, id: Id): (slot: nat)
    requires Valid(t) && id in Ids(t)
    ensures slot < |t.streams|
  {
    var k := Position(t.index, id);
    assert k < |t.index| && IndexPoints(t, k);
    t.index[k].slot
  }

  lemma SlotPoints(t: Table, id: Id)
    requires Valid(t) && id in Ids(t)
    ensures Points(t.streams, IndexEntry(id, SlotOf(t, id)))
    ensures IndexEntry(id, SlotOf(t, id)) in t.index
  {
    Expose(t);
    var k := Position(t.index, id);
    assert t.index[k] in t.index && Points(t.streams, t.index[k]);
  }

  ghost function Slots(t: Table): (m: map<Id, nat>)
    requires Valid(t)
    ensures m.Keys == Ids(t) && InRange(t.streams, m)
  {
    map id | id in Ids(t) :: SlotOf(t, id)
  }

  ghost predicate InRange(streams: seq<Entry>, slots: map<Id, nat>) {
    forall id :: id in slots ==> slots[id] < |streams|
  }

  ghost function Resolve(streams: seq<Entry>, slots: map<Id, nat>): (m: map<Id, Stream>)
    requires InRange(streams, slots)
    ensures m.Keys == slots.Keys
  {
    map id | id in slots :: streams[slots[id]].state
  }

  lemma ResolveIs(streams: seq<Entry>, slots: map<Id, nat>, m: map<Id, Stream>)
    requires InRange(streams, slots) && m.Keys == slots.Keys
    requires forall id :: id in slots.Keys ==> m[id] == streams[slots[id]].state
    ensures Resolve(streams, slots) == m
  {
    var r := Resolve(streams, slots);
    assert r.Keys == m.Keys;
    forall id | id in r.Keys
      ensures r[id] == m[id]
    {
      assert id in slots;
    }
  }

  /** The plain map from stream id to state. */
  ghost function Model(t: Table): (m: map<Id, Stream>)
    requires Valid(t)
    ensures m.Keys == Ids(t)
  {
    Resolve(t.streams, Slots(t))
  }

  // ---------------------------------------------------------------------------
  // Facts about the index
  // ---------------------------------------------------------------------------

  lemma SlotIs(t: Table, e: IndexEntry)
    requires Valid(t) && e in t.index
    ensures e.id in Ids(t) && SlotOf(t, e.id) == e.slot
  {
    Expose(t);
    var i :| 0 <= i < |t.index| && t.index[i] == e;
    var k := Position(t.index, e.id);
    assert k <= i;
    assert k == i;
  }

  lemma SlotsDiffer(t: Table, id: Id, other: Id)
    requires Valid(t) && id in Ids(t) && other in Ids(t) && id != other
    ensures SlotOf(t, id) != SlotOf(t, other)
  {
    Expose(t);
    SlotPoints(t, id);
    SlotPoints(t, other);
  }

  lemma FindRefines(t: Table, id: Id)
    requires Valid(t)
    ensures Find(t, id) == Found(t, if id in Ids(t) then Some(SlotOf(t, id)) else None)
  {
    Expose(t);
    var k := Position(t.index, id);
    if k < |t.index| {
      assert Points(t.streams, t.index[k]);
      assert t.index[k] in t.index;
    }
  }

  /** Swap-erase removes one entry and no other. */
  lemma EraseIndexExact(index: seq<IndexEntry>, id: Id)
    requires DistinctIds(index)
    ensures var r := EraseIndex(index, id);
            && (forall e :: e in r <==> e in index && e.id != id)
            && DistinctIds(r) && (DistinctSlots(index) ==> DistinctSlots(r))
  {
    var k := Position(index, id);
    var r := EraseIndex(index, id);
    if k < |index| {
      var last := |index| - 1;
      assert forall i :: 0 <= i < last ==> r[i] == if i == k then index[last] else index[i];
      forall e | e in index && e.id != id
        ensures e in r
      {
        var i :| 0 <= i < |index| && index[i] == e;
        assert i == last ==> r[k] == e;
        assert i < last ==> r[i] == e;
      }
      forall e | e in r
        ensures e in index && e.id != id
      {
        var i :| 0 <= i < |r| && r[i] == e;
      }
    } else {
      forall e | e in index
        ensures e.id != id
      {
        var i :| 0 <= i < |index| && index[i] == e;
      }
    }
  }

  lemma IdsAppended(index: seq<IndexEntry>, e: IndexEntry)
    ensures IdsOf(index + [e]) == IdsOf(index) + {e.id}
  {
    forall id | id in IdsOf(index) + {e.id}
      ensures id in IdsOf(index + [e])
    {
      if id in IdsOf(index) {
        var x :| x in index && x.id == id;
        assert x in index + [e];
      } else {
        assert e in index + [e];
      }
    }
  }

  lemma IdsErased(index: seq<IndexEntry>, id: Id)
    requires DistinctIds(index)
    ensures IdsOf(EraseIndex(index, id)) == IdsOf(index) - {id}
  {
    EraseIndexExact(index, id);
  }

  // ---------------------------------------------------------------------------
  // Refinement of the plain map
  // ---------------------------------------------------------------------------

  lemma SlotsInjective(t: Table)
    requires Valid(t)
    ensures forall a, b :: a in Slots(t) && b in Slots(t) && a != b ==> Slots(t)[a] != Slots(t)[b]
  {
    forall a, b | a in Slots(t) && b in Slots(t) && a != b
      ensures Slots(t)[a] != Slots(t)[b]
    {
      SlotsDiffer(t, a, b);
    }
  }

  lemma KeptSlots(t: Table, t': Table, gone: Id)
    requires Valid(t) && Valid(t')
    requires forall e :: e in t.index && e.id != gone ==> e in t'.index
    ensures forall other :: other in Slots(t) && other != gone ==>
              other in Slots(t') && Slots(t')[other] == Slots(t)[other]
  {
    forall other | other in Slots(t) && other != gone
      ensures other in Slots(t') && Slots(t')[other] == Slots(t)[other]
    {
      SlotPoints(t, other);
      SlotIs(t', IndexEntry(other, SlotOf(t, other)));
    }
  }

  lemma ShorterFree(free: seq<nat>, rest: seq<nat>, slot: nat)
    requires NoRepeats(free) && (free == rest + [slot] || free == rest == [])
    ensures NoRepeats(rest)
    ensures free != [] ==> forall k :: k in rest <==> k in free && k != slot
  {
    if free != [] {
      assert free[|rest|] == slot;
      assert forall i :: 0 <= i < |rest| ==> free[i] == rest[i];
    }
  }

  /** A new stream enters the table at a slot that no stream uses. */
  lemma EnteredValid(t: Table, t': Table, id: Id, slot: nat)
    requires Valid(t) && id !in Ids(t)
    requires slot < |t'.streams| && t'.streams[slot] == Entry(id, true, BLANK)
    requires if slot < |t.streams| then
               !t.streams[slot].inUse && t'.streams == t.streams[slot := Entry(id, true, BLANK)]
               && t.free == t'.free + [slot]
             else
               t'.streams == t.streams + [Entry(id, true, BLANK)] && t.free == t'.free == []
    requires t'.index == t.index + [IndexEntry(id, slot)]
    ensures Valid(t')
  {
    Expose(t);
    assert forall i :: 0 <= i < |t.index| ==> t.index[i] in t.index && t.index[i].id != id;
    assert forall i :: 0 <= i < |t.index| ==> Points(t.streams, t.index[i]) && t.index[i].slot != slot;
    forall j: nat
      ensures Covered(t', j)
    {
      assert Covered(t, j);
      assert t'.index[|t.index|] == IndexEntry(id, slot);
    }
    ShorterFree(t.free, t'.free, slot);
    forall j: nat
      ensures j in t'.free <==> Usable(t'.streams, j)
    {
      assert j in t.free <==> Usable(t.streams, j);
    }
    Conceal(t');
  }

  lemma AcquireValid(t: Table, id: Id)
    requires Valid(t) && id !in Ids(t)
    ensures Valid(Acquire(t, id))
    ensures |Acquire(t, id).streams| == if t.free == [] then |t.streams| + 1 else |t.streams|
  {
    Expose(t);
    if t.free == [] {
      EnteredValid(t, Acquire(t, id), id, |t.streams|);
    } else {
      var last := |t.free| - 1;
      assert t.free[last] in t.free;
      assert t.free == t.free[..last] + [t.free[last]];
      EnteredValid(t, Acquire(t, id), id, t.free[last]);
    }
  }

  lemma AddedSlots(t: Table, t': Table, e: IndexEntry)
    requires Valid(t) && Valid(t') && e.id !in Ids(t) && t'.index == t.index + [e]
    ensures Slots(t') == Slots(t)[e.id := e.slot]
  {
    assert t'.index[|t.index|] == e;
    SlotIs(t', e);
    IdsAppended(t.index, e);
    assert forall x :: x in t.index ==> x in t'.index;
    KeptSlots(t, t', e.id);
  }

  lemma AcquireRefines(t: Table, id: Id)
    requires Valid(t) && id !in Ids(t)
    ensures Valid(Acquire(t, id))
    ensures Model(Acquire(t, id)) == Model(t)[id := BLANK]
    ensures id in Slots(Acquire(t, id))
    ensures Slots(Acquire(t, id)) == Slots(t)[id := Slots(Acquire(t, id))[id]]
  {
    AcquireValid(t, id);
    var t' := Acquire(t, id);
    AddedSlots(t, t', t'.index[|t.index|]);
    SlotsInjective(t');
    Entered(t.streams, t'.streams, Slots(t), Slots(t'), id);
  }

  lemma Entered(streams: seq<Entry>, streams': seq<Entry>, slots: map<Id, nat>, slots': map<Id, nat>, id: Id)
    requires InRange(streams, slots) && InRange(streams', slots') && id in slots' && id !in slots
    requires slots'.Keys == slots.Keys + {id}
    requires forall other :: other in slots ==> slots'[other] == slots[other] != slots'[id]
    requires forall k :: 0 <= k < |streams| && k < |streams'| && k != slots'[id] ==> streams'[k] == streams[k]
    requires |streams| <= |streams'| && streams'[slots'[id]].state == BLANK
    ensures Resolve(streams', slots') == Resolve(streams, slots)[id := BLANK]
  {
    ResolveIs(streams', slots', Resolve(streams, slots)[id := BLANK]);
  }

  lemma ReleaseValid(t: Table, id: Id)
    requires Valid(t) && id in Ids(t)
    ensures Valid(Release(t, id))
    ensures |Release(t, id).streams| == |t.streams|
  {
    Expose(t);
    FindRefines(t, id);
    EraseIndexExact(t.index, id);
    var t' := Release(t, id);
    var slot := SlotOf(t, id);
    forall i | 0 <= i < |t'.index|
      ensures Points(t'.streams, t'.index[i])
    {
      assert t'.index[i] in t'.index && t'.index[i] in t.index;
      SlotIs(t, t'.index[i]);
      SlotsDiffer(t, t'.index[i].id, id);
      assert Points(t.streams, t'.index[i]);
    }
    forall k: nat
      ensures Covered(t', k)
    {
      assert Covered(t, k);
      if k < |t.streams| && t.streams[k].inUse {
        SlotIs(t, IndexEntry(t.streams[k].id, k));
      }
    }
    assert !Usable(t.streams, slot);
    forall k: nat
      ensures k in t'.free <==> Usable(t'.streams, k)
    {
      assert k in t.free <==> Usable(t.streams, k);
      assert k in t'.free <==> k in t.free || k == slot;
    }
    Conceal(t');
  }

  lemma Left(streams: seq<Entry>, streams': seq<Entry>, slots: map<Id, nat>, slots': map<Id, nat>, id: Id)
    requires InRange(streams, slots) && InRange(streams', slots') && id in slots
    requires slots'.Keys == slots.Keys - {id}
    requires forall other :: other in slots' ==> slots'[other] == slots[other] != slots[id]
    requires |streams'| == |streams|
    requires forall k :: 0 <= k < |streams| && k != slots[id] ==> streams'[k] == streams[k]
    ensures Resolve(streams', slots') == Resolve(streams, slots) - {id}
  {
    ResolveIs(streams', slots', Resolve(streams, slots) - {id});
  }

  lemma RemovedSlots(t: Table, t': Table, id: Id)
    requires Valid(t) && Valid(t') && Ids(t') == Ids(t) - {id}
    requires forall e :: e in t.index && e.id != id ==> e in t'.index
    ensures Slots(t') == Slots(t) - {id}
  {
    KeptSlots(t, t', id);
  }

  lemma ReleaseRefines(t: Table, id: Id)
    requires Valid(t)
    ensures Valid(Release(t, id))
    ensures Model(Release(t, id)) == Model(t) - {id}
    ensures Slots(Release(t, id)) == Slots(t) - {id}
  {
    FindRefines(t, id);
    if id in Ids(t) {
      ReleaseValid(t, id);
      Expose(t);
      EraseIndexExact(t.index, id);
      IdsErased(t.index, id);
      var t' := Release(t, id);
      RemovedSlots(t, t', id);
      SlotsInjective(t);
      Left(t.streams, t'.streams, Slots(t), Slots(t'), id);
    } else {
      assert Model(t) - {id} == Model(t) && Slots(t) - {id} == Slots(t);
    }
  }

  lemma RenameValid(t: Table, expected: Id, actual: Id)
    requires Valid(t) && expected in Ids(t) && actual !in Ids(t)
    ensures Valid(Rename(t, expected, actual))
  {
    Expose(t);
    FindRefines(t, expected);
    EraseIndexExact(t.index, expected);
    var t' := Rename(t, expected, actual);
    var slot := SlotOf(t, expected);
    var kept := EraseIndex(t.index, expected);
    forall i | 0 <= i < |kept|
      ensures Points(t'.streams, kept[i]) && kept[i].slot != slot && kept[i].id != actual
    {
      assert kept[i] in kept && kept[i] in t.index;
      SlotIs(t, kept[i]);
      SlotsDiffer(t, kept[i].id, expected);
      assert Points(t.streams, kept[i]);
    }
    forall k: nat
      ensures Covered(t', k)
    {
      assert Covered(t, k);
      if k == slot {
        assert t'.index[|kept|] == IndexEntry(actual, slot);
      } else if k < |t.streams| && t.streams[k].inUse {
        SlotIs(t, IndexEntry(t.streams[k].id, k));
      }
    }
    forall k: nat
      ensures k in t'.free <==> Usable(t'.streams, k)
    {
      assert k in t.free <==> Usable(t.streams, k);
    }
    Conceal(t');
  }

  lemma Renamed(streams: seq<Entry>, streams': seq<Entry>, slots: map<Id, nat>, slots': map<Id, nat>,
                expected: Id, actual: Id)
    requires InRange(streams, slots) && InRange(streams', slots')
    requires expected in slots && actual !in slots && actual in slots'
    requires slots'.Keys == slots.Keys - {expected} + {actual}
    requires slots'[actual] == slots[expected]
    requires forall other :: other in slots && other != expected ==> slots'[other] == slots[other]
    requires |streams'| == |streams|
    requires forall k :: 0 <= k < |streams| ==> streams'[k].state == streams[k].state
    ensures Resolve(streams', slots') ==
            (Resolve(streams, slots) - {expected})[actual := Resolve(streams, slots)[expected]]
  {
    ResolveIs(streams', slots', (Resolve(streams, slots) - {expected})[actual := Resolve(streams, slots)[expected]]);
  }

  lemma MovedSlots(t: Table, t': Table, kept: seq<IndexEntry>, expected: Id, actual: Id)
    requires Valid(t) && Valid(t') && expected in Ids(t) && actual !in Ids(t)
    requires IdsOf(kept) == Ids(t) - {expected}
    requires forall e :: e in t.index && e.id != expected ==> e in kept
    requires t'.index == kept + [IndexEntry(actual, Slots(t)[expected])]
    ensures Slots(t') == (Slots(t) - {expected})[actual := Slots(t)[expected]]
  {
    var e := IndexEntry(actual, Slots(t)[expected]);
    IdsAppended(kept, e);
    assert t'.index[|kept|] == e;
    SlotIs(t', e);
    KeptSlots(t, t', expected);
  }

  lemma RenameSlots(t: Table, expected: Id, actual: Id)
    requires Valid(t) && expected in Ids(t) && actual !in Ids(t)
    ensures Valid(Rename(t, expected, actual))
    ensures Slots(Rename(t, expected, actual)) == (Slots(t) - {expected})[actual := Slots(t)[expected]]
  {
    Expose(t);
    RenameValid(t, expected, actual);
    FindRefines(t, expected);
    EraseIndexExact(t.index, expected);
    IdsErased(t.index, expected);
    MovedSlots(t, Rename(t, expected, actual), EraseIndex(t.index, expected), expected, actual);
  }

  /** The renaming path moves one state to another id and leaves it in its slot. */
  lemma RenameRefines(t: Table, expected: Id, actual: Id)
    requires Valid(t) && expected in Ids(t) && actual !in Ids(t)
    ensures Valid(Rename(t, expected, actual))
    ensures Model(Rename(t, expected, actual)) == (Model(t) - {expected})[actual := Model(t)[expected]]
    ensures Slots(Rename(t, expected, actual)) == (Slots(t) - {expected})[actual := Slots(t)[expected]]
  {
    RenameSlots(t, expected, actual);
    FindRefines(t, expected);
    var t' := Rename(t, expected, actual);
    Renamed(t.streams, t'.streams, Slots(t), Slots(t'), expected, actual);
  }

  lemma StoreValid(t: Table, id: Id, state: Stream)
    requires Valid(t) && id in Ids(t)
    ensures Valid(Store(t, id, state))
    ensures Slots(Store(t, id, state)) == Slots(t)
  {
    Expose(t);
    FindRefines(t, id);
    var t' := Store(t, id, state);
    assert forall k: nat :: Usable(t'.streams, k) == Usable(t.streams, k);
    assert forall k: nat :: Covered(t, k) ==> Covered(t', k);
    forall e
      ensures Points(t'.streams, e) == Points(t.streams, e)
    {
    }
    Conceal(t');
  }

  lemma StoreRefines(t: Table, id: Id, state: Stream)
    requires Valid(t) && id in Ids(t)
    ensures Valid(Store(t, id, state))
    ensures Model(Store(t, id, state)) == Model(t)[id := state]
    ensures Slots(Store(t, id, state)) == Slots(t)
  {
    StoreValid(t, id, state);
    FindRefines(t, id);
    SlotsInjective(t);
    Stored(t.streams, Store(t, id, state).streams, Slots(t), id, state);
  }

  lemma Stored(streams: seq<Entry>, streams': seq<Entry>, slots: map<Id, nat>, id: Id, state: Stream)
    requires InRange(streams, slots) && InRange(streams', slots) && id in slots
    requires forall other :: other in slots && other != id ==> slots[other] != slots[id]
    requires |streams'| == |streams| && streams'[slots[id]].state == state
    requires forall k :: 0 <= k < |streams| && k != slots[id] ==> streams'[k] == streams[k]
    ensures Resolve(streams', slots) == Resolve(streams, slots)[id := state]
  {
    ResolveIs(streams', slots, Resolve(streams, slots)[id := state]);
  }

  // ---------------------------------------------------------------------------
  // Slots are recycled before the vector grows
  // ---------------------------------------------------------------------------

  ghost function Below(n: nat): (r: set<nat>)
    ensures |r| == n
    ensures forall i: nat :: i in r <==> i < n
  {
    if n == 0 then {} else Below(n - 1) + {n - 1}
  }

  lemma {:induction false} DistinctCount<T>(q: seq<T>)
    requires forall i, j :: 0 <= i < j < |q| ==> q[i] != q[j]
    ensures |set x | x in q| == |q|
  {
    if q != [] {
      var front := q[..|q| - 1];
      DistinctCount(front);
      assert q == front + [q[|q| - 1]];
      assert (set x | x in q) == (set x | x in front) + {q[|q| - 1]};
    }
  }

  lemma CountIds(index: seq<IndexEntry>)
    requires DistinctIds(index)
    ensures |IdsOf(index)| == |index|
  {
    var ids := seq(|index|, i requires 0 <= i < |index| => index[i].id);
    DistinctCount(ids);
    assert IdsOf(index) == (set x | x in ids) by {
      assert forall i :: 0 <= i < |index| ==> ids[i] in ids && index[i] in index;
    }
  }

  ghost function UsedSlots(index: seq<IndexEntry>): set<nat> {
    set e | e in index :: e.slot
  }

  lemma CountUsed(index: seq<IndexEntry>)
    requires DistinctSlots(index)
    ensures |UsedSlots(index)| == |index|
  {
    var slots := seq(|index|, i requires 0 <= i < |index| => index[i].slot);
    DistinctCount(slots);
    assert UsedSlots(index) == (set x | x in slots) by {
      assert forall i :: 0 <= i < |index| ==> slots[i] in slots && index[i] in index;
    }
  }

  lemma SlotsPartitioned(t: Table)
    requires Valid(t)
    ensures Below(|t.streams|) == UsedSlots(t.index) + set k | k in t.free
    ensures UsedSlots(t.index) !! set k | k in t.free
  {
    Expose(t);
    forall k: nat | k < |t.streams|
      ensures k in UsedSlots(t.index) || k in t.free
    {
      if t.streams[k].inUse {
        assert Covered(t, k);
      } else {
        assert Usable(t.streams, k);
      }
    }
    forall k | k in UsedSlots(t.index)
      ensures k < |t.streams| && k !in t.free
    {
      var e :| e in t.index && e.slot == k;
      assert Points(t.streams, e);
    }
  }

  lemma SlotsAddUp(t: Table)
    requires Valid(t)
    ensures |t.streams| == |Ids(t)| + |t.free|
  {
    Expose(t);
    CountIds(t.index);
    CountUsed(t.index);
    DistinctCount(t.free);
    SlotsPartitioned(t);
  }

  /** The vector grows only when every slot is in use. */
  lemma RecycledBeforeGrowth(t: Table, id: Id)
    requires Valid(t) && id !in Ids(t)
    ensures |Acquire(t, id).streams| <= if |t.streams| > |Ids(t)| + 1 then |t.streams| else |Ids(t)| + 1
    ensures |Acquire(t, id).streams| > |t.streams| ==> |t.streams| == |Ids(t)|
  {
    AcquireValid(t, id);
    SlotsAddUp(t);
  }

  /** Without a stream under the expected id the renaming path starts a new one. */
  lemma RenameMissing(t: Table, expected: Id, actual: Id)
    requires Valid(t) && expected !in Ids(t) && actual !in Ids(t)
    ensures Valid(Rename(t, expected, actual)) && Model(Rename(t, expected, actual)) == Model(t)[actual := BLANK]
  {
    FindRefines(t, expected);
    AcquireRefines(t, actual);
  }

  /** The slot of a released stream is wiped and is the next to be used: no data of the old
      stream is left in it, and the new one takes its place. */
  lemma ReleasedIsReused(t: Table, id: Id, id': Id)
    requires Valid(t) && id in Ids(t) && id' !in Ids(t)
    ensures var t1 := Release(t, id);
            && t1.streams[SlotOf(t, id)] == Entry(0, false, BLANK)
            && Acquire(t1, id').streams == t.streams[SlotOf(t, id) := Entry(id', true, BLANK)]
            && Acquire(t1, id').free == t.free
  {
    FindRefines(t, id);
    var t1 := Release(t, id);
    assert t1.free[|t1.free| - 1] == SlotOf(t, id) && Usable(t1.streams, SlotOf(t, id));
    assert t1.free[..|t1.free| - 1] == t.free;
  }

  /** On any table, valid or not, a look-up that finds a stale entry takes that entry out of
      the index, keeps all others in their order, and changes nothing else. */
  lemma StaleEntryGoes(t: Table, k: nat)
    requires k < |t.index| && forall i :: 0 <= i < k ==> t.index[i].id != t.index[k].id
    ensures var e := t.index[k];
            var f := Find(t, e.id);
            var live := e.slot < |t.streams| && t.streams[e.slot].inUse && t.streams[e.slot].id == e.id;
            && f.slot == (if live then Some(e.slot) else None)
            && f.table.streams == t.streams && f.table.free == t.free
            && (live ==> f.table.index == t.index)
            && (!live ==> |f.table.index| == |t.index| - 1
                          && (forall i :: 0 <= i < k ==> f.table.index[i] == t.index[i])
                          && (forall i :: k <= i < |t.index| - 1 ==> f.table.index[i] == t.index[i + 1]))
  {
    assert Position(t.index, t.index[k].id) == k;
  }
}
