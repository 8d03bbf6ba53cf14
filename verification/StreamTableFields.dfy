/** The stream table as the session keeps it: three vectors updated in place.  Every
    method computes the corresponding function of StreamTables on any contents. */
module StreamTableFields {
  import opened Optional
  import opened StreamTables

  class StreamTable {
    var streams: seq<Entry>
    var free: seq<nat>
    var index: seq<IndexEntry>

    ghost function State(): Table
      reads this
    {
      Table(streams, free, index)
    }

    constructor ()
      ensures State() == EMPTY_TABLE
    {
      streams, free, index := [], [], [];
    }

    /** Scans the index; drops an entry that points at a slot of another stream. */
    method FindEntry(id: Id) returns (slot: Option<nat>)
      modifies this
      ensures Found(State(), slot) == Find(old(State()), id)
    {
      var i := 0;
      while i < |index|
        invariant i <= |index| && State() == old(State())
        invariant i <= Position(index, id)
      {
        if index[i].id == id {
          var s := index[i].slot;
          if s >= |streams| || !streams[s].inUse || streams[s].id != id {
            index := index[..i] + index[i + 1..];
            return None;
          }
          return Some(s);
        }
        i := i + 1;
      }
      slot := None;
    }

    /** Overwrites the entry with the last one and shortens the index. */
    method EraseStreamIndex(id: Id)
      modifies this
      ensures State() == old(State()).(index := EraseIndex(old(index), id))
    {
      var i := 0;
      while i < |index| && index[i].id != id
        invariant i <= |index| && State() == old(State())
        invariant i <= Position(index, id)
      {
        i := i + 1;
      }
      if i < |index| {
        index := index[i := index[|index| - 1]];
        index := index[..|index| - 1];
      }
    }

    /** Reuses the last usable slot of the free list before it appends a new one. */
    method AcquireEntry(id: Id) returns (slot: nat)
      modifies this
      ensures State() == Acquire(old(State()), id)
      ensures slot < |streams| && streams[slot] == Entry(id, true, BLANK)
      ensures |index| == |old(index)| + 1 && index[|old(index)|] == IndexEntry(id, slot)
    {
      while free != []
        invariant State() == old(State()).(free := free)
        invariant free <= old(free)
        invariant LastUsable(streams, free) == LastUsable(streams, old(free))
        decreases |free|
      {
        slot := free[|free| - 1];
        free := free[..|free| - 1];
        if slot < |streams| && !streams[slot].inUse {
          streams := streams[slot := Entry(id, true, BLANK)];
          index := index + [IndexEntry(id, slot)];
          return;
        }
      }
      streams := streams + [Entry(id, true, BLANK)];
      slot := |streams| - 1;
      index := index + [IndexEntry(id, slot)];
    }

    method ReleaseEntry(id: Id)
      modifies this
      ensures State() == Release(old(State()), id)
    {
      var slot := FindEntry(id);
      if slot.Some? {
        EraseStreamIndex(id);
        streams := streams[slot.value := Entry(0, false, BLANK)];
        free := free + [slot.value];
      }
    }

    /** The tail of submit_stream for an id that differs from the expected one. */
    method RenameEntry(expected: Id, actual: Id)
      modifies this
      ensures State() == Rename(old(State()), expected, actual)
    {
      var slot := FindEntry(expected);
      if slot.Some? {
        EraseStreamIndex(expected);
        streams := streams[slot.value := streams[slot.value].(id := actual)];
        index := index + [IndexEntry(actual, slot.value)];
      } else {
        var _ := AcquireEntry(actual);
      }
    }
  }
}
