/** Stream deadlines with lazy deletion: stale entries stay in the heap until they reach
    its front.  A pass over the heap has the effect of a plain scan of all streams. */
module StreamDeadlines {
  import opened StreamTables
  import opened DeadlineHeaps

  /** When a stream starts and how long it may take. */
  datatype Timing = Timing(now: int, total: int, write: int, readTimeout: int)

  /** The state that submit_stream gives a stream. */
  function Started(callback: bool, t: Timing): Stream {
    Stream(false, callback, At(t.now + t.total), At(t.now + t.write), Never, t.readTimeout, NoFailure)
  }

  /** A response header ends the write deadline and restarts the read deadline. */
  function AfterHeader(s: Stream, now: int): Stream {
    s.(write := Never, read := if s.readTimeout > 0 then At(now + s.readTimeout) else s.read)
  }

  /** A body chunk restarts the read deadline. */
  function AfterData(s: Stream, now: int): Stream {
    s.(read := if s.readTimeout > 0 then At(now + s.readTimeout) else s.read)
  }

  function DeadlineFor(s: Stream, kind: Kind): Deadline {
    match kind
    case Total => s.total
    case Write => s.write
    case Read => s.read
  }

  /** The heap entry states a deadline that its stream still has. */
  predicate Current(streams: map<Id, Stream>, e: HeapEntry) {
    e.id in streams && !streams[e.id].done && DeadlineFor(streams[e.id], e.kind) == At(e.deadline)
  }

  predicate IsDue(s: Stream, kind: Kind, now: int) {
    DeadlineFor(s, kind).At? && DeadlineFor(s, kind).time <= now
  }

  /** The plain scan: an unfinished stream with any deadline that has passed. */
  predicate Due(s: Stream, now: int) {
    !s.done && (IsDue(s, Total, now) || IsDue(s, Write, now) || IsDue(s, Read, now))
  }

  /** No other deadline of the stream comes before the one of this kind. */
  ghost predicate Earliest(s: Stream, kind: Kind) {
    DeadlineFor(s, kind).At?
    && forall k: Kind :: DeadlineFor(s, k).At? ==> DeadlineFor(s, kind).time <= DeadlineFor(s, k).time
  }

  ghost predicate Expired(before: Stream, after: Stream) {
    after.failure.TimedOut? && Earliest(before, after.failure.kind)
    && after == before.(done := true, failure := after.failure)
  }

  ghost predicate TrackedAt(streams: map<Id, Stream>, pending: multiset<HeapEntry>, id: Id, kind: Kind) {
    id in streams && !streams[id].done && DeadlineFor(streams[id], kind).At? ==>
      HeapEntry(DeadlineFor(streams[id], kind).time, id, kind) in pending
  }

  /** Every deadline of an unfinished stream has an entry in the heap. */
  ghost predicate Tracked(streams: map<Id, Stream>, pending: multiset<HeapEntry>) {
    forall id, kind: Kind :: TrackedAt(streams, pending, id, kind)
  }

  // ---------------------------------------------------------------------------
  // A pass, entry by entry
  // ---------------------------------------------------------------------------

  /** What a pass may have done to one stream so far. */
  ghost predicate SettledAt(before: map<Id, Stream>, after: map<Id, Stream>, handled: seq<Id>, now: int, id: Id) {
    if id !in before then id !in after && id !in handled
    else if id in after && after[id] == before[id] then id !in handled
    else
      && Due(before[id], now)
      && (if before[id].callback then id !in after && id in handled
          else id in after && id !in handled && Expired(before[id], after[id]))
  }

  ghost predicate Partial(before: map<Id, Stream>, after: map<Id, Stream>, handled: seq<Id>, now: int) {
    && (forall id :: SettledAt(before, after, handled, now, id))
    && (forall i, j :: 0 <= i < j < |handled| ==> handled[i] != handled[j])
  }

  ghost predicate ExpiredAt(before: map<Id, Stream>, after: map<Id, Stream>, handled: seq<Id>, now: int, id: Id) {
    if id !in before then id !in after && id !in handled
    else if !Due(before[id], now) then id in after && after[id] == before[id] && id !in handled
    else if before[id].callback then id !in after && id in handled
    else id in after && id !in handled && Expired(before[id], after[id])
  }

  /** A whole pass: exactly the due streams are finished, with the message of their
      earliest deadline, and the handler of each due callback stream runs once. */
  ghost predicate ExpiredExactly(before: map<Id, Stream>, after: map<Id, Stream>, handled: seq<Id>, now: int) {
    && (forall id :: ExpiredAt(before, after, handled, now, id))
    && (forall i, j :: 0 <= i < j < |handled| ==> handled[i] != handled[j])
  }

  lemma StaleIsUseless(streams: map<Id, Stream>, pending: multiset<HeapEntry>, e: HeapEntry)
    requires Tracked(streams, pending) && !Current(streams, e)
    ensures Tracked(streams, pending - multiset{e})
  {
    forall id, kind: Kind
      ensures TrackedAt(streams, pending - multiset{e}, id, kind)
    {
      assert TrackedAt(streams, pending, id, kind);
    }
  }

  /** One stream changes and the entries of its deadlines are there. */
  lemma TrackedAfter(streams: map<Id, Stream>, streams': map<Id, Stream>,
                     pending: multiset<HeapEntry>, pending': multiset<HeapEntry>, id: Id)
    requires Tracked(streams, pending)
    requires id in streams' && streams' == streams[id := streams'[id]]
    requires forall e :: e in pending && e.id != id ==> e in pending'
    requires forall kind: Kind :: TrackedAt(streams', pending', id, kind)
    ensures Tracked(streams', pending')
  {
    forall other, kind: Kind
      ensures TrackedAt(streams', pending', other, kind)
    {
      assert TrackedAt(streams, pending, other, kind);
    }
  }

  /** The read deadline of a stream is restarted with an entry of its own, or stays as it was,
      and its write deadline may end. */
  lemma RestartTracked(streams: map<Id, Stream>, streams': map<Id, Stream>,
                       pending: multiset<HeapEntry>, pending': multiset<HeapEntry>, id: Id, now: int)
    requires Tracked(streams, pending) && id in streams && id in streams' && streams' == streams[id := streams'[id]]
    requires var s, s' := streams[id], streams'[id];
             && s'.done == s.done && s'.total == s.total && (s'.write == s.write || s'.write == Never)
             && (if s.readTimeout > 0
                 then s'.read == At(now + s.readTimeout)
                      && pending' == pending + multiset{HeapEntry(now + s.readTimeout, id, Read)}
                 else s'.read == s.read && pending' == pending)
    ensures Tracked(streams', pending')
  {
    forall kind: Kind
      ensures TrackedAt(streams', pending', id, kind)
    {
      assert TrackedAt(streams, pending, id, kind);
    }
    TrackedAfter(streams, streams', pending, pending', id);
  }

  lemma TrackedWithout(streams: map<Id, Stream>, pending: multiset<HeapEntry>, pending': multiset<HeapEntry>, id: Id)
    requires Tracked(streams, pending)
    requires forall e :: e in pending && e.id != id ==> e in pending'
    ensures Tracked(streams - {id}, pending')
  {
    forall other, kind: Kind
      ensures TrackedAt(streams - {id}, pending', other, kind)
    {
      assert TrackedAt(streams, pending, other, kind);
    }
  }

  /** A current front entry names the earliest deadline of its stream. */
  lemma FrontIsEarliest(streams: map<Id, Stream>, h: seq<HeapEntry>)
    requires HeapOrdered(h) && h != [] && Tracked(streams, multiset(h)) && Current(streams, h[0])
    ensures Earliest(streams[h[0].id], h[0].kind)
  {
    var s := streams[h[0].id];
    forall k: Kind | DeadlineFor(s, k).At?
      ensures h[0].deadline <= DeadlineFor(s, k).time
    {
      assert TrackedAt(streams, multiset(h), h[0].id, k);
      FrontBelowAll(h, HeapEntry(DeadlineFor(s, k).time, h[0].id, k));
    }
  }

  lemma DueIfPast(s: Stream, kind: Kind, now: int)
    requires !s.done && IsDue(s, kind, now)
    ensures Due(s, now)
  {
    match kind
    case Total =>
    case Write =>
    case Read =>
  }

  /** Finishing the stream of a current entry that has passed is one step of the pass. */
  lemma FinishOne(before: map<Id, Stream>, after: map<Id, Stream>, handled: seq<Id>, now: int, e: HeapEntry)
    requires Partial(before, after, handled, now)
    requires Current(after, e) && e.deadline <= now && Earliest(after[e.id], e.kind)
    ensures var s := after[e.id];
            if s.callback then Partial(before, after - {e.id}, handled + [e.id], now)
            else Partial(before, after[e.id := s.(done := true, failure := TimedOut(e.kind))], handled, now)
  {
    var s := after[e.id];
    assert SettledAt(before, after, handled, now, e.id);
    DueIfPast(s, e.kind, now);
    var after' := if s.callback then after - {e.id} else after[e.id := s.(done := true, failure := TimedOut(e.kind))];
    var handled' := if s.callback then handled + [e.id] else handled;
    forall id
      ensures SettledAt(before, after', handled', now, id)
    {
      assert SettledAt(before, after, handled, now, id);
    }
  }

  /** When the front has not passed, the pass is complete. */
  lemma PassComplete(before: map<Id, Stream>, after: map<Id, Stream>, handled: seq<Id>, now: int, h: seq<HeapEntry>)
    requires Partial(before, after, handled, now)
    requires HeapOrdered(h) && Tracked(after, multiset(h))
    requires h == [] || h[0].deadline > now
    ensures ExpiredExactly(before, after, handled, now)
  {
    forall id
      ensures ExpiredAt(before, after, handled, now, id)
    {
      assert SettledAt(before, after, handled, now, id);
      if id in before && Due(before[id], now) && id in after && after[id] == before[id] {
        var kind := if IsDue(before[id], Total, now) then Total
                    else if IsDue(before[id], Write, now) then Write else Read;
        assert TrackedAt(after, multiset(h), id, kind);
        FrontBelowAll(h, HeapEntry(DeadlineFor(after[id], kind).time, id, kind));
        assert false;
      }
    }
  }

  // ---------------------------------------------------------------------------
  // What a pass means for one stream
  // ---------------------------------------------------------------------------

  predicate Past(d: Deadline, now: int) {
    d.At? && d.time <= now
  }

  predicate NotAfter(d: Deadline, e: Deadline) {
    d.At? && (e.At? ==> d.time <= e.time)
  }

  /** The pass left the stream without its entry in the map, or finished. */
  predicate EndedBy(after: map<Id, Stream>, id: Id) {
    id !in after || after[id].done
  }

  /** An unfinished stream is ended exactly if its total, its write or its read deadline is
      past, and with the message of the one that comes first. */
  lemma EndedExactly(before: map<Id, Stream>, after: map<Id, Stream>, handled: seq<Id>, now: int, id: Id)
    requires ExpiredExactly(before, after, handled, now) && id in before && !before[id].done
    ensures var s := before[id];
            && (EndedBy(after, id) <==> Past(s.total, now) || Past(s.write, now) || Past(s.read, now))
            && (EndedBy(after, id) && s.callback ==> id !in after && id in handled)
            && (EndedBy(after, id) && !s.callback ==>
                  && id in after && id !in handled && after[id].failure.TimedOut?
                  && after[id] == s.(done := true, failure := after[id].failure)
                  && match after[id].failure.kind
                     case Total => NotAfter(s.total, s.write) && NotAfter(s.total, s.read)
                     case Write => NotAfter(s.write, s.total) && NotAfter(s.write, s.read)
                     case Read => NotAfter(s.read, s.total) && NotAfter(s.read, s.write))
            && (!EndedBy(after, id) ==> after[id] == s && id !in handled)
  {
    var s := before[id];
    assert ExpiredAt(before, after, handled, now, id);
    assert DeadlineFor(s, Total) == s.total && DeadlineFor(s, Write) == s.write && DeadlineFor(s, Read) == s.read;
  }

  /** A stream that last heard from the peer at t0, and whose other deadlines are not past, is
      ended exactly when its read timeout has gone by since, and then as a read timeout. */
  lemma ReadTimeoutExactly(before: map<Id, Stream>, after: map<Id, Stream>, handled: seq<Id>, now: int,
                           id: Id, t0: int)
    requires ExpiredExactly(before, after, handled, now) && id in before && !before[id].done
    requires before[id].readTimeout > 0 && before[id].read == At(t0 + before[id].readTimeout)
    requires !Past(before[id].total, now) && !Past(before[id].write, now)
    ensures EndedBy(after, id) <==> now >= t0 + before[id].readTimeout
    ensures EndedBy(after, id) && id in after ==> after[id].failure == TimedOut(Read)
  {
    EndedExactly(before, after, handled, now, id);
  }

  // ---------------------------------------------------------------------------
  // The session's fields
  // ---------------------------------------------------------------------------

  class DeadlineQueue {
    var streams: map<Id, Stream>
    var heap: seq<HeapEntry>

    /** Kept by every method below, hence by every history of events. */
    ghost predicate Valid()
      reads this
    {
      HeapOrdered(heap) && Tracked(streams, multiset(heap))
    }

    constructor ()
      ensures Valid() && streams == map[] && heap == []
    {
      streams, heap := map[], [];
    }

    method AddDeadline(id: Id, kind: Kind, deadline: Deadline)
      requires HeapOrdered(heap)
      modifies this`heap
      ensures HeapOrdered(heap)
      ensures multiset(heap) == if deadline.Never? then multiset(old(heap))
                                else multiset(old(heap)) + multiset{HeapEntry(deadline.time, id, kind)}
    {
      if deadline.At? {
        heap := PushHeap(heap, HeapEntry(deadline.time, id, kind));
      }
    }

    /** Drops stale entries from the front. */
    method Prune()
      requires Valid()
      modifies this`heap
      ensures Valid()
      ensures multiset(heap) <= multiset(old(heap)) && |heap| <= |old(heap)|
      ensures heap != [] ==> Current(streams, heap[0])
      ensures forall e :: e in multiset(old(heap)) && Current(streams, e) ==> e in multiset(heap)
    {
      while heap != [] && !Current(streams, heap[0])
        invariant Valid() && streams == old(streams)
        invariant multiset(heap) <= multiset(old(heap)) && |heap| <= |old(heap)|
        invariant forall e :: e in multiset(old(heap)) && Current(streams, e) ==> e in multiset(heap)
        decreases |heap|
      {
        StaleIsUseless(streams, multiset(heap), heap[0]);
        ghost var front := heap[0];
        ghost var size := |multiset(heap)|;
        heap := PopHeap(heap);
        assert |multiset(heap)| == size - 1;
      }
    }

    /** The deadlines that submit_stream gives a stream. */
    method Submit(id: Id, callback: bool, timing: Timing)
      requires Valid()
      modifies this
      ensures Valid()
      ensures streams == old(streams)[id := Stream(false, callback, At(timing.now + timing.total),
                                                   At(timing.now + timing.write), Never, timing.readTimeout, NoFailure)]
    {
      ghost var pending := multiset(heap);
      var state := Started(callback, timing);
      streams := streams[id := state];
      AddDeadline(id, Total, state.total);
      AddDeadline(id, Write, state.write);
      TrackedAfter(old(streams), streams, pending, multiset(heap), id);
      Prune();
    }

    /** A response header: the write deadline ends and the read deadline restarts. */
    method OnHeader(id: Id, now: int)
      requires Valid()
      modifies this
      ensures Valid()
      ensures id !in old(streams) ==> streams == old(streams)
      ensures id in old(streams) ==>
                var s := old(streams)[id];
                streams == old(streams)[id := s.(write := Never,
                                                 read := if s.readTimeout > 0 then At(now + s.readTimeout) else s.read)]
    {
      if id in streams {
        var s := streams[id];
        ghost var pending := multiset(heap);
        ghost var before := streams;
        streams := streams[id := AfterHeader(s, now)];
        if s.readTimeout > 0 {
          AddDeadline(id, Read, At(now + s.readTimeout));
        }
        RestartTracked(before, streams, pending, multiset(heap), id, now);
        if s.readTimeout > 0 {
          Prune();
        }
      }
    }

    /** A body chunk: the read deadline restarts. */
    method OnData(id: Id, now: int)
      requires Valid()
      modifies this
      ensures Valid()
      ensures id !in old(streams) ==> streams == old(streams)
      ensures id in old(streams) ==>
                var s := old(streams)[id];
                streams == old(streams)[id := s.(read := if s.readTimeout > 0 then At(now + s.readTimeout) else s.read)]
    {
      if id in streams && streams[id].readTimeout > 0 {
        var s := streams[id];
        ghost var pending := multiset(heap);
        ghost var before := streams;
        streams := streams[id := AfterData(s, now)];
        AddDeadline(id, Read, At(now + s.readTimeout));
        RestartTracked(before, streams, pending, multiset(heap), id, now);
        Prune();
      } else if id in streams {
        assert streams[id := streams[id]] == streams;
      }
    }

    /** A stream is finished or leaves the table; its entries stay in the heap. */
    method Finish(id: Id, leaves: bool, why: Failure)
      requires Valid()
      modifies this`streams
      ensures Valid()
      ensures streams == if leaves then old(streams) - {id}
                         else if id !in old(streams) then old(streams)
                         else if why.NoFailure? then old(streams)[id := old(streams)[id].(done := true)]
                         else old(streams)[id := old(streams)[id].(done := true, failure := why)]
    {
      if leaves {
        TrackedWithout(streams, multiset(heap), multiset(heap), id);
        streams := streams - {id};
      } else if id in streams {
        var s := streams[id].(done := true, failure := if why.NoFailure? then streams[id].failure else why);
        TrackedAfter(streams, streams[id := s], multiset(heap), multiset(heap), id);
        streams := streams[id := s];
      }
    }

    /** One pass of expire_streams at time now. */
    method ExpireStreams(now: int) returns (handled: seq<Id>)
      requires Valid()
      modifies this
      ensures Valid()
      ensures ExpiredExactly(old(streams), streams, handled, now)
    {
      handled := [];
      Prune();
      while heap != [] && heap[0].deadline <= now
        invariant Valid() && (heap != [] ==> Current(streams, heap[0]))
        invariant Partial(old(streams), streams, handled, now)
        decreases |heap|
      {
        var e := heap[0];
        FrontIsEarliest(streams, heap);
        FinishOne(old(streams), streams, handled, now, e);
        ghost var pending := multiset(heap);
        ghost var size := |multiset(heap)|;
        heap := PopHeap(heap);
        assert |multiset(heap)| == size - 1;
        var s := streams[e.id];
        if s.callback {
          TrackedWithout(streams, pending, multiset(heap), e.id);
          streams := streams - {e.id};
          handled := handled + [e.id];
        } else {
          ghost var before := streams;
          streams := streams[e.id := s.(done := true, failure := TimedOut(e.kind))];
          TrackedAfter(before, streams, pending, multiset(heap), e.id);
        }
        Prune();
      }
      PassComplete(old(streams), streams, handled, now, heap);
    }
  }
}
