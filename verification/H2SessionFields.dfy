/** The session's slot and stream bookkeeping as methods on its fields.  Each computes
    the corresponding function of H2Session. */
module H2SessionFields {
  import opened StreamTables
  import opened StreamTableFields
  import S = H2Session

  lemma {:induction false} CallbacksAppend(a: seq<Entry>, b: seq<Entry>)
    ensures S.UnfinishedCallbacks(a + b) == S.UnfinishedCallbacks(a) + S.UnfinishedCallbacks(b)
  {
    if a == [] {
      assert a + b == b;
    } else {
      assert (a + b)[1..] == a[1..] + b;
      CallbacksAppend(a[1..], b);
    }
  }

  lemma CallbacksUpTo(streams: seq<Entry>, i: nat)
    requires i < |streams|
    ensures S.UnfinishedCallbacks(streams[..i + 1]) == S.UnfinishedCallbacks(streams[..i]) +
              if S.Unfinished(streams[i]) && streams[i].state.callback then [streams[i].id] else []
  {
    CallbacksAppend(streams[..i], [streams[i]]);
    assert streams[..i + 1] == streams[..i] + [streams[i]];
  }

  datatype Answer = Stopping | Granted | Queued

  class Session {
    const configured: nat
    const table: StreamTable
    var peer: nat
    var active: nat
    var waiters: seq<S.Ticket>
    var next: nat
    var stopping: bool
    var handled: seq<Id>
    ghost var living: set<S.Ticket>
    ghost var woken: set<S.Ticket>
    ghost var owners: set<Id>
    ghost var used: set<Id>
    ghost var submitted: set<Id>

    ghost function State(): S.Session
      reads this, table
    {
      S.Session(configured, peer, table.State(), active, owners, waiters, living, woken, next, used, submitted,
                multiset(handled), stopping)
    }

    constructor (configured: nat)
      ensures State() == S.Open(configured) && fresh(table)
    {
      this.configured := configured;
      table := new StreamTable();
      peer, active, next := 100, 0, 0;
      waiters, stopping, handled := [], false, [];
      living, woken := {}, {};
      owners, used, submitted := {}, {}, {};
    }

    method StreamLimit() returns (n: nat)
      ensures n == S.StreamLimit(State())
    {
      var mine := if configured == 0 then 1 else configured;
      var theirs := if peer == 0 then 1 else peer;
      n := if mine <= theirs then mine else theirs;
    }

    method WakeStreamWaiters()
      modifies this
      ensures State() == S.WakeStreamWaiters(old(State()))
    {
      var limit := StreamLimit();
      if waiters != [] && active < limit {
        if waiters[0] in living {
          woken := woken + {waiters[0]};
        }
        waiters := waiters[1..];
      }
    }

    method ReleaseStreamSlot()
      modifies this
      ensures State() == S.ReleaseSlot(old(State()))
    {
      if active > 0 {
        active := active - 1;
      }
      WakeStreamWaiters();
    }

    /** One pass of acquire_stream_slot: an error while the client stops, a slot, or a place
        in the queue. */
    method TryAcquireSlot() returns (answer: Answer)
      modifies this
      ensures answer == (if old(stopping) then Stopping
                         else if old(active) < S.StreamLimit(old(State())) then Granted else Queued)
      ensures State() == match answer
                         case Stopping => old(State())
                         case Granted => old(State()).(active := old(active) + 1)
                         case Queued => old(State()).(waiters := old(waiters) + [old(next)],
                                                      living := old(living) + {old(next)}, next := old(next) + 1)
    {
      if stopping {
        return Stopping;
      }
      var limit := StreamLimit();
      if active < limit {
        active := active + 1;
        return Granted;
      }
      waiters := waiters + [next];
      living := living + {next};
      next := next + 1;
      return Queued;
    }

    /** Ends a stream: complete_stream, and expire_streams for one stream. */
    method EndStream(id: Id, why: Failure)
      modifies this, table
      ensures State() == S.EndStream(old(State()), id, why)
    {
      ghost var before := table.State();
      var slot := table.FindEntry(id);
      if slot.None? {
        return;
      }
      assert table.State() == before;
      var state := table.streams[slot.value].state;
      if !state.callback {
        table.streams := table.streams[slot.value := table.streams[slot.value].(state := S.Ended(state, why))];
        return;
      }
      table.ReleaseEntry(id);
      ReleaseStreamSlot();
      handled := handled + [id];
    }

    /** Marks every unfinished stream done and collects the callback streams among them. */
    method MarkStreamsDone() returns (callbacks: seq<Id>)
      modifies table
      ensures table.State() == old(table.State()).(streams := S.MarkDone(old(table.streams)))
      ensures callbacks == S.UnfinishedCallbacks(old(table.streams))
    {
      ghost var start := table.streams;
      callbacks := [];
      var i := 0;
      while i < |table.streams|
        invariant 0 <= i <= |start| == |table.streams|
        invariant forall k :: i <= k < |start| ==> table.streams[k] == start[k]
        invariant forall k :: 0 <= k < i ==> table.streams[k] == S.MarkDone(start)[k]
        invariant callbacks == S.UnfinishedCallbacks(start[..i])
        invariant table.free == old(table.free) && table.index == old(table.index)
      {
        var e := table.streams[i];
        CallbacksUpTo(start, i);
        if e.inUse && !e.state.done {
          table.streams := table.streams[i := e.(state := S.Ended(e.state, ConnectionLost))];
          if e.state.callback {
            callbacks := callbacks + [e.id];
          }
        }
        i := i + 1;
      }
      assert start[..i] == start;
      assert table.streams == S.MarkDone(start);
    }

    method ReleaseFailed(callbacks: seq<Id>)
      modifies this, table
      ensures State() == old(State()).(
                table := S.ReleaseAll(old(table.State()), callbacks),
                active := if old(active) > |callbacks| then old(active) - |callbacks| else 0)
    {
      var j := 0;
      while j < |callbacks|
        invariant 0 <= j <= |callbacks|
        invariant S.ReleaseAll(table.State(), callbacks[j..]) == S.ReleaseAll(old(table.State()), callbacks)
        invariant active == if old(active) > j then old(active) - j else 0
        invariant State() == old(State()).(table := table.State(), active := active)
      {
        assert callbacks[j..][1..] == callbacks[j + 1..];
        table.ReleaseEntry(callbacks[j]);
        if active > 0 {
          active := active - 1;
        }
        j := j + 1;
      }
    }

    method FailAllStreams()
      modifies this, table
      ensures State() == S.FailAllStreams(old(State()))
    {
      var callbacks := MarkStreamsDone();
      ReleaseFailed(callbacks);
      handled := handled + callbacks;
      WakeStreamWaiters();
    }
  }
}
