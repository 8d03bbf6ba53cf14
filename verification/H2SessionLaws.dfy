/** Laws of every run of one connection: slots are conserved, the limit holds, handlers
    run once, and body sources never move. */
module H2SessionLaws {
  import opened Sequences
  import opened StreamTables
  import opened StreamDeadlines
  import opened H2Session
  import opened Runs

  ghost function Callbacks(m: map<Id, Stream>): set<Id> {
    set id | id in m && m[id].callback
  }

  ghost predicate OwnedAt(m: map<Id, Stream>, owners: set<Id>, id: Id) {
    && (id in owners ==> id in m)
    && (id in m ==> (m[id].callback <==> id !in owners) && (m[id].callback ==> !m[id].done))
  }

  /** Every live stream has exactly one owner: a request coroutine or itself. */
  ghost predicate Owned(m: map<Id, Stream>, owners: set<Id>) {
    forall id :: OwnedAt(m, owners, id)
  }

  ghost predicate HandledAt(m: map<Id, Stream>, submitted: set<Id>, handled: multiset<Id>, id: Id) {
    handled[id] == if id in submitted && id !in m then 1 else 0
  }

  /** The handler of a submitted callback stream ran exactly if the stream is gone. */
  ghost predicate HandledOnce(m: map<Id, Stream>, submitted: set<Id>, handled: multiset<Id>) {
    forall id :: HandledAt(m, submitted, handled, id)
  }

  /** The account of slots and handlers over the streams of m. */
  ghost predicate Books(m: map<Id, Stream>, owners: set<Id>, active: nat, used: set<Id>,
                        submitted: set<Id>, handled: multiset<Id>) {
    && Owned(m, owners)
    && active == |owners| + |Callbacks(m)|
    && m.Keys <= used && submitted <= used
    && owners !! submitted
    && Callbacks(m) <= submitted
    && HandledOnce(m, submitted, handled)
  }

  ghost predicate Conserved(s: Session) {
    && Valid(s.table)
    && Books(Model(s.table), s.owners, s.active, s.used, s.submitted, s.handled)
    && s.active <= AtLeastOne(s.configured)
    && |s.table.streams| <= AtLeastOne(s.configured)
  }

  // ---------------------------------------------------------------------------
  // Counting
  // ---------------------------------------------------------------------------

  lemma LiveCount(m: map<Id, Stream>, owners: set<Id>)
    requires Owned(m, owners)
    ensures |m.Keys| == |owners| + |Callbacks(m)|
  {
    forall id
      ensures (id in m.Keys <==> id in owners + Callbacks(m)) && !(id in owners && id in Callbacks(m))
    {
      assert OwnedAt(m, owners, id);
    }
    assert m.Keys == owners + Callbacks(m);
  }

  lemma OwnerLeft(m: map<Id, Stream>, owners: set<Id>, id: Id)
    requires Owned(m, owners) && id in owners
    ensures Owned(m - {id}, owners - {id})
    ensures Callbacks(m - {id}) == Callbacks(m)
  {
    forall x
      ensures OwnedAt(m - {id}, owners - {id}, x)
    {
      assert OwnedAt(m, owners, x);
    }
    assert OwnedAt(m, owners, id);
  }

  lemma CallbackLeft(m: map<Id, Stream>, owners: set<Id>, id: Id)
    requires Owned(m, owners) && id in m && m[id].callback
    ensures Owned(m - {id}, owners)
    ensures Callbacks(m - {id}) == Callbacks(m) - {id}
  {
    forall x
      ensures OwnedAt(m - {id}, owners, x)
    {
      assert OwnedAt(m, owners, x);
    }
  }

  lemma Joined(m: map<Id, Stream>, owners: set<Id>, id: Id, state: Stream)
    requires Owned(m, owners) && id !in m && !state.done
    ensures var m' := m[id := state];
            && (state.callback ==> Owned(m', owners) && Callbacks(m') == Callbacks(m) + {id})
            && (!state.callback ==> Owned(m', owners + {id}) && Callbacks(m') == Callbacks(m))
  {
    var m' := m[id := state];
    var owners' := if state.callback then owners else owners + {id};
    forall x
      ensures OwnedAt(m', owners', x)
    {
      assert OwnedAt(m, owners, x);
    }
  }

  // ---------------------------------------------------------------------------
  // Submission
  // ---------------------------------------------------------------------------

  /** The streams of t are in t' where they were. */
  ghost predicate InPlace(t: Table, t': Table)
    requires Valid(t) && Valid(t')
  {
    forall id :: id in Slots(t) ==> id in Slots(t') && Slots(t')[id] == Slots(t)[id]
  }

  lemma Refused(t: Table, a: Table, id: Id)
    requires Valid(t) && Valid(a) && id !in Ids(t)
    requires Model(a) == Model(t)[id := BLANK] && id in Slots(a) && Slots(a) == Slots(t)[id := Slots(a)[id]]
    ensures var t' := Release(a, id);
            Valid(t') && Model(t') == Model(t) && Slots(t') == Slots(t) && |t'.streams| == |a.streams|
  {
    ReleaseRefines(a, id);
    ReleaseValid(a, id);
    Forget(Model(t), id, BLANK);
    Forget(Slots(t), id, Slots(a)[id]);
  }

  lemma Forget<V>(m: map<Id, V>, id: Id, v: V)
    requires id !in m
    ensures m[id := v] - {id} == m
  {
  }

  lemma Direct(t: Table, a: Table, id: Id, state: Stream)
    requires Valid(t) && Valid(a) && id in Ids(a)
    requires Model(a) == Model(t)[id := BLANK]
    ensures var t' := Store(a, id, state);
            && Valid(t') && Model(t') == Model(t)[id := state]
            && Slots(t') == Slots(a) && |t'.streams| == |a.streams|
  {
    StoreRefines(a, id, state);
    FindRefines(a, id);
    Overwrite(Model(t), id, BLANK, state);
  }

  lemma Overwrite<V>(m: map<Id, V>, id: Id, v: V, w: V)
    ensures m[id := v][id := w] == m[id := w]
  {
  }

  lemma Moved(t: Table, a: Table, expected: Id, actual: Id)
    requires Valid(t) && Valid(a) && expected !in Ids(t) && actual !in Ids(t) && actual != expected
    requires expected in Slots(a) && actual !in Slots(a)
    requires Model(a) == Model(t)[expected := BLANK] && Slots(a) == Slots(t)[expected := Slots(a)[expected]]
    ensures var t' := Rename(a, expected, actual);
            && Valid(t') && Model(t') == Model(t)[actual := BLANK]
            && actual in Slots(t') && Slots(t') == Slots(t)[actual := Slots(t')[actual]]
            && |t'.streams| == |a.streams|
  {
    RenameRefines(a, expected, actual);
    FindRefines(a, expected);
    Forget(Model(t), expected, BLANK);
    Forget(Slots(t), expected, Slots(a)[expected]);
  }

  lemma SubmittedRefines(t: Table, sub: Submission)
    requires Valid(t) && sub.expected !in Ids(t) && sub.actual !in Ids(t)
    ensures var t' := SubmittedTable(t, sub);
            && Valid(t')
            && Model(t') == (if sub.accepted then Model(t)[sub.actual := Started(sub.callback, sub.timing)]
                          else Model(t))
            && InPlace(t, t')
            && |t'.streams| <= if |t.streams| > |Ids(t)| + 1 then |t.streams| else |Ids(t)| + 1
  {
    AcquireRefines(t, sub.expected);
    RecycledBeforeGrowth(t, sub.expected);
    var a := Acquire(t, sub.expected);
    if !sub.accepted {
      Refused(t, a, sub.expected);
    } else if sub.actual == sub.expected {
      Direct(t, a, sub.actual, Started(sub.callback, sub.timing));
    } else {
      Moved(t, a, sub.expected, sub.actual);
      Direct(t, Rename(a, sub.expected, sub.actual), sub.actual, Started(sub.callback, sub.timing));
    }
  }

  // ---------------------------------------------------------------------------
  // The account, step by step
  // ---------------------------------------------------------------------------

  lemma BookSubmission(m: map<Id, Stream>, owners: set<Id>, active: nat, used: set<Id>,
                       submitted: set<Id>, handled: multiset<Id>, id: Id, state: Stream)
    requires Books(m, owners, active, used, submitted, handled) && id !in used && !state.done
    ensures var m' := m[id := state];
            if state.callback then Books(m', owners, active + 1, used + {id}, submitted + {id}, handled)
            else Books(m', owners + {id}, active + 1, used + {id}, submitted, handled)
  {
    var m' := m[id := state];
    Joined(m, owners, id, state);
    assert OwnedAt(m, owners, id) && id !in m.Keys;
    var submitted' := if state.callback then submitted + {id} else submitted;
    forall x
      ensures HandledAt(m', submitted', handled, x)
    {
      assert HandledAt(m, submitted, handled, x);
    }
  }

  lemma BookOwnerLeft(m: map<Id, Stream>, owners: set<Id>, active: nat, used: set<Id>,
                      submitted: set<Id>, handled: multiset<Id>, id: Id)
    requires Books(m, owners, active, used, submitted, handled) && id in owners
    ensures active > 0 && Books(m - {id}, owners - {id}, active - 1, used, submitted, handled)
  {
    OwnerLeft(m, owners, id);
    forall x
      ensures HandledAt(m - {id}, submitted, handled, x)
    {
      assert HandledAt(m, submitted, handled, x);
    }
  }

  lemma BookCallbackLeft(m: map<Id, Stream>, owners: set<Id>, active: nat, used: set<Id>,
                         submitted: set<Id>, handled: multiset<Id>, id: Id)
    requires Books(m, owners, active, used, submitted, handled) && id in m && m[id].callback
    ensures active > 0 && Books(m - {id}, owners, active - 1, used, submitted, handled + multiset{id})
  {
    CallbackLeft(m, owners, id);
    assert id in Callbacks(m) && id in submitted;
    forall x
      ensures HandledAt(m - {id}, submitted, handled + multiset{id}, x)
    {
      assert HandledAt(m, submitted, handled, x);
    }
  }

  /** A stream keeps its mode, and does not finish in callback mode. */
  predicate Replaces(state: Stream, before: Stream) {
    state.callback == before.callback && (state.callback && !before.done ==> !state.done)
  }

  lemma BookChange(m: map<Id, Stream>, owners: set<Id>, active: nat, used: set<Id>,
                   submitted: set<Id>, handled: multiset<Id>, id: Id, state: Stream)
    requires Books(m, owners, active, used, submitted, handled) && id in m && Replaces(state, m[id])
    ensures Books(m[id := state], owners, active, used, submitted, handled)
  {
    var m' := m[id := state];
    assert Callbacks(m') == Callbacks(m);
    forall x
      ensures OwnedAt(m', owners, x) && HandledAt(m', submitted, handled, x)
    {
      assert OwnedAt(m, owners, x) && HandledAt(m, submitted, handled, x);
    }
    assert id in m.Keys;
  }

  // ---------------------------------------------------------------------------
  // Failing every stream
  // ---------------------------------------------------------------------------

  /** Unfinished streams are finished, with an error; finished ones stay as they are. */
  ghost function AllDone(m: map<Id, Stream>): map<Id, Stream> {
    map id | id in m :: if m[id].done then m[id] else m[id].(done := true, failure := ConnectionLost)
  }

  lemma MarkDoneValid(t: Table)
    requires Valid(t)
    ensures var t' := t.(streams := MarkDone(t.streams)); Valid(t') && Slots(t') == Slots(t)
  {
    Expose(t);
    var t' := t.(streams := MarkDone(t.streams));
    assert forall k: nat :: Usable(t'.streams, k) == Usable(t.streams, k);
    assert forall k: nat :: Covered(t, k) ==> Covered(t', k);
    forall e
      ensures Points(t'.streams, e) == Points(t.streams, e)
    {
    }
    Conceal(t');
  }

  lemma MarkDoneRefines(t: Table)
    requires Valid(t)
    ensures var t' := t.(streams := MarkDone(t.streams));
            Valid(t') && Slots(t') == Slots(t) && Model(t') == AllDone(Model(t))
  {
    MarkDoneValid(t);
    var t' := t.(streams := MarkDone(t.streams));
    forall id | id in Slots(t)
      ensures t'.streams[Slots(t)[id]].state == AllDone(Model(t))[id]
    {
      SlotPoints(t, id);
    }
    ResolveIs(t'.streams, Slots(t), AllDone(Model(t)));
  }

  lemma TakeTwice<V>(m: map<Id, V>, ids: seq<Id>)
    requires ids != []
    ensures m - {ids[0]} - (set id | id in ids[1..]) == m - (set id | id in ids)
  {
    assert (set id | id in ids) == {ids[0]} + (set id | id in ids[1..]);
  }

  lemma TakeNothing<V>(m: map<Id, V>)
    ensures var none: seq<Id> := []; m - (set id | id in none) == m
  {
  }

  lemma {:induction false} ReleaseAllRefines(t: Table, ids: seq<Id>)
    requires Valid(t)
    ensures Valid(ReleaseAll(t, ids))
    ensures Model(ReleaseAll(t, ids)) == Model(t) - (set id | id in ids)
    ensures Slots(ReleaseAll(t, ids)) == Slots(t) - (set id | id in ids)
    ensures |ReleaseAll(t, ids).streams| == |t.streams|
    decreases |ids|
  {
    if ids == [] {
      TakeNothing(Model(t));
      TakeNothing(Slots(t));
    } else {
      ReleaseRefines(t, ids[0]);
      ReleaseKeepsLength(t, ids[0]);
      ReleaseAllRefines(Release(t, ids[0]), ids[1..]);
      TakeTwice(Model(t), ids);
      TakeTwice(Slots(t), ids);
    }
  }

  lemma ReleaseKeepsLength(t: Table, id: Id)
    ensures |Release(t, id).streams| == |t.streams|
  {
  }

  predicate FailsCallback(streams: seq<Entry>, k: nat, id: Id) {
    k < |streams| && Unfinished(streams[k]) && streams[k].state.callback && streams[k].id == id
  }

  ghost predicate InUseApart(streams: seq<Entry>) {
    forall i, j :: 0 <= i < j < |streams| && streams[i].inUse && streams[j].inUse ==> streams[i].id != streams[j].id
  }

  lemma {:induction false} CallbackIdsExact(streams: seq<Entry>)
    requires InUseApart(streams)
    ensures forall id :: id in UnfinishedCallbacks(streams) ==> exists k: nat :: FailsCallback(streams, k, id)
    ensures forall k: nat, id :: FailsCallback(streams, k, id) ==> id in UnfinishedCallbacks(streams)
    ensures NoRepeats(UnfinishedCallbacks(streams))
  {
    if streams != [] {
      var tail := streams[1..];
      CallbackIdsExact(tail);
      forall id | id in UnfinishedCallbacks(tail)
        ensures exists k: nat :: FailsCallback(streams, k, id)
        ensures streams[0].inUse ==> id != streams[0].id
      {
        var k: nat :| FailsCallback(tail, k, id);
        assert streams[k + 1] == tail[k];
        assert FailsCallback(streams, k + 1, id);
      }
      var rest := UnfinishedCallbacks(tail);
      forall j | 0 <= j < |rest|
        ensures streams[0].inUse ==> rest[j] != streams[0].id
      {
        assert rest[j] in rest;
      }
      if Unfinished(streams[0]) && streams[0].state.callback {
        assert FailsCallback(streams, 0, streams[0].id);
      }
      forall k: nat, id | FailsCallback(streams, k, id)
        ensures id in UnfinishedCallbacks(streams)
      {
        if k > 0 {
          assert FailsCallback(tail, k - 1, id);
        }
      }
    }
  }

  lemma IdsApartInUse(t: Table)
    requires Valid(t)
    ensures InUseApart(t.streams)
  {
    forall i, j | 0 <= i < j < |t.streams| && t.streams[i].inUse && t.streams[j].inUse
      ensures t.streams[i].id != t.streams[j].id
    {
      assert Covered(t, i) && Covered(t, j);
      SlotIs(t, IndexEntry(t.streams[i].id, i));
      SlotIs(t, IndexEntry(t.streams[j].id, j));
    }
  }

  lemma FailedAreCallbacks(t: Table, owners: set<Id>)
    requires Valid(t) && Owned(Model(t), owners)
    ensures (set id | id in UnfinishedCallbacks(t.streams)) == Callbacks(Model(t))
    ensures NoRepeats(UnfinishedCallbacks(t.streams))
  {
    IdsApartInUse(t);
    CallbackIdsExact(t.streams);
    var u := UnfinishedCallbacks(t.streams);
    forall id | id in u
      ensures id in Callbacks(Model(t))
    {
      var k: nat :| FailsCallback(t.streams, k, id);
      assert Covered(t, k);
      SlotIs(t, IndexEntry(id, k));
      assert Model(t)[id] == t.streams[k].state;
    }
    forall id | id in Callbacks(Model(t))
      ensures id in u
    {
      SlotPoints(t, id);
      assert OwnedAt(Model(t), owners, id);
      assert Model(t)[id] == t.streams[SlotOf(t, id)].state;
      assert FailsCallback(t.streams, SlotOf(t, id), id);
    }
  }

  lemma {:induction false} DistinctMultiset<T>(q: seq<T>, x: T)
    requires forall i, j :: 0 <= i < j < |q| ==> q[i] != q[j]
    ensures multiset(q)[x] == if x in q then 1 else 0
  {
    if q != [] {
      var front := q[..|q| - 1];
      DistinctMultiset(front, x);
      assert q == front + [q[|q| - 1]];
    }
  }

  lemma BookFailAll(m: map<Id, Stream>, owners: set<Id>, active: nat, used: set<Id>,
                    submitted: set<Id>, handled: multiset<Id>, failed: seq<Id>)
    requires Books(m, owners, active, used, submitted, handled)
    requires (set id | id in failed) == Callbacks(m)
    requires NoRepeats(failed)
    ensures active == |owners| + |failed|
    ensures Books(AllDone(m) - Callbacks(m), owners, |owners|, used, submitted, handled + multiset(failed))
  {
    DistinctCount(failed);
    var m' := AllDone(m) - Callbacks(m);
    forall id
      ensures OwnedAt(m', owners, id) && HandledAt(m', submitted, handled + multiset(failed), id)
    {
      assert OwnedAt(m, owners, id) && HandledAt(m, submitted, handled, id);
      DistinctMultiset(failed, id);
      assert id in failed <==> id in Callbacks(m);
    }
    assert Callbacks(m') == {};
  }

  // ---------------------------------------------------------------------------
  // Every step
  // ---------------------------------------------------------------------------

  lemma WakeConserves(s: Session)
    requires Conserved(s)
    ensures Conserved(WakeStreamWaiters(s))
  {
  }

  lemma AcceptedConserves(s: Session, t: Table, id: Id, state: Stream)
    requires Conserved(s) && id !in s.used && s.active < AtLeastOne(s.configured) && !state.done
    requires Valid(t) && Model(t) == Model(s.table)[id := state]
    requires |t.streams| <= AtLeastOne(s.configured)
    ensures var s' := s.(active := s.active + 1, table := t, used := s.used + {id});
            && (state.callback ==> Conserved(s'.(submitted := s.submitted + {id})))
            && (!state.callback ==> Conserved(s'.(owners := s.owners + {id})))
  {
    BookSubmission(Model(s.table), s.owners, s.active, s.used, s.submitted, s.handled, id, state);
  }

  lemma AdmitConserves(s: Session, sub: Submission, t: Table)
    requires Conserved(s) && FreshIds(s, sub) && s.active < AtLeastOne(s.configured)
    requires Valid(t) && |t.streams| <= AtLeastOne(s.configured)
    requires sub.accepted ==> Model(t) == Model(s.table)[sub.actual := Started(sub.callback, sub.timing)]
    requires !sub.accepted ==> Model(t) == Model(s.table)
    ensures Conserved(Admit(s, sub, t))
  {
    if sub.accepted {
      AcceptedConserves(s, t, sub.actual, Started(sub.callback, sub.timing));
    } else {
      WakeConserves(s.(table := t));
    }
  }

  lemma TryEnterConserves(s: Session, sub: Submission)
    requires Conserved(s) && FreshIds(s, sub)
    ensures Conserved(TryEnter(s, sub))
  {
    if s.active < StreamLimit(s) {
      SubmittedRefines(s.table, sub);
      LiveCount(Model(s.table), s.owners);
      AdmitConserves(s, sub, SubmittedTable(s.table, sub));
    }
  }

  lemma HandlerConserves(s: Session, t: Table, id: Id)
    requires Conserved(s) && id in Ids(s.table) && Model(s.table)[id].callback
    requires Valid(t) && Model(t) == Model(s.table) - {id} && |t.streams| == |s.table.streams|
    ensures Conserved(ReleaseSlot(s.(table := t)).(handled := s.handled + multiset{id}))
  {
    BookCallbackLeft(Model(s.table), s.owners, s.active, s.used, s.submitted, s.handled, id);
    WakeConserves(s.(table := t, active := s.active - 1, handled := s.handled + multiset{id}));
  }

  lemma ChangeConserves(s: Session, t: Table, id: Id, state: Stream)
    requires Conserved(s) && id in Ids(s.table) && Replaces(state, Model(s.table)[id])
    requires Valid(t) && Model(t) == Model(s.table)[id := state]
    requires |t.streams| == |s.table.streams|
    ensures Conserved(s.(table := t))
  {
    BookChange(Model(s.table), s.owners, s.active, s.used, s.submitted, s.handled, id, state);
  }

  lemma StoreConserves(s: Session, id: Id, state: Stream)
    requires Conserved(s) && id in Ids(s.table) && Replaces(state, Model(s.table)[id])
    ensures Conserved(s.(table := Store(s.table, id, state)))
  {
    StoreRefines(s.table, id, state);
    StoreKeepsLength(s.table, id, state);
    ChangeConserves(s, Store(s.table, id, state), id, state);
  }

  lemma StoreKeepsLength(t: Table, id: Id, state: Stream)
    ensures |Store(t, id, state).streams| == |t.streams|
  {
  }

  lemma RunHandlerConserves(s: Session, id: Id)
    requires Conserved(s) && id in Ids(s.table) && Model(s.table)[id].callback
    ensures Conserved(RunHandler(s, id))
  {
    ReleaseRefines(s.table, id);
    ReleaseKeepsLength(s.table, id);
    HandlerConserves(s, Release(s.table, id), id);
  }

  /** What the bytes of a response do to a valid table. */
  lemma TouchStreamIs(s: Session, id: Id, header: bool, now: int)
    requires Valid(s.table)
    ensures TouchStream(s, id, header, now) ==
            if id !in Model(s.table) then s
            else
              var state := Model(s.table)[id];
              s.(table := Store(s.table, id, if header then AfterHeader(state, now) else AfterData(state, now)))
  {
    FindRefines(s.table, id);
  }

  /** What the end of a stream does to a valid table. */
  lemma EndStreamIs(s: Session, id: Id, why: Failure)
    requires Valid(s.table)
    ensures EndStream(s, id, why) ==
            if id !in Model(s.table) then s
            else if Model(s.table)[id].callback then RunHandler(s, id)
            else s.(table := Store(s.table, id, Ended(Model(s.table)[id], why)))
  {
    FindRefines(s.table, id);
  }

  lemma TouchConserves(s: Session, id: Id, header: bool, now: int)
    requires Conserved(s)
    ensures Conserved(TouchStream(s, id, header, now))
  {
    TouchStreamIs(s, id, header, now);
    if id in Model(s.table) {
      var state := Model(s.table)[id];
      StoreConserves(s, id, if header then AfterHeader(state, now) else AfterData(state, now));
    }
  }

  lemma EndStreamConserves(s: Session, id: Id, why: Failure)
    requires Conserved(s)
    ensures Conserved(EndStream(s, id, why))
  {
    EndStreamIs(s, id, why);
    if id in Model(s.table) {
      var state := Model(s.table)[id];
      if state.callback {
        RunHandlerConserves(s, id);
      } else {
        StoreConserves(s, id, Ended(state, why));
      }
    }
  }

  lemma LeaveConserves(s: Session, id: Id)
    requires Conserved(s) && id in s.owners
    ensures Conserved(LeaveTable(s, id))
  {
    assert OwnedAt(Model(s.table), s.owners, id);
    ReleaseRefines(s.table, id);
    ReleaseKeepsLength(s.table, id);
    BookOwnerLeft(Model(s.table), s.owners, s.active, s.used, s.submitted, s.handled, id);
  }

  lemma FailAllTable(t: Table, owners: set<Id>)
    requires Valid(t) && Owned(Model(t), owners)
    ensures var t' := ReleaseAll(t.(streams := MarkDone(t.streams)), UnfinishedCallbacks(t.streams));
            && Valid(t')
            && Model(t') == AllDone(Model(t)) - Callbacks(Model(t))
            && Slots(t') == Slots(t) - Callbacks(Model(t))
            && |t'.streams| == |t.streams|
  {
    MarkDoneRefines(t);
    FailedAreCallbacks(t, owners);
    ReleaseAllRefines(t.(streams := MarkDone(t.streams)), UnfinishedCallbacks(t.streams));
  }

  lemma FailAllConserves(s: Session)
    requires Conserved(s)
    ensures Conserved(FailAllStreams(s))
  {
    FailAllTable(s.table, s.owners);
    FailedAreCallbacks(s.table, s.owners);
    BookFailAll(Model(s.table), s.owners, s.active, s.used, s.submitted, s.handled,
                UnfinishedCallbacks(s.table.streams));
  }

  predicate Closes(e: Event) {
    e.IoFailure? || e.Shutdown?
  }

  lemma StepConserves(s: Session, e: Event)
    requires Conserved(s) && Enabled(s, e) && !Closes(e)
    ensures Conserved(Step(s, e))
  {
    match e
    case Enter(sub) => TryEnterConserves(s, sub);
    case Resume(t, sub) => TryEnterConserves(s.(woken := s.woken - {t}, living := s.living - {t}), sub);
    case Complete(id) => EndStreamConserves(s, id, NoFailure);
    case PeerReset(id) => EndStreamConserves(s, id, ResetByPeer);
    case Expire(id, kind) => EndStreamConserves(s, id, TimedOut(kind));
    case Header(id, now) => TouchConserves(s, id, true, now);
    case Data(id, now) => TouchConserves(s, id, false, now);
    case Finish(id) => LeaveConserves(s, id);
    case Cancel(id) => LeaveConserves(s, id);
    case _ =>
  }

  // ---------------------------------------------------------------------------
  // Every run
  // ---------------------------------------------------------------------------

  /** Conserved until the shutdown, and every handler called by then. */
  ghost predicate Sound(s: Session) {
    if s.closed then AllHandledOnce(s) && |s.table.streams| <= AtLeastOne(s.configured) else Conserved(s)
  }

  ghost predicate AllHandledOnce(s: Session) {
    forall id :: s.handled[id] == if id in s.submitted then 1 else 0
  }

  lemma ShutdownShape(s: Session)
    ensures var s' := ShutdownNow(s);
            var failed := UnfinishedCallbacks(s.table.streams);
            && s'.handled == s.handled + multiset(failed) && s'.submitted == s.submitted
            && s'.table == ReleaseAll(s.table.(streams := MarkDone(s.table.streams)), failed)
  {
  }

  lemma FailAllHandles(t: Table, owners: set<Id>, active: nat, used: set<Id>, submitted: set<Id>, handled: multiset<Id>)
    requires Valid(t) && Books(Model(t), owners, active, used, submitted, handled)
    ensures forall id :: (handled + multiset(UnfinishedCallbacks(t.streams)))[id] == if id in submitted then 1 else 0
  {
    var m := Model(t);
    var failed := UnfinishedCallbacks(t.streams);
    FailedAreCallbacks(t, owners);
    BookFailAll(m, owners, active, used, submitted, handled, failed);
    NoneLeft(AllDone(m) - Callbacks(m), owners, |owners|, used, submitted, handled + multiset(failed));
  }

  lemma ShutdownHandlesAll(s: Session)
    requires Conserved(s)
    ensures AllHandledOnce(ShutdownNow(s))
    ensures |ShutdownNow(s).table.streams| == |s.table.streams|
  {
    ShutdownShape(s);
    FailAllTable(s.table, s.owners);
    FailAllHandles(s.table, s.owners, s.active, s.used, s.submitted, s.handled);
  }

  /** When every stream of the books is done, every handler has run. */
  lemma NoneLeft(m: map<Id, Stream>, owners: set<Id>, active: nat, used: set<Id>, submitted: set<Id>,
                 handled: multiset<Id>)
    requires Books(m, owners, active, used, submitted, handled) && forall id :: id in m ==> m[id].done
    ensures forall id :: handled[id] == if id in submitted then 1 else 0
  {
    forall id
      ensures handled[id] == if id in submitted then 1 else 0
    {
      assert HandledAt(m, submitted, handled, id) && OwnedAt(m, owners, id);
    }
  }

  predicate StaysOpen(s: Session, s': Session) {
    s'.closed == s.closed && s'.configured == s.configured
  }

  lemma SlotsStayOpen(s: Session, sub: Submission)
    ensures StaysOpen(s, TryEnter(s, sub))
  {
  }

  lemma StreamsStayOpen(s: Session, id: Id, why: Failure, header: bool, now: int)
    ensures StaysOpen(s, EndStream(s, id, why)) && StaysOpen(s, TouchStream(s, id, header, now))
    ensures StaysOpen(s, LeaveTable(s, id))
  {
  }

  lemma FailureCloses(s: Session)
    ensures ShutdownNow(s).closed && ShutdownNow(s).configured == s.configured
    ensures FailAllStreams(s).configured == s.configured
  {
  }

  lemma OnlyClosingCloses(s: Session, e: Event)
    requires Enabled(s, e)
    ensures Step(s, e).closed == Closes(e)
    ensures Step(s, e).configured == s.configured
  {
    match e
    case Enter(sub) => SlotsStayOpen(s, sub);
    case Resume(t, sub) => SlotsStayOpen(s.(woken := s.woken - {t}, living := s.living - {t}), sub);
    case Complete(id) => StreamsStayOpen(s, id, NoFailure, true, 0);
    case PeerReset(id) => StreamsStayOpen(s, id, ResetByPeer, true, 0);
    case Expire(id, kind) => StreamsStayOpen(s, id, TimedOut(kind), true, 0);
    case Header(id, now) => StreamsStayOpen(s, id, NoFailure, true, now);
    case Data(id, now) => StreamsStayOpen(s, id, NoFailure, false, now);
    case Finish(id) => StreamsStayOpen(s, id, NoFailure, true, 0);
    case Cancel(id) => StreamsStayOpen(s, id, NoFailure, true, 0);
    case IoFailure =>
      FailureCloses(s);
      FailureCloses(FailAllStreams(s));
    case Shutdown => FailureCloses(s);
    case _ =>
  }

  lemma NextSound(s: Session, e: Event)
    requires Sound(s)
    ensures Sound(Next(s, e))
  {
    if Enabled(s, e) {
      OnlyClosingCloses(s, e);
      if e.Shutdown? {
        ShutdownHandlesAll(s);
      } else if e.IoFailure? {
        FailAllConserves(s);
        ShutdownHandlesAll(FailAllStreams(s));
        FailAllTable(s.table, s.owners);
      } else {
        StepConserves(s, e);
      }
    }
  }

  lemma OpenConserved(configured: nat)
    ensures Conserved(Open(configured))
  {
    var s := Open(configured);
    Conceal(s.table);
    assert Model(s.table) == map[];
    assert Callbacks(Model(s.table)) == {};
  }

  lemma SoundAlways(configured: nat, es: seq<Event>)
    ensures Sound(Run(Next, Open(configured), es))
  {
    OpenConserved(configured);
    forall s, e | Sound(s)
      ensures Sound(Next(s, e))
    {
      NextSound(s, e);
    }
    Always(Next, Sound, Open(configured), es);
  }

  /** Until the session closes, active_streams_ equals the active StreamSlots plus the
      live callback streams, and the number of streams in the table. */
  lemma SlotsConserved(configured: nat, es: seq<Event>)
    ensures var s := Run(Next, Open(configured), es);
            !s.closed ==>
              && Valid(s.table)
              && s.active == |s.owners| + |Callbacks(Model(s.table))| == |Model(s.table)|
              && s.active <= AtLeastOne(configured)
  {
    SoundAlways(configured, es);
    ConfiguredAlways(configured, es);
    var s := Run(Next, Open(configured), es);
    if !s.closed {
      LiveCount(Model(s.table), s.owners);
    }
  }

  /** A handler runs at most once, never for a stream that was not submitted in callback
      mode, and exactly once by the time the session has shut down. */
  lemma HandlersRunOnce(configured: nat, es: seq<Event>, id: Id)
    ensures var s := Run(Next, Open(configured), es);
            && s.handled[id] <= (if id in s.submitted then 1 else 0)
            && (s.closed ==> s.handled[id] == if id in s.submitted then 1 else 0)
  {
    SoundAlways(configured, es);
    var s := Run(Next, Open(configured), es);
    if !s.closed {
      assert HandledAt(Model(s.table), s.submitted, s.handled, id);
    }
  }

  // ---------------------------------------------------------------------------
  // Body sources
  // ---------------------------------------------------------------------------

  ghost predicate SameOrGone(slots: map<Id, nat>, slots': map<Id, nat>, used: set<Id>) {
    && (forall id :: id in slots && id in slots' ==> slots'[id] == slots[id])
    && (forall id :: id in slots' ==> id in slots || id !in used)
  }

  /** t' differs from t by finished, ended or new streams; those that stay do not move. */
  ghost predicate Steady(t: Table, t': Table, used: set<Id>) {
    Valid(t) && Valid(t') && SameOrGone(Slots(t), Slots(t'), used)
  }

  lemma SubmittedSteady(t: Table, sub: Submission, used: set<Id>)
    requires Valid(t) && Ids(t) <= used && sub.expected !in used && sub.actual !in used
    ensures Steady(t, SubmittedTable(t, sub), used)
  {
    SubmittedRefines(t, sub);
    var t' := SubmittedTable(t, sub);
    forall id | id in Slots(t')
      ensures id in Slots(t) || id !in used
    {
      assert id in Model(t');
      assert id in Model(t) || id == sub.actual;
    }
  }

  lemma ReleasedSteady(t: Table, id: Id, used: set<Id>)
    requires Valid(t)
    ensures Steady(t, Release(t, id), used)
  {
    ReleaseRefines(t, id);
  }

  lemma StoredSteady(t: Table, id: Id, state: Stream, used: set<Id>)
    requires Valid(t) && id in Ids(t)
    ensures Steady(t, Store(t, id, state), used)
  {
    StoreRefines(t, id, state);
  }

  lemma FailedSteady(t: Table, owners: set<Id>, used: set<Id>)
    requires Valid(t) && Owned(Model(t), owners)
    ensures Steady(t, ReleaseAll(t.(streams := MarkDone(t.streams)), UnfinishedCallbacks(t.streams)), used)
  {
    FailAllTable(t, owners);
  }

  lemma SameSteady(t: Table, used: set<Id>)
    requires Valid(t)
    ensures Steady(t, t, used)
  {
  }

  lemma EndStreamSteady(s: Session, id: Id, why: Failure)
    requires Valid(s.table)
    ensures Steady(s.table, EndStream(s, id, why).table, s.used)
  {
    EndStreamIs(s, id, why);
    if id !in Model(s.table) {
      SameSteady(s.table, s.used);
    } else if Model(s.table)[id].callback {
      ReleasedSteady(s.table, id, s.used);
    } else {
      StoredSteady(s.table, id, Ended(Model(s.table)[id], why), s.used);
    }
  }

  lemma TouchSteady(s: Session, id: Id, header: bool, now: int)
    requires Valid(s.table)
    ensures Steady(s.table, TouchStream(s, id, header, now).table, s.used)
  {
    TouchStreamIs(s, id, header, now);
    if id !in Model(s.table) {
      SameSteady(s.table, s.used);
    } else {
      var state := Model(s.table)[id];
      StoredSteady(s.table, id, if header then AfterHeader(state, now) else AfterData(state, now), s.used);
    }
  }

  lemma TryEnterSteady(s: Session, sub: Submission)
    requires Conserved(s) && FreshIds(s, sub)
    ensures Steady(s.table, TryEnter(s, sub).table, s.used)
  {
    SubmittedSteady(s.table, sub, s.used);
  }

  lemma FailAllSteady(s: Session)
    requires Valid(s.table) && Owned(Model(s.table), s.owners)
    ensures Steady(s.table, FailAllStreams(s).table, s.used)
  {
    FailedSteady(s.table, s.owners, s.used);
  }

  lemma ShutdownSteady(s: Session)
    requires Valid(s.table) && Owned(Model(s.table), s.owners)
    ensures Steady(s.table, ShutdownNow(s).table, s.used)
  {
    FailedSteady(s.table, s.owners, s.used);
  }

  lemma SteadyTwice(t: Table, t': Table, t'': Table, used: set<Id>)
    requires Steady(t, t', used) && Steady(t', t'', used) && Slots(t).Keys <= used
    ensures Steady(t, t'', used)
  {
    assert forall id :: id in Slots(t) ==> id in Slots(t).Keys;
  }

  lemma IoFailureSteady(s: Session)
    requires Conserved(s)
    ensures Steady(s.table, ShutdownNow(FailAllStreams(s)).table, s.used)
  {
    FailAllSteady(s);
    FailAllConserves(s);
    ShutdownSteady(FailAllStreams(s));
    assert Slots(s.table).Keys == Model(s.table).Keys;
    SteadyTwice(s.table, FailAllStreams(s).table, ShutdownNow(FailAllStreams(s)).table, s.used);
  }

  lemma StepSteady(s: Session, e: Event)
    requires Conserved(s) && Enabled(s, e)
    ensures Steady(s.table, Step(s, e).table, s.used)
  {
    match e
    case Enter(sub) => TryEnterSteady(s, sub);
    case Resume(t, sub) => TryEnterSteady(s.(woken := s.woken - {t}, living := s.living - {t}), sub);
    case Complete(id) => EndStreamSteady(s, id, NoFailure);
    case PeerReset(id) => EndStreamSteady(s, id, ResetByPeer);
    case Expire(id, kind) => EndStreamSteady(s, id, TimedOut(kind));
    case Header(id, now) => TouchSteady(s, id, true, now);
    case Data(id, now) => TouchSteady(s, id, false, now);
    case Finish(id) => ReleasedSteady(s.table, id, s.used);
    case Cancel(id) => ReleasedSteady(s.table, id, s.used);
    case IoFailure => IoFailureSteady(s);
    case Shutdown => ShutdownSteady(s);
    case _ =>
  }

  lemma UsedGrows(s: Session, e: Event)
    requires Enabled(s, e)
    ensures s.used <= Step(s, e).used
  {
  }

  /** A stream that sits in slot k sits there until it is gone, and then it stays gone. */
  ghost predicate AtSlotOrGone(s: Session, id: Id, k: nat) {
    && Valid(s.table)
    && Sound(s)
    && id in s.used
    && (id in Slots(s.table) ==> Slots(s.table)[id] == k)
  }

  lemma NextAtSlot(s: Session, e: Event, id: Id, k: nat)
    requires AtSlotOrGone(s, id, k)
    ensures AtSlotOrGone(Next(s, e), id, k)
  {
    NextSound(s, e);
    if Enabled(s, e) {
      StepSteady(s, e);
      UsedGrows(s, e);
    }
  }

  /** From its submission to its end a stream keeps its slot, and the vector never
      outgrows the room reserved for it, so the address of its body source is stable. */
  lemma BodySourcesNeverMove(configured: nat, before: seq<Event>, after: seq<Event>, id: Id)
    requires var s := Run(Next, Open(configured), before); !s.closed && Valid(s.table) && id in Ids(s.table)
    ensures var s := Run(Next, Open(configured), before);
            var s' := Run(Next, Open(configured), before + after);
            && |s'.table.streams| <= ReservedEntries(configured)
            && Valid(s'.table)
            && (id in Ids(s'.table) ==> SlotOf(s'.table, id) == SlotOf(s.table, id))
  {
    SoundAlways(configured, before);
    var s := Run(Next, Open(configured), before);
    var k := SlotOf(s.table, id);
    assert id in Model(s.table).Keys;
    assert AtSlotOrGone(s, id, k);
    forall t: Session, e: Event | AtSlotOrGone(t, id, k)
      ensures AtSlotOrGone(Next(t, e), id, k)
    {
      NextAtSlot(t, e, id, k);
    }
    Always(Next, (t: Session) => AtSlotOrGone(t, id, k), s, after);
    RunSplit(Next, Open(configured), before, after);
    RoomAlways(configured, before + after);
  }

  lemma RoomAlways(configured: nat, es: seq<Event>)
    ensures |Run(Next, Open(configured), es).table.streams| <= AtLeastOne(configured)
  {
    SoundAlways(configured, es);
    ConfiguredAlways(configured, es);
  }

  lemma ConfiguredAlways(configured: nat, es: seq<Event>)
    ensures Run(Next, Open(configured), es).configured == configured
  {
    forall s: Session, e: Event | s.configured == configured
      ensures Next(s, e).configured == configured
    {
      if Enabled(s, e) {
        OnlyClosingCloses(s, e);
      }
    }
    Always(Next, (s: Session) => s.configured == configured, Open(configured), es);
  }
}
