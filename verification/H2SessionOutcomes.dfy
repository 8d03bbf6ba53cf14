/** How a stream of a request ends: once, with one outcome, which nothing changes. */
module H2SessionOutcomes {
  import opened Runs
  import opened StreamTables
  import opened StreamDeadlines
  import opened H2Session
  import opened H2SessionLaws
  import opened H2SessionExpiry

  // ---------------------------------------------------------------------------
  // Slots
  // ---------------------------------------------------------------------------

  /** In any state a slot that is given back goes to the waiter that queued first, if it still
      has a coroutine; a waiter without one takes the wake-up with it. */
  lemma FreedSlotWakes(s: Session)
    ensures var s' := ReleaseSlot(s);
            && s'.active == (if s.active == 0 then 0 else s.active - 1)
            && (if s.waiters == [] || s'.active >= StreamLimit(s) then s' == s.(active := s'.active)
                else s' == s.(active := s'.active, waiters := s.waiters[1..],
                              woken := s.woken + (if s.waiters[0] in s.living then {s.waiters[0]} else {})))
  {
  }

  /** An event for a stream that the table does not know repairs the index at most. */
  lemma UnknownStream(s: Session, id: Id, why: Failure, header: bool, now: int)
    requires Find(s.table, id).slot.None?
    ensures EndStream(s, id, why) == TouchStream(s, id, header, now) == s.(table := Find(s.table, id).table)
  {
  }

  /** A request with a slot free is admitted with its stream: its own as a callback stream,
      else held by its coroutine; a refused submission gives the slot back; without a free
      slot it queues. */
  lemma EnteredMeans(s: Session, sub: Submission)
    ensures var s' := TryEnter(s, sub);
            var t := SubmittedTable(s.table, sub);
            if s.active >= StreamLimit(s) then
              s' == s.(waiters := s.waiters + [s.next], living := s.living + {s.next}, next := s.next + 1)
            else if !sub.accepted then s' == ReleaseSlot(s.(active := s.active + 1, table := t))
            else if sub.callback then
              s' == s.(active := s.active + 1, table := t, used := s.used + {sub.actual},
                       submitted := s.submitted + {sub.actual})
            else
              s' == s.(active := s.active + 1, table := t, used := s.used + {sub.actual},
                       owners := s.owners + {sub.actual})
  {
  }

  /** The peer, the clock and the caller may act on an open session at any time, for any
      stream. */
  lemma AlwaysPossible(s: Session, id: Id, now: int, value: nat)
    requires !s.closed
    ensures Enabled(s, Complete(id)) && Enabled(s, PeerReset(id))
    ensures Enabled(s, Header(id, now)) && Enabled(s, Data(id, now))
    ensures Enabled(s, Settings(value)) && Enabled(s, IoFailure) && Enabled(s, Shutdown)
  {
  }

  /** A wait that is given up leaves the queue; one that times out stays in it without its
      coroutine; a new limit counts as at least one and may wake the first in the queue. */
  lemma WaitsEnd(s: Session, t: Ticket, value: nat)
    requires !s.closed && t in s.living
    ensures t !in s.woken ==> Enabled(s, GiveUp(t)) && var s' := Step(s, GiveUp(t));
              && s' == s.(waiters := s'.waiters, living := s.living - {t})
              && (forall u :: u in s'.waiters <==> u in s.waiters && u != t)
    ensures Enabled(s, Timeout(t)) && Step(s, Timeout(t)) == s.(living := s.living - {t}, woken := s.woken - {t})
    ensures var limited := s.(peer := if value == 0 then 1 else value);
            Step(s, Settings(value)) ==
            if s.waiters == [] || s.active >= StreamLimit(limited) then limited
            else limited.(waiters := s.waiters[1..],
                          woken := s.woken + (if s.waiters[0] in s.living then {s.waiters[0]} else {}))
  {
  }

  lemma ShutdownWakes(s: Session)
    ensures var s' := ShutdownNow(s);
            && s'.waiters == [] && s'.active == 0 && s'.closed && s'.living == s.living
            && s'.woken == s.woken + (set t | t in s.waiters && t in s.living)
  {
  }

  /** Failing every stream gives back the slots of the callback streams among the unfinished
      and wakes the first who waits if one is free. */
  lemma FailAllFrees(s: Session)
    ensures var s' := FailAllStreams(s);
            var k := |UnfinishedCallbacks(s.table.streams)|;
            && s'.active == (if s.active <= k then 0 else s.active - k)
            && (if s.waiters == [] || s'.active >= StreamLimit(s) then s'.waiters == s.waiters && s'.woken == s.woken
                else s'.waiters == s.waiters[1..]
                     && s'.woken == s.woken + (if s.waiters[0] in s.living then {s.waiters[0]} else {}))
  {
  }

  lemma FailAllKeepsWaiters(s: Session)
    ensures var s' := FailAllStreams(s);
            && s'.living == s.living
            && s'.woken + (set t | t in s'.waiters && t in s.living)
               == s.woken + (set t | t in s.waiters && t in s.living)
  {
    if s.waiters != [] {
      assert s.waiters == [s.waiters[0]] + s.waiters[1..];
    }
  }

  /** Shutdown and a failure of the connection leave nobody asleep: every request that waits
      is woken, no slot is taken, and nothing happens any more. */
  lemma ClosingWakesAll(s: Session, e: Event)
    requires Enabled(s, e) && Closes(e)
    ensures var s' := Step(s, e);
            && s'.waiters == [] && s'.active == 0 && s'.closed && s'.living == s.living
            && s'.woken == s.woken + (set t | t in s.waiters && t in s.living)
    ensures forall e' :: Next(Step(s, e), e') == Step(s, e)
  {
    ShutdownWakes(s);
    ShutdownWakes(FailAllStreams(s));
    FailAllKeepsWaiters(s);
  }

  // ---------------------------------------------------------------------------
  // The end of one stream
  // ---------------------------------------------------------------------------

  /** A finished stream has no deadline left that could end it. */
  lemma FinishedCannotExpire(s: Session, id: Id, kind: Kind)
    requires Valid(s.table) && id in Model(s.table) && Model(s.table)[id].done
    ensures !Enabled(s, Expire(id, kind))
  {
    FindRefines(s.table, id);
  }

  /** Completion finishes the stream of a request and changes nothing else of it. */
  lemma CompletedIsFinished(s: Session, id: Id, kind: Kind)
    requires Valid(s.table) && Ids(s.table) <= s.used && !s.closed
    requires id in Model(s.table) && !Model(s.table)[id].callback
    ensures var s' := Step(s, Complete(id));
            && Valid(s'.table) && Model(s'.table) == Model(s.table)[id := Model(s.table)[id].(done := true)]
            && !Enabled(s', Expire(id, kind))
  {
    TableFollowsMap(s, Complete(id));
    FinishedCannotExpire(Step(s, Complete(id)), id, kind);
  }

  /** A deadline finishes it with the message of that deadline. */
  lemma ExpiredIsFinished(s: Session, id: Id, kind: Kind, other: Kind)
    requires Valid(s.table) && Ids(s.table) <= s.used && !s.closed
    requires id in Model(s.table) && !Model(s.table)[id].callback && !Model(s.table)[id].done
    ensures Enabled(s, Expire(id, kind))
    ensures var s' := Step(s, Expire(id, kind));
            && Valid(s'.table)
            && Model(s'.table) == Model(s.table)[id := Model(s.table)[id].(done := true, failure := TimedOut(kind))]
            && !Enabled(s', Expire(id, other))
  {
    FindRefines(s.table, id);
    TableFollowsMap(s, Expire(id, kind));
    FinishedCannotExpire(Step(s, Expire(id, kind)), id, other);
  }

  // ---------------------------------------------------------------------------
  // The outcome is final
  // ---------------------------------------------------------------------------

  /** The stream is gone, or still finished with this outcome. */
  ghost predicate Settled(s: Session, id: Id, outcome: Failure) {
    && Valid(s.table) && Sound(s) && id in s.used
    && (id in Model(s.table) ==> Finished(Model(s.table)[id], outcome))
  }

  predicate Finished(state: Stream, outcome: Failure) {
    state.done && !state.callback && state.failure == outcome
  }

  /** An event that neither submits, expires nor resets the stream leaves a finished one as it
      is. */
  lemma MapSettled(s: Session, m: map<Id, Stream>, e: Event, id: Id, outcome: Failure)
    requires id in m ==> Finished(m[id], outcome)
    requires e.Enter? || e.Resume? ==> e.sub.actual != id
    requires e.Expire? && e.id == id ==> id !in m
    requires e != PeerReset(id)
    ensures id in MapAfter(s, m, e) ==> Finished(MapAfter(s, m, e)[id], outcome)
  {
  }

  lemma StepSettled(s: Session, e: Event, id: Id, outcome: Failure)
    requires Valid(s.table) && Ids(s.table) <= s.used && Enabled(s, e) && !Closes(e) && id in s.used
    requires e != PeerReset(id)
    requires id in Model(s.table) ==> Finished(Model(s.table)[id], outcome)
    ensures var t := Step(s, e).table; Valid(t) && (id in Model(t) ==> Finished(Model(t)[id], outcome))
  {
    TableFollowsMap(s, e);
    if e.Expire? && e.id == id && id in Model(s.table) {
      FinishedCannotExpire(s, id, e.kind);
      assert false;
    }
    MapSettled(s, Model(s.table), e, id, outcome);
  }

  lemma FailAllSettled(s: Session, id: Id, outcome: Failure)
    requires Conserved(s) && (id in Model(s.table) ==> Finished(Model(s.table)[id], outcome))
    ensures var t := FailAllStreams(s).table; Valid(t) && (id in Model(t) ==> Finished(Model(t)[id], outcome))
  {
    FailAllTable(s.table, s.owners);
  }

  lemma ShutdownSettled(s: Session, id: Id, outcome: Failure)
    requires Conserved(s) && (id in Model(s.table) ==> Finished(Model(s.table)[id], outcome))
    ensures var t := ShutdownNow(s).table; Valid(t) && (id in Model(t) ==> Finished(Model(t)[id], outcome))
  {
    ShutdownShape(s);
    FailAllTable(s.table, s.owners);
  }

  lemma ClosingSettled(s: Session, e: Event, id: Id, outcome: Failure)
    requires Conserved(s) && Enabled(s, e) && Closes(e)
    requires id in Model(s.table) ==> Finished(Model(s.table)[id], outcome)
    ensures var t := Step(s, e).table; Valid(t) && (id in Model(t) ==> Finished(Model(t)[id], outcome))
  {
    ShutdownSettled(s, id, outcome);
    if e.IoFailure? {
      FailAllSettled(s, id, outcome);
      FailAllConserves(s);
      ShutdownSettled(FailAllStreams(s), id, outcome);
    }
  }

  lemma NextSettled(s: Session, e: Event, id: Id, outcome: Failure)
    requires Settled(s, id, outcome) && e != PeerReset(id)
    ensures Settled(Next(s, e), id, outcome)
  {
    NextSound(s, e);
    if Enabled(s, e) {
      UsedGrows(s, e);
      if Closes(e) {
        ClosingSettled(s, e, id, outcome);
      } else {
        StepSettled(s, e, id, outcome);
      }
    }
  }

  /** A reset marks the response with its error, finished or not. */
  lemma ResetMarks(s: Session, id: Id)
    requires Valid(s.table) && Ids(s.table) <= s.used && !s.closed
    requires id in Model(s.table) && !Model(s.table)[id].callback
    ensures var s' := Step(s, PeerReset(id));
            Valid(s'.table)
            && Model(s'.table) == Model(s.table)[id := Model(s.table)[id].(done := true, failure := ResetByPeer)]
  {
    TableFollowsMap(s, PeerReset(id));
  }

  /** The stream of a request is finished and its response not yet taken. */
  ghost predicate Answered(s: Session, id: Id) {
    !s.closed && Valid(s.table) && id in Model(s.table) && Model(s.table)[id].done && !Model(s.table)[id].callback
  }

  /** s' does not know the stream any more, or with the outcome that it has in s. */
  ghost predicate SameOutcome(s: Session, s': Session, id: Id) {
    && Valid(s.table) && Valid(s'.table)
    && (id in Model(s.table) && id in Model(s'.table) ==>
          Model(s'.table)[id].done && Model(s'.table)[id].failure == Model(s.table)[id].failure)
  }

  /** In every run, once the stream of a request is finished, by the peer, by a deadline or by
      a failure, no later event but a reset of it changes its outcome: it stays as it is until
      its coroutine takes the response. */
  lemma OutcomeIsFinal(configured: nat, before: seq<Event>, after: seq<Event>, id: Id)
    requires Answered(Run(Next, Open(configured), before), id)
    requires forall i :: 0 <= i < |after| ==> after[i] != PeerReset(id)
    ensures SameOutcome(Run(Next, Open(configured), before), Run(Next, Open(configured), before + after), id)
  {
    SoundAlways(configured, before);
    var s := Run(Next, Open(configured), before);
    var outcome := Model(s.table)[id].failure;
    var others := (e: Event) => e != PeerReset(id);
    assert id in Model(s.table).Keys;
    assert Settled(s, id, outcome);
    forall t: Session, e: Event | Settled(t, id, outcome) && others(e)
      ensures Settled(Next(t, e), id, outcome)
    {
      NextSettled(t, e, id, outcome);
    }
    AlwaysUnder(Next, (t: Session) => Settled(t, id, outcome), others, s, after);
    RunSplit(Next, Open(configured), before, after);
  }

  lemma OneMore(configured: nat, es: seq<Event>, e: Event)
    ensures Run(Next, Open(configured), es + [e]) == Next(Run(Next, Open(configured), es), e)
  {
    RunSplit(Next, Open(configured), es, [e]);
    OneStep(Next, Run(Next, Open(configured), es), e, []);
    assert [e] + [] == [e];
  }

  lemma EnterFirst(sub: Submission)
    requires sub.accepted && !sub.callback
    ensures var s := Next(Open(1), Enter(sub));
            && Conserved(s) && !s.closed && sub.actual in Model(s.table)
            && !Model(s.table)[sub.actual].callback && Model(s.table)[sub.actual].failure == NoFailure
  {
    OpenConserved(1);
    StepConserves(Open(1), Enter(sub));
    TableFollowsMap(Open(1), Enter(sub));
    OnlyClosingCloses(Open(1), Enter(sub));
  }

  lemma CompleteNext(s: Session, id: Id)
    requires Conserved(s) && !s.closed && id in Model(s.table) && !Model(s.table)[id].callback
    requires Model(s.table)[id].failure == NoFailure
    ensures var s' := Next(s, Complete(id));
            && Conserved(s') && Answered(s', id) && Model(s'.table)[id].failure == NoFailure
  {
    CompletedIsFinished(s, id, Total);
    StepConserves(s, Complete(id));
    OnlyClosingCloses(s, Complete(id));
  }

  lemma ResetNext(s: Session, id: Id)
    requires Conserved(s) && Answered(s, id) && Model(s.table)[id].failure == NoFailure
    ensures !SameOutcome(s, Next(s, PeerReset(id)), id)
  {
    ResetMarks(s, id);
  }

  /** A complete response, and then a reset of its stream, by which a server may stop the
      upload of a request that it has answered: the response is an error. */
  lemma LateReset(sub: Submission) returns (before: seq<Event>)
    requires sub.accepted && !sub.callback
    ensures Answered(Run(Next, Open(1), before), sub.actual)
    ensures !SameOutcome(Run(Next, Open(1), before), Run(Next, Open(1), before + [PeerReset(sub.actual)]), sub.actual)
  {
    var id := sub.actual;
    EnterFirst(sub);
    OneMore(1, [], Enter(sub));
    CompleteNext(Run(Next, Open(1), [] + [Enter(sub)]), id);
    OneMore(1, [] + [Enter(sub)], Complete(id));
    before := [] + [Enter(sub)] + [Complete(id)];
    ResetNext(Run(Next, Open(1), before), id);
    OneMore(1, before, PeerReset(id));
  }

  ghost predicate ResetsOnlyIf(resets: bool, es: seq<Event>, id: Id) {
    forall i :: 0 <= i < |es| ==> resets || es[i] != PeerReset(id)
  }

  ghost predicate AlwaysFinal(resets: bool) {
    forall configured: nat, before: seq<Event>, after: seq<Event>, id: Id ::
      Answered(Run(Next, Open(configured), before), id) && ResetsOnlyIf(resets, after, id) ==>
        SameOutcome(Run(Next, Open(configured), before), Run(Next, Open(configured), before + after), id)
  }

  /** The outcome of a finished stream is final in all runs exactly if the peer cannot reset
      it before its response is taken. */
  lemma OutcomeIsFinalExactly(resets: bool)
    ensures AlwaysFinal(resets) <==> !resets
  {
    if resets {
      var sub := Submission(false, 1, 1, true, Timing(0, 0, 0, 0));
      var before := LateReset(sub);
      assert ResetsOnlyIf(resets, [PeerReset(1)], 1);
      assert !AlwaysFinal(resets);
    } else {
      forall configured: nat, before: seq<Event>, after: seq<Event>, id: Id |
          Answered(Run(Next, Open(configured), before), id) && ResetsOnlyIf(resets, after, id)
        ensures SameOutcome(Run(Next, Open(configured), before), Run(Next, Open(configured), before + after), id)
      {
        OutcomeIsFinal(configured, before, after, id);
      }
    }
  }
}
