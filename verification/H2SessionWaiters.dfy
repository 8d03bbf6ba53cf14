/** Requests that wait for a stream slot: who is woken for a free slot, and which steps
    leave one asleep. */
module H2SessionWaiters {
  import opened Runs
  import opened Sequences
  import opened StreamTables
  import opened StreamDeadlines
  import opened H2Session

  // ---------------------------------------------------------------------------
  // The two laws
  // ---------------------------------------------------------------------------

  /** Somebody sleeps in the queue. */
  ghost predicate LiveQueued(s: Session) {
    exists t :: t in s.waiters && t in s.living
  }

  /** A sleeping request has an active stream or a woken request ahead of it. */
  ghost predicate Attended(s: Session) {
    LiveQueued(s) ==> s.active > 0 || s.woken != {}
  }

  /** While a request sleeps in the queue, every free slot has a woken request to take it. */
  ghost predicate Served(s: Session) {
    LiveQueued(s) ==> |s.woken| >= StreamLimit(s) - s.active
  }

  /** Which of the disturbing steps a deployment can take: pool timeouts of waiting
      requests, and a limit raised by two or more at once. */
  datatype Setting = Setting(timeouts: bool, leaps: bool)

  predicate Leaps(s: Session, value: nat) {
    StreamLimit(s.(peer := AtLeastOne(value))) > StreamLimit(s) + 1
  }

  predicate Permits(c: Setting, s: Session, e: Event) {
    && (e.Timeout? ==> c.timeouts)
    && (e.Settings? && Leaps(s, e.value) ==> c.leaps)
  }

  ghost predicate RunUnder(c: Setting, configured: nat, es: seq<Event>) {
    Allowed(Next, (s: Session, e: Event) => Permits(c, s, e), Open(configured), es)
  }

  // ---------------------------------------------------------------------------
  // Without timeouts the queue holds exactly the sleeping coroutines
  // ---------------------------------------------------------------------------

  /** Waiters are queued in order, each with its coroutine, and none of them is woken. */
  ghost predicate Orderly(waiters: seq<Ticket>, living: set<Ticket>, woken: set<Ticket>, next: Ticket) {
    && Increasing(waiters)
    && (forall t :: t in waiters ==> t in living && t !in woken && t < next)
    && (forall t :: t in woken ==> t < next)
  }

  /** Every free slot but `slack` has a woken request. */
  ghost predicate Calm(s: Session, slack: nat) {
    && Orderly(s.waiters, s.living, s.woken, s.next)
    && (s.waiters != [] ==> |s.woken| + slack >= StreamLimit(s) - s.active)
  }

  lemma FrontLeaves(waiters: seq<Ticket>, living: set<Ticket>, woken: set<Ticket>, next: Ticket)
    requires Orderly(waiters, living, woken, next) && waiters != []
    ensures waiters[0] in living && waiters[0] !in woken
    ensures Orderly(waiters[1..], living, woken + {waiters[0]}, next)
  {
    var rest := waiters[1..];
    assert waiters[0] in waiters;
    forall t | t in rest
      ensures t in waiters && t != waiters[0]
    {
      var i :| 0 <= i < |rest| && rest[i] == t;
      assert waiters[i + 1] == t;
    }
  }

  lemma NewcomerQueues(waiters: seq<Ticket>, living: set<Ticket>, woken: set<Ticket>, next: Ticket)
    requires Orderly(waiters, living, woken, next)
    ensures Orderly(waiters + [next], living + {next}, woken, next + 1)
  {
    var q := waiters + [next];
    forall i, j | 0 <= i < j < |q|
      ensures q[i] < q[j]
    {
      assert q[i] == waiters[i] && waiters[i] in waiters;
    }
  }

  /** One wake-up makes good for one slot. */
  lemma WakeCalms(s: Session)
    requires Calm(s, 1)
    ensures Calm(WakeStreamWaiters(s), 0)
  {
    if s.waiters != [] {
      FrontLeaves(s.waiters, s.living, s.woken, s.next);
    }
  }

  lemma ReleaseCalms(s: Session)
    requires Calm(s, 0)
    ensures Calm(ReleaseSlot(s), 0)
  {
    WakeCalms(s.(active := if s.active > 0 then s.active - 1 else 0));
  }

  lemma AdmitCalms(s: Session, sub: Submission, t: Table)
    requires Calm(s, 1)
    ensures Calm(Admit(s, sub, t), 0)
  {
    ReleaseCalms(s.(active := s.active + 1, table := t));
  }

  lemma EnterCalms(s: Session, sub: Submission)
    requires Calm(s, 1)
    ensures Calm(TryEnter(s, sub), 0)
  {
    if s.active < StreamLimit(s) {
      AdmitCalms(s, sub, SubmittedTable(s.table, sub));
    } else {
      NewcomerQueues(s.waiters, s.living, s.woken, s.next);
    }
  }

  lemma TableAside(s: Session, t: Table, slack: nat)
    requires Calm(s, slack)
    ensures Calm(s.(table := t), slack)
  {
  }

  lemma EndStreamCalms(s: Session, id: Id, why: Failure)
    requires Calm(s, 0)
    ensures Calm(EndStream(s, id, why), 0)
  {
    var f := Find(s.table, id);
    if f.slot.None? {
      TableAside(s, f.table, 0);
    } else if f.table.streams[f.slot.value].state.callback {
      ReleaseCalms(s.(table := Release(s.table, id)));
    } else {
      TableAside(s, Store(s.table, id, Ended(f.table.streams[f.slot.value].state, why)), 0);
    }
  }

  lemma ResumeCalms(s: Session, t: Ticket, sub: Submission)
    requires Calm(s, 0) && t in s.woken
    ensures Calm(TryEnter(s.(woken := s.woken - {t}, living := s.living - {t}), sub), 0)
  {
    EnterCalms(s.(woken := s.woken - {t}, living := s.living - {t}), sub);
  }

  lemma GiveUpCalms(s: Session, t: Ticket)
    requires Calm(s, 0) && t !in s.woken
    ensures Calm(s.(waiters := Without(s.waiters, t), living := s.living - {t}), 0)
  {
    WithoutKeepsOrder(s.waiters, t);
    if s.waiters == [] {
      assert Without(s.waiters, t) == [];
    }
  }

  lemma ShutdownCalms(s: Session)
    requires Orderly(s.waiters, s.living, s.woken, s.next)
    ensures Calm(ShutdownNow(s), 0)
  {
  }

  lemma TouchCalms(s: Session, id: Id, header: bool, now: int)
    requires Calm(s, 0)
    ensures Calm(TouchStream(s, id, header, now), 0)
  {
    TableAside(s, TouchStream(s, id, header, now).table, 0);
  }

  const QUIET := Setting(false, false)

  lemma FailAllOrderly(s: Session)
    requires Orderly(s.waiters, s.living, s.woken, s.next)
    ensures var s' := FailAllStreams(s); Orderly(s'.waiters, s'.living, s'.woken, s'.next)
  {
    if s.waiters != [] {
      FrontLeaves(s.waiters, s.living, s.woken, s.next);
    }
  }

  lemma IoFailureCalms(s: Session)
    requires Orderly(s.waiters, s.living, s.woken, s.next)
    ensures Calm(ShutdownNow(FailAllStreams(s)), 0)
  {
    FailAllOrderly(s);
    ShutdownCalms(FailAllStreams(s));
  }

  /** The event ends or touches one stream. */
  predicate OnStream(e: Event) {
    e.Complete? || e.PeerReset? || e.Expire? || e.Header? || e.Data? || e.Finish? || e.Cancel?
  }

  lemma LeaveCalms(s: Session, id: Id)
    requires Calm(s, 0)
    ensures Calm(LeaveTable(s, id), 0)
  {
    ReleaseCalms(s.(table := Release(s.table, id), owners := s.owners - {id}));
  }

  lemma StreamEventCalms(s: Session, e: Event)
    requires Calm(s, 0) && Enabled(s, e) && OnStream(e)
    ensures Calm(Step(s, e), 0)
  {
    match e
    case Complete(id) => EndStreamCalms(s, id, NoFailure);
    case PeerReset(id) => EndStreamCalms(s, id, ResetByPeer);
    case Expire(id, kind) => EndStreamCalms(s, id, TimedOut(kind));
    case Header(id, now) => TouchCalms(s, id, true, now);
    case Data(id, now) => TouchCalms(s, id, false, now);
    case Finish(id) => LeaveCalms(s, id);
    case Cancel(id) => LeaveCalms(s, id);
  }

  lemma StepCalms(s: Session, e: Event)
    requires Calm(s, 0) && Enabled(s, e) && Permits(QUIET, s, e)
    ensures Calm(Step(s, e), 0)
  {
    match e
    case Enter(sub) => EnterCalms(s, sub);
    case Resume(t, sub) => ResumeCalms(s, t, sub);
    case GiveUp(t) => GiveUpCalms(s, t);
    case Settings(v) => WakeCalms(s.(peer := AtLeastOne(v)));
    case IoFailure => IoFailureCalms(s);
    case Shutdown => ShutdownCalms(s);
    case _ => StreamEventCalms(s, e);
  }

  /** In every run without these steps, sleeping requests imply as many woken requests as
      there are free slots. */
  lemma ServedAlways(configured: nat, es: seq<Event>)
    requires RunUnder(QUIET, configured, es)
    ensures Served(Run(Next, Open(configured), es))
  {
    forall s: Session, e: Event | Calm(s, 0) && Permits(QUIET, s, e)
      ensures Calm(Next(s, e), 0)
    {
      if Enabled(s, e) {
        StepCalms(s, e);
      }
    }
    AlwaysAllowed(Next, (s: Session) => Calm(s, 0), (s: Session, e: Event) => Permits(QUIET, s, e),
                  Open(configured), es);
  }

  // ---------------------------------------------------------------------------
  // Nobody is stranded without timeouts
  // ---------------------------------------------------------------------------

  ghost predicate Heeded(s: Session) {
    && Orderly(s.waiters, s.living, s.woken, s.next)
    && (s.waiters != [] ==> s.active > 0 || s.woken != {})
  }

  /** After a wake-up no queue is left alone, whatever led to it. */
  lemma WakeHeeds(s: Session)
    requires Orderly(s.waiters, s.living, s.woken, s.next)
    ensures Heeded(WakeStreamWaiters(s))
  {
    if s.waiters != [] && s.active < StreamLimit(s) {
      FrontLeaves(s.waiters, s.living, s.woken, s.next);
      assert s.waiters[0] in WakeStreamWaiters(s).woken;
    }
  }

  lemma ReleaseHeeds(s: Session)
    requires Orderly(s.waiters, s.living, s.woken, s.next)
    ensures Heeded(ReleaseSlot(s))
  {
    WakeHeeds(s.(active := if s.active > 0 then s.active - 1 else 0));
  }

  lemma EnterHeeds(s: Session, sub: Submission)
    requires Orderly(s.waiters, s.living, s.woken, s.next)
    ensures Heeded(TryEnter(s, sub))
  {
    if s.active < StreamLimit(s) {
      ReleaseHeeds(s.(active := s.active + 1, table := SubmittedTable(s.table, sub)));
    } else {
      NewcomerQueues(s.waiters, s.living, s.woken, s.next);
    }
  }

  lemma EndStreamHeeds(s: Session, id: Id, why: Failure)
    requires Heeded(s)
    ensures Heeded(EndStream(s, id, why))
  {
    var f := Find(s.table, id);
    if f.slot.Some? && f.table.streams[f.slot.value].state.callback {
      ReleaseHeeds(s.(table := Release(s.table, id)));
    }
  }

  lemma GiveUpHeeds(s: Session, t: Ticket)
    requires Heeded(s) && t !in s.woken
    ensures Heeded(s.(waiters := Without(s.waiters, t), living := s.living - {t}))
  {
    WithoutKeepsOrder(s.waiters, t);
    if s.waiters == [] {
      assert Without(s.waiters, t) == [];
    }
  }

  lemma ShutdownHeeds(s: Session)
    requires Orderly(s.waiters, s.living, s.woken, s.next)
    ensures Heeded(ShutdownNow(s))
  {
  }

  lemma TouchHeeds(s: Session, id: Id, header: bool, now: int)
    requires Heeded(s)
    ensures Heeded(TouchStream(s, id, header, now))
  {
  }

  predicate NoTimeout(e: Event) {
    !e.Timeout?
  }

  lemma ResumeHeeds(s: Session, t: Ticket, sub: Submission)
    requires Heeded(s) && t in s.woken
    ensures Heeded(TryEnter(s.(woken := s.woken - {t}, living := s.living - {t}), sub))
  {
    EnterHeeds(s.(woken := s.woken - {t}, living := s.living - {t}), sub);
  }

  lemma IoFailureHeeds(s: Session)
    requires Heeded(s)
    ensures Heeded(ShutdownNow(FailAllStreams(s)))
  {
    FailAllOrderly(s);
    ShutdownHeeds(FailAllStreams(s));
  }

  lemma LeaveHeeds(s: Session, id: Id)
    requires Heeded(s)
    ensures Heeded(LeaveTable(s, id))
  {
    ReleaseHeeds(s.(table := Release(s.table, id), owners := s.owners - {id}));
  }

  lemma StreamEventHeeds(s: Session, e: Event)
    requires Heeded(s) && Enabled(s, e) && OnStream(e)
    ensures Heeded(Step(s, e))
  {
    match e
    case Complete(id) => EndStreamHeeds(s, id, NoFailure);
    case PeerReset(id) => EndStreamHeeds(s, id, ResetByPeer);
    case Expire(id, kind) => EndStreamHeeds(s, id, TimedOut(kind));
    case Header(id, now) => TouchHeeds(s, id, true, now);
    case Data(id, now) => TouchHeeds(s, id, false, now);
    case Finish(id) => LeaveHeeds(s, id);
    case Cancel(id) => LeaveHeeds(s, id);
  }

  lemma StepHeeds(s: Session, e: Event)
    requires Heeded(s) && Enabled(s, e) && NoTimeout(e)
    ensures Heeded(Step(s, e))
  {
    match e
    case Enter(sub) => EnterHeeds(s, sub);
    case Resume(t, sub) => ResumeHeeds(s, t, sub);
    case GiveUp(t) => GiveUpHeeds(s, t);
    case Settings(v) => WakeHeeds(s.(peer := AtLeastOne(v)));
    case IoFailure => IoFailureHeeds(s);
    case Shutdown => ShutdownHeeds(s);
    case _ => StreamEventHeeds(s, e);
  }

  /** In every run without pool timeouts, whatever the peer does to the limit, a sleeping
      request has an active stream or a woken request ahead of it. */
  lemma NoStreamWaiterStranded(configured: nat, es: seq<Event>)
    requires forall i :: 0 <= i < |es| ==> NoTimeout(es[i])
    ensures Attended(Run(Next, Open(configured), es))
  {
    forall s, e | Heeded(s) && NoTimeout(e)
      ensures Heeded(Next(s, e))
    {
      if Enabled(s, e) {
        StepHeeds(s, e);
      }
    }
    AlwaysUnder(Next, Heeded, NoTimeout, Open(configured), es);
  }

  // ---------------------------------------------------------------------------
  // Runs that break the laws
  // ---------------------------------------------------------------------------

  function Plain(id: Id): Submission {
    Submission(false, id, id, true, Timing(0, 0, 0, 0))
  }

  /** All of a session but its table and its handlers. */
  datatype Queue = Queue(
    configured: nat,
    peer: nat,
    active: nat,
    owners: set<Id>,
    waiters: seq<Ticket>,
    living: set<Ticket>,
    woken: set<Ticket>,
    next: Ticket,
    used: set<Id>)

  function View(s: Session): Queue {
    Queue(s.configured, s.peer, s.active, s.owners, s.waiters, s.living, s.woken, s.next, s.used)
  }

  /** A permitted run leads to an open session that looks like this. */
  ghost predicate Reached(c: Setting, es: seq<Event>, q: Queue) {
    && RunUnder(c, q.configured, es)
    && View(Run(Next, Open(q.configured), es)) == q
    && !Run(Next, Open(q.configured), es).closed
  }

  lemma ThenStep(c: Setting, configured: nat, es: seq<Event>, e: Event)
    requires RunUnder(c, configured, es) && Permits(c, Run(Next, Open(configured), es), e)
    ensures RunUnder(c, configured, es + [e])
    ensures Run(Next, Open(configured), es + [e]) == Next(Run(Next, Open(configured), es), e)
  {
    AllowedThen(Next, (s: Session, e: Event) => Permits(c, s, e), Open(configured), es, e);
  }

  lemma Begun(c: Setting, configured: nat)
    ensures Reached(c, [], Queue(configured, 100, 0, {}, [], {}, {}, 0, {}))
  {
  }

  function Limit(q: Queue): nat {
    if AtLeastOne(q.configured) <= AtLeastOne(q.peer) then AtLeastOne(q.configured) else AtLeastOne(q.peer)
  }

  /** A request is admitted while a slot is free. */
  lemma ThenAdmitted(c: Setting, es: seq<Event>, q: Queue, sub: Submission)
    requires Reached(c, es, q) && sub.accepted && q.active < Limit(q)
    requires sub.expected !in q.used && sub.actual !in q.used
    ensures Reached(c, es + [Enter(sub)],
                    q.(active := q.active + 1, used := q.used + {sub.actual},
                       owners := if sub.callback then q.owners else q.owners + {sub.actual}))
  {
    ThenStep(c, q.configured, es, Enter(sub));
  }

  /** A request that finds no slot queues. */
  lemma ThenQueued(c: Setting, es: seq<Event>, q: Queue, sub: Submission)
    requires Reached(c, es, q) && q.active >= Limit(q)
    requires sub.expected !in q.used && sub.actual !in q.used
    ensures Reached(c, es + [Enter(sub)],
                    q.(waiters := q.waiters + [q.next], living := q.living + {q.next}, next := q.next + 1))
  {
    ThenStep(c, q.configured, es, Enter(sub));
  }

  lemma ThenTimedOut(c: Setting, es: seq<Event>, q: Queue, t: Ticket)
    requires Reached(c, es, q) && c.timeouts && t in q.living
    ensures Reached(c, es + [Timeout(t)], q.(living := q.living - {t}, woken := q.woken - {t}))
  {
    ThenStep(c, q.configured, es, Timeout(t));
  }

  function Woken(q: Queue): Queue {
    if q.waiters != [] && q.active < Limit(q) then
      q.(waiters := q.waiters[1..],
         woken := if q.waiters[0] in q.living then q.woken + {q.waiters[0]} else q.woken)
    else q
  }

  lemma ThenFinished(c: Setting, es: seq<Event>, q: Queue, id: Id)
    requires Reached(c, es, q) && id in q.owners && q.active > 0
    ensures Reached(c, es + [Finish(id)], Woken(q.(active := q.active - 1, owners := q.owners - {id})))
  {
    ThenStep(c, q.configured, es, Finish(id));
    LeaveView(Run(Next, Open(q.configured), es), id);
  }

  lemma LeaveView(s: Session, id: Id)
    requires s.active > 0
    ensures View(LeaveTable(s, id)) == Woken(View(s).(active := s.active - 1, owners := s.owners - {id}))
    ensures LeaveTable(s, id).closed == s.closed
  {
  }

  lemma ThenSettings(c: Setting, es: seq<Event>, q: Queue, v: nat)
    requires Reached(c, es, q) && v > 0 && (Limit(q.(peer := v)) > Limit(q) + 1 ==> c.leaps)
    ensures Reached(c, es + [Settings(v)], Woken(q.(peer := v)))
  {
    ThenStep(c, q.configured, es, Settings(v));
  }

  lemma Unserved(c: Setting, es: seq<Event>, q: Queue, t: Ticket)
    requires Reached(c, es, q) && t in q.waiters && t in q.living
    ensures |q.woken| < Limit(q) - q.active ==> !Served(Run(Next, Open(q.configured), es))
    ensures q.active == 0 && q.woken == {} ==> !Attended(Run(Next, Open(q.configured), es))
  {
  }

  /** One request holds the only slot, one times out in the queue, one queues behind it,
      and the slot is given back: the wake-up goes to the one that is gone. */
  lemma TimeoutStrands() returns (es: seq<Event>)
    ensures var s := Run(Next, Open(1), es); !Attended(s) && !Served(s)
    ensures RunUnder(Setting(true, false), 1, es)
  {
    var c := Setting(true, false);
    var e1, e2, e3, e4, e5 := Enter(Plain(1)), Enter(Plain(3)), Timeout(0), Enter(Plain(3)), Finish(1);
    Begun(c, 1);
    ThenAdmitted(c, [], Queue(1, 100, 0, {}, [], {}, {}, 0, {}), Plain(1));
    assert {} + {1} == {1};
    ThenQueued(c, [] + [e1], Queue(1, 100, 1, {1}, [], {}, {}, 0, {1}), Plain(3));
    assert [] + [0] == [0] && {} + {0} == {0};
    ThenTimedOut(c, [] + [e1] + [e2], Queue(1, 100, 1, {1}, [0], {0}, {}, 1, {1}), 0);
    assert {0} - {0} == {};
    ThenQueued(c, [] + [e1] + [e2] + [e3], Queue(1, 100, 1, {1}, [0], {}, {}, 1, {1}), Plain(3));
    ThenFinished(c, [] + [e1] + [e2] + [e3] + [e4], Queue(1, 100, 1, {1}, [0] + [1], {} + {1}, {}, 2, {1}), 1);
    es := [] + [e1] + [e2] + [e3] + [e4] + [e5];
    Unserved(c, es, Queue(1, 100, 0, {1} - {1}, ([0] + [1])[1..], {} + {1}, {}, 2, {1}), 1);
  }

  /** The limit rises from one to three while two requests wait: one of them is woken. */
  lemma LeapLeavesAsleep() returns (es: seq<Event>)
    ensures !Served(Run(Next, Open(3), es))
    ensures RunUnder(Setting(false, true), 3, es)
  {
    var c := Setting(false, true);
    var e1, e2, e3, e4, e5 := Settings(1), Enter(Plain(1)), Enter(Plain(3)), Enter(Plain(3)), Settings(3);
    Begun(c, 3);
    ThenSettings(c, [], Queue(3, 100, 0, {}, [], {}, {}, 0, {}), 1);
    ThenAdmitted(c, [] + [e1], Queue(3, 1, 0, {}, [], {}, {}, 0, {}), Plain(1));
    assert {} + {1} == {1};
    ThenQueued(c, [] + [e1] + [e2], Queue(3, 1, 1, {1}, [], {}, {}, 0, {1}), Plain(3));
    assert [] + [0] == [0] && {} + {0} == {0};
    ThenQueued(c, [] + [e1] + [e2] + [e3], Queue(3, 1, 1, {1}, [0], {0}, {}, 1, {1}), Plain(3));
    ThenSettings(c, [] + [e1] + [e2] + [e3] + [e4], Queue(3, 1, 1, {1}, [0] + [1], {0} + {1}, {}, 2, {1}), 3);
    es := [] + [e1] + [e2] + [e3] + [e4] + [e5];
    Unserved(c, es, Queue(3, 3, 1, {1}, ([0] + [1])[1..], {0} + {1}, {} + {0}, 2, {1}), 1);
  }

  // ---------------------------------------------------------------------------
  // Exactly when the laws hold
  // ---------------------------------------------------------------------------

  ghost predicate TimeoutsOnlyIf(timeouts: bool, es: seq<Event>) {
    forall i :: 0 <= i < |es| ==> timeouts || NoTimeout(es[i])
  }

  /** A sleeping request is attended in all runs exactly if no request can time out while
      it waits. */
  lemma NoStreamWaiterStrandedExactly(timeouts: bool)
    ensures (forall configured: nat, es: seq<Event> ::
               TimeoutsOnlyIf(timeouts, es) ==> Attended(Run(Next, Open(configured), es)))
            <==> !timeouts
  {
    if timeouts {
      var es := TimeoutStrands();
      assert TimeoutsOnlyIf(timeouts, es) && !Attended(Run(Next, Open(1), es));
    } else {
      forall configured: nat, es: seq<Event> | TimeoutsOnlyIf(timeouts, es)
        ensures Attended(Run(Next, Open(configured), es))
      {
        NoStreamWaiterStranded(configured, es);
      }
    }
  }

  lemma {:induction false} MoreAllowed(c: Setting, d: Setting, s: Session, es: seq<Event>)
    requires Allowed(Next, (s: Session, e: Event) => Permits(c, s, e), s, es)
    requires (c.timeouts ==> d.timeouts) && (c.leaps ==> d.leaps)
    ensures Allowed(Next, (s: Session, e: Event) => Permits(d, s, e), s, es)
    decreases |es|
  {
    if es != [] {
      MoreAllowed(c, d, Next(s, es[0]), es[1..]);
    }
  }

  ghost predicate AllServed(c: Setting) {
    forall configured: nat, es: seq<Event> ::
      RunUnder(c, configured, es) ==> Served(Run(Next, Open(configured), es))
  }

  /** Free slots are covered by woken requests in all runs of a setting exactly if it allows
      no pool timeout and no limit raised by two or more at once. */
  lemma WaitersServedExactly(c: Setting)
    ensures AllServed(c) <==> !c.timeouts && !c.leaps
  {
    if c == QUIET {
      forall configured: nat, es: seq<Event> | RunUnder(c, configured, es)
        ensures Served(Run(Next, Open(configured), es))
      {
        ServedAlways(configured, es);
      }
    } else if c.timeouts {
      var es := TimeoutStrands();
      MoreAllowed(Setting(true, false), c, Open(1), es);
      assert RunUnder(c, 1, es);
    } else {
      var es := LeapLeavesAsleep();
      MoreAllowed(Setting(false, true), c, Open(3), es);
      assert RunUnder(c, 3, es);
    }
  }
}
