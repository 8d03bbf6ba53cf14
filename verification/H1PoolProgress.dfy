/** Wake-ups and reservations of the pool: no waiter is left behind, and a waiter
    that was woken with a reservation finds its idle connection.  Each law comes with
    the exact set of disturbing steps that it survives. */
module H1PoolProgress {
  import opened H1Pool
  import opened H1PoolSafety
  import opened Runs

  /** Suspended coroutines that were woken and have not resumed yet. */
  ghost function Awake(suspended: map<Ticket, Kind>, flags: map<Ticket, Waiter>): set<Ticket> {
    set t | t in suspended && IsWoken(flags, t)
  }

  /** ... and those of them that were woken with a reservation. */
  ghost function Reservers(suspended: map<Ticket, Kind>, flags: map<Ticket, Waiter>): set<Ticket> {
    set t | t in suspended && IsReserved(flags, t)
  }

  ghost predicate Progress(s: System) {
    |s.opening| > 0 || |s.holding| > 0 || Awake(s.suspended, s.pool.flags) != {}
  }

  ghost predicate Attended(s: System) {
    s.pool.waiters != [] ==> Progress(s)
  }

  ghost predicate AllSuspended(q: seq<Ticket>, suspended: map<Ticket, Kind>) {
    forall i :: 0 <= i < |q| ==> q[i] in suspended
  }

  ghost predicate ReservationsExact(s: System) {
    s.pool.reserved == |Reservers(s.suspended, s.pool.flags)| <= |s.pool.idle|
  }

  ghost predicate ConnectingExact(s: System) {
    s.pool.connecting == |s.opening| <= s.limits.Connecting()
  }

  // ---------------------------------------------------------------------------
  // One wake-up
  // ---------------------------------------------------------------------------

  lemma WakeEffect(p: Pool, reserve: bool, suspended: map<Ticket, Kind>)
    requires Fifo(p.waiters, p.flags) && AllSuspended(p.waiters, suspended)
    ensures var w := Wake(p, reserve);
            && AllSuspended(w.waiters, suspended)
            && Awake(suspended, p.flags) <= Awake(suspended, w.flags)
            && (w.waiters != [] ==> Awake(suspended, w.flags) != {})
            && |Reservers(suspended, w.flags)|
               == |Reservers(suspended, p.flags)| + (if reserve && Wakes(p) then 1 else 0)
  {
    var k := FirstLive(p.waiters, p.flags);
    var w := Wake(p, reserve);
    if k < |p.waiters| {
      var t := p.waiters[k];
      assert !IsReserved(p.flags, t);
      assert t in Awake(suspended, w.flags);
      var now := Reservers(suspended, w.flags);
      var before := Reservers(suspended, p.flags);
      assert now == if reserve then before + {t} else before;
    }
  }

  lemma AbandonEffect(p: Pool, t: Ticket, suspended: map<Ticket, Kind>)
    requires Fifo(p.waiters, p.flags) && t in p.flags && !IsWoken(p.flags, t)
    ensures var w := AbandonWait(p, t);
            && Awake(suspended - {t}, w.flags) == Awake(suspended, p.flags)
            && Reservers(suspended - {t}, w.flags) == Reservers(suspended, p.flags)
            && (AllSuspended(p.waiters, suspended) ==> AllSuspended(w.waiters, suspended - {t}))
            && (w.waiters != [] ==> p.waiters != [])
  {
    var w := AbandonWait(p, t);
    forall i | 0 <= i < |w.waiters|
      ensures w.waiters[i] in p.waiters && w.waiters[i] != t
    {
      assert w.waiters[i] in w.waiters;
    }
  }

  lemma FlagEffect(p: Pool, t: Ticket, suspended: map<Ticket, Kind>)
    ensures var w := SetCancelled(p, t);
            && Awake(suspended, w.flags) == Awake(suspended, p.flags)
            && Reservers(suspended, w.flags) == Reservers(suspended, p.flags)
  {
  }

  lemma EnqueueEffect(p: Pool, t: Ticket, suspended: map<Ticket, Kind>, kind: Kind)
    requires t !in p.flags && t !in suspended
    ensures var w := Enqueue(p, t);
            && Awake(suspended[t := kind], w.flags) == Awake(suspended, p.flags)
            && Reservers(suspended[t := kind], w.flags) == Reservers(suspended, p.flags)
            && (AllSuspended(p.waiters, suspended) ==> AllSuspended(w.waiters, suspended[t := kind]))
  {
  }

  lemma ResumeEffect(flags: map<Ticket, Waiter>, t: Ticket, suspended: map<Ticket, Kind>)
    requires t in suspended
    ensures Reservers(suspended - {t}, flags) == Reservers(suspended, flags) - {t}
    ensures |Reservers(suspended, flags)|
            == |Reservers(suspended - {t}, flags)| + (if IsReserved(flags, t) then 1 else 0)
  {
    assert Reservers(suspended - {t}, flags) == Reservers(suspended, flags) - {t};
  }

  lemma ReserverIsAwake(s: System)
    requires Fifo(s.pool.waiters, s.pool.flags)
    requires |Reservers(s.suspended, s.pool.flags)| > 0
    ensures Awake(s.suspended, s.pool.flags) != {}
  {
    var t :| t in Reservers(s.suspended, s.pool.flags);
    assert t in Awake(s.suspended, s.pool.flags);
  }

  // ---------------------------------------------------------------------------
  // No lost wake-up: kept by every step but a pool timeout and a throwing probe
  // ---------------------------------------------------------------------------

  ghost predicate Accounted(s: System) {
    && s.pool.active == |s.pool.idle| + |s.holding| + |s.opening|
    && s.pool.connecting <= |s.opening|
    && s.pool.reserved <= |s.pool.idle|
    && AllSuspended(s.pool.waiters, s.suspended)
  }

  ghost predicate Calm(s: System) {
    && Accounted(s)
    && s.pool.reserved <= |Reservers(s.suspended, s.pool.flags)|
    && Attended(s)
  }

  lemma WaitIsAttended(s: System, kind: Kind, woke: bool, hasReservation: bool)
    requires Fifo(s.pool.waiters, s.pool.flags) && Accounted(s)
    requires s.pool.reserved <= |Reservers(s.suspended, s.pool.flags)| + (if hasReservation then 1 else 0)
    requires !woke ==> !hasReservation && Attended(s)
    requires Pass(s, kind, woke, hasReservation).outcome.Wait?
    ensures Progress(s)
    ensures var q := Pass(s, kind, woke, hasReservation).pool;
            q.reserved <= |Reservers(s.suspended, s.pool.flags)| && q.reserved <= |q.idle|
  {
    if |Reservers(s.suspended, s.pool.flags)| > 0 {
      ReserverIsAwake(s);
    }
  }

  lemma SettleCalm(s: System, kind: Kind, woke: bool, hasReservation: bool)
    requires Fifo(s.pool.waiters, s.pool.flags) && Numbered(s) && Accounted(s)
    requires s.pool.reserved <= |Reservers(s.suspended, s.pool.flags)| + (if hasReservation then 1 else 0)
    requires !woke ==> !hasReservation && Attended(s)
    ensures Calm(Settle(s, kind, Pass(s, kind, woke, hasReservation)))
  {
    var d := Pass(s, kind, woke, hasReservation);
    PassShape(s, kind, woke, hasReservation);
    match d.outcome
    case Take(c) => SizeAdded(s.holding, s.next, Held(kind, c));
    case Connect => SizeAdded(s.opening, s.next, kind);
    case Wait =>
      WaitIsAttended(s, kind, woke, hasReservation);
      EnqueueEffect(d.pool, s.next, s.suspended, kind);
  }

  predicate Quiet(e: Event) {
    !e.Timeout? && !e.ProbeThrow?
  }

  lemma CalmKeptByConnect(s: System, e: Event)
    requires Fifo(s.pool.waiters, s.pool.flags) && Numbered(s) && Calm(s) && Enabled(s, e)
    requires e.ConnectOk? || e.ConnectFail?
    ensures Calm(Step(s, e))
  {
    var p := s.pool;
    SizeRemoved(s.opening, e.actor);
    SizeAdded(s.holding, e.actor, Held(s.opening[e.actor], e.actor));
    if e.ConnectFail? {
      WakeEffect(p.(connecting := Less(p.connecting), active := Less(p.active)), false, s.suspended);
    } else if s.opening[e.actor] == Preconnect {
      WakeEffect(p.(connecting := Less(p.connecting), idle := p.idle + [e.actor]), true, s.suspended);
    } else {
      WakeEffect(p.(connecting := Less(p.connecting)), false, s.suspended);
    }
  }

  lemma CalmKeptByReturn(s: System, e: Event)
    requires Fifo(s.pool.waiters, s.pool.flags) && Numbered(s) && Calm(s) && Enabled(s, e)
    requires e.ReturnOk? || e.ReturnError?
    ensures Calm(Step(s, e))
  {
    var p := s.pool;
    SizeRemoved(s.holding, e.actor);
    if e.ReturnOk? {
      WakeEffect(p.(idle := p.idle + [s.holding[e.actor].conn]), true, s.suspended);
    } else {
      WakeEffect(p.(active := Less(p.active)), false, s.suspended);
    }
  }

  lemma CalmKeptByPass(s: System, e: Event)
    requires Fifo(s.pool.waiters, s.pool.flags) && Numbered(s) && Calm(s) && Enabled(s, e)
    requires e.Arrive? || e.Resume?
    ensures Calm(Step(s, e))
  {
    match e
    case Arrive(kind) => SettleCalm(s, kind, false, false);
    case Resume(t) =>
      ResumeEffect(s.pool.flags, t, s.suspended);
      SettleCalm(s.(suspended := s.suspended - {t}), s.suspended[t], true, IsReserved(s.pool.flags, t));
  }

  lemma CalmKept(s: System, e: Event)
    requires Fifo(s.pool.waiters, s.pool.flags) && Numbered(s) && Calm(s) && Enabled(s, e) && Quiet(e)
    ensures Calm(Step(s, e))
  {
    if e.Arrive? || e.Resume? {
      CalmKeptByPass(s, e);
    } else if e.ConnectOk? || e.ConnectFail? {
      CalmKeptByConnect(s, e);
    } else if e.ReturnOk? || e.ReturnError? {
      CalmKeptByReturn(s, e);
    } else if e.GiveUp? {
      AbandonEffect(s.pool, e.ticket, s.suspended);
    } else if e.FlagCancel? {
      FlagEffect(s.pool, e.ticket, s.suspended);
    } else if e.StartPreconnect? {
      SizeAdded(s.opening, s.next, Preconnect);
    } else if e.Reset? {
      WakeEffect(CloseAllIdle(s.pool), false, s.suspended);
    }
  }

  ghost predicate SafeAndCalm(s: System) {
    Safe(s) && Calm(s)
  }

  /** In every run without a pool timeout and without a throwing probe, a queued waiter
      implies a coroutine that connects, holds a connection, or is woken. */
  lemma NoLostWakeup(limits: Limits, es: seq<Event>)
    requires forall i :: 0 <= i < |es| ==> !es[i].Timeout? && !es[i].ProbeThrow?
    ensures Attended(Run(Next, Start(limits), es))
  {
    forall s, e | SafeAndCalm(s) && Quiet(e)
      ensures SafeAndCalm(Next(s, e))
    {
      NextSafe(s, e);
      if Enabled(s, e) {
        CalmKept(s, e);
      }
    }
    AlwaysUnder(Next, SafeAndCalm, Quiet, Start(limits), es);
  }

  // ---------------------------------------------------------------------------
  // Exact reservations: kept by every step but a timeout, a reset and an eviction
  // ---------------------------------------------------------------------------

  ghost predicate Honoured(s: System) {
    AllSuspended(s.pool.waiters, s.suspended) && ReservationsExact(s)
  }

  lemma SettleHonoured(s: System, kind: Kind, woke: bool, hasReservation: bool)
    requires Fifo(s.pool.waiters, s.pool.flags) && Numbered(s)
    requires AllSuspended(s.pool.waiters, s.suspended)
    requires s.pool.reserved <= |s.pool.idle|
    requires s.pool.reserved == |Reservers(s.suspended, s.pool.flags)| + (if hasReservation then 1 else 0)
    ensures Honoured(Settle(s, kind, Pass(s, kind, woke, hasReservation)))
    ensures hasReservation ==>
              var last := |s.pool.idle| - 1;
              && 0 <= last
              && Pass(s, kind, woke, hasReservation).outcome == Take(s.pool.idle[last])
  {
    var d := Pass(s, kind, woke, hasReservation);
    if d.outcome.Wait? {
      PassShape(s, kind, woke, hasReservation);
      EnqueueEffect(d.pool, s.next, s.suspended, kind);
    }
  }

  predicate Undisturbed(e: Event) {
    !e.Timeout? && !e.Reset? && !e.Evict?
  }

  lemma HonouredKeptByPass(s: System, e: Event)
    requires Fifo(s.pool.waiters, s.pool.flags) && Numbered(s) && Honoured(s) && Enabled(s, e)
    requires e.Arrive? || e.Resume?
    ensures Honoured(Step(s, e))
  {
    match e
    case Arrive(kind) => SettleHonoured(s, kind, false, false);
    case Resume(t) =>
      ResumeEffect(s.pool.flags, t, s.suspended);
      SettleHonoured(s.(suspended := s.suspended - {t}), s.suspended[t], true, IsReserved(s.pool.flags, t));
  }

  lemma HonouredKeptByWake(s: System, e: Event)
    requires Fifo(s.pool.waiters, s.pool.flags) && Honoured(s) && Enabled(s, e)
    requires e.ConnectOk? || e.ConnectFail? || e.ReturnOk? || e.ReturnError?
    ensures Honoured(Step(s, e))
  {
    var p := s.pool;
    match e
    case ConnectOk(a) =>
      WakeEffect(p.(connecting := Less(p.connecting), idle := p.idle + [a]), true, s.suspended);
      WakeEffect(p.(connecting := Less(p.connecting)), false, s.suspended);
    case ConnectFail(a) =>
      WakeEffect(p.(connecting := Less(p.connecting), active := Less(p.active)), false, s.suspended);
    case ReturnOk(a) => WakeEffect(p.(idle := p.idle + [s.holding[a].conn]), true, s.suspended);
    case ReturnError(a) => WakeEffect(p.(active := Less(p.active)), false, s.suspended);
  }

  lemma HonouredKept(s: System, e: Event)
    requires Fifo(s.pool.waiters, s.pool.flags) && Numbered(s) && Honoured(s) && Enabled(s, e) && Undisturbed(e)
    ensures Honoured(Step(s, e))
  {
    if e.Arrive? || e.Resume? {
      HonouredKeptByPass(s, e);
    } else if e.ConnectOk? || e.ConnectFail? || e.ReturnOk? || e.ReturnError? {
      HonouredKeptByWake(s, e);
    } else if e.GiveUp? {
      AbandonEffect(s.pool, e.ticket, s.suspended);
    } else if e.FlagCancel? {
      FlagEffect(s.pool, e.ticket, s.suspended);
    }
  }

  ghost predicate SafeAndHonoured(s: System) {
    Safe(s) && Honoured(s)
  }

  lemma HonouredAlways(limits: Limits, es: seq<Event>)
    requires forall i :: 0 <= i < |es| ==> Undisturbed(es[i])
    ensures SafeAndHonoured(Run(Next, Start(limits), es))
  {
    forall s, e | SafeAndHonoured(s) && Undisturbed(e)
      ensures SafeAndHonoured(Next(s, e))
    {
      NextSafe(s, e);
      if Enabled(s, e) {
        HonouredKept(s, e);
      }
    }
    AlwaysUnder(Next, SafeAndHonoured, Undisturbed, Start(limits), es);
  }

  lemma ReservedResume(s: System, t: Ticket)
    requires Fifo(s.pool.waiters, s.pool.flags) && Numbered(s) && Honoured(s)
    requires t in s.suspended && IsReserved(s.pool.flags, t)
    ensures var last := |s.pool.idle| - 1;
            && 0 <= last && s.pool.reserved > 0
            && ResumeStep(s, t) ==
               s.(pool := s.pool.(idle := s.pool.idle[..last], reserved := s.pool.reserved - 1),
                  suspended := s.suspended - {t},
                  holding := s.holding[s.next := Held(s.suspended[t], s.pool.idle[last])],
                  next := s.next + 1)
  {
    ResumeEffect(s.pool.flags, t, s.suspended);
    SettleHonoured(s.(suspended := s.suspended - {t}), s.suspended[t], true, true);
  }

  /** In every run without timeouts, resets and evictions, a waiter woken with a
      reservation leaves with the last idle connection as soon as it resumes. */
  lemma ReservedWaiterGetsIdle(limits: Limits, es: seq<Event>, s: System, t: Ticket)
    requires s == Run(Next, Start(limits), es)
    requires forall i :: 0 <= i < |es| ==> !es[i].Timeout? && !es[i].Reset? && !es[i].Evict?
    requires t in s.suspended && IsReserved(s.pool.flags, t)
    ensures var last := |s.pool.idle| - 1;
            && 0 <= last && s.pool.reserved > 0
            && Enabled(s, Resume(t))
            && Step(s, Resume(t)) ==
               s.(pool := s.pool.(idle := s.pool.idle[..last], reserved := s.pool.reserved - 1),
                  suspended := s.suspended - {t},
                  holding := s.holding[s.next := Held(s.suspended[t], s.pool.idle[last])],
                  next := s.next + 1)
  {
    HonouredAlways(limits, es);
    ReservedResume(s, t);
  }

  // ---------------------------------------------------------------------------
  // The count of simultaneous connects: kept by every step but a reset
  // ---------------------------------------------------------------------------

  lemma ConnectingKeptByPass(s: System, e: Event)
    requires Numbered(s) && ConnectingExact(s) && Enabled(s, e) && (e.Arrive? || e.Resume?)
    ensures ConnectingExact(Step(s, e))
  {
    match e
    case Arrive(kind) =>
      PassShape(s, kind, false, false);
      SettleConnecting(s, kind, Pass(s, kind, false, false));
    case Resume(t) =>
      var awake := s.(suspended := s.suspended - {t});
      PassShape(awake, s.suspended[t], true, IsReserved(s.pool.flags, t));
      SettleConnecting(awake, s.suspended[t], Pass(awake, s.suspended[t], true, IsReserved(s.pool.flags, t)));
  }

  lemma ConnectingKept(s: System, e: Event)
    requires Numbered(s) && Bound(s) && ConnectingExact(s) && Enabled(s, e) && !e.Reset?
    ensures ConnectingExact(Step(s, e))
  {
    if e.Arrive? || e.Resume? {
      ConnectingKeptByPass(s, e);
    } else if e.ConnectOk? || e.ConnectFail? {
      ConnectingKeptByConnect(s, e);
    } else if e.StartPreconnect? {
      SizeAdded(s.opening, s.next, Preconnect);
    } else if e.Evict? {
      ConnectingKeptByEviction(s);
    } else {
      ConnectingUntouched(s, e);
    }
  }

  lemma WakeSameConnecting(p: Pool, reserve: bool)
    ensures Wake(p, reserve).connecting == p.connecting
  {
  }

  lemma ConnectingKeptByConnect(s: System, e: Event)
    requires ConnectingExact(s) && Enabled(s, e) && (e.ConnectOk? || e.ConnectFail?)
    ensures ConnectingExact(Step(s, e))
  {
    var p := s.pool.(connecting := Less(s.pool.connecting));
    SizeRemoved(s.opening, e.actor);
    if e.ConnectFail? {
      WakeSameConnecting(p.(active := Less(p.active)), false);
    } else if s.opening[e.actor] == Preconnect {
      WakeSameConnecting(p.(idle := p.idle + [e.actor]), true);
    } else {
      WakeSameConnecting(p, false);
    }
  }

  lemma ConnectingKeptByEviction(s: System)
    requires Bound(s) && ConnectingExact(s) && PoolIdle(s.pool)
    ensures ConnectingExact(s.(pool := CloseIdle(s.pool)))
  {
  }

  /** The remaining events neither start nor end a connect. */
  lemma ConnectingUntouched(s: System, e: Event)
    requires Enabled(s, e) && !e.Arrive? && !e.Resume? && !e.ConnectOk? && !e.ConnectFail?
    requires !e.StartPreconnect? && !e.Reset? && !e.Evict?
    ensures var s' := Step(s, e);
            s'.pool.connecting == s.pool.connecting && s'.opening == s.opening && s'.limits == s.limits
  {
    if e.ReturnOk? {
      WakeSameConnecting(s.pool.(idle := s.pool.idle + [s.holding[e.actor].conn]), true);
    } else if e.ReturnError? {
      WakeSameConnecting(s.pool.(active := Less(s.pool.active)), false);
    }
  }

  lemma SettleConnecting(s: System, kind: Kind, d: Decision)
    requires Numbered(s) && ConnectingExact(s) && Shape(s.pool, s.limits, d)
    ensures ConnectingExact(Settle(s, kind, d))
  {
    SizeAdded(s.opening, s.next, kind);
  }

  ghost predicate SafeAndCounted(s: System) {
    Safe(s) && ConnectingExact(s)
  }

  predicate NotReset(e: Event) {
    !e.Reset?
  }

  lemma ConnectingAlways(limits: Limits, es: seq<Event>)
    requires forall i :: 0 <= i < |es| ==> NotReset(es[i])
    ensures ConnectingExact(Run(Next, Start(limits), es))
  {
    forall s, e | SafeAndCounted(s) && NotReset(e)
      ensures SafeAndCounted(Next(s, e))
    {
      NextSafe(s, e);
      if Enabled(s, e) {
        ConnectingKept(s, e);
      }
    }
    AlwaysUnder(Next, SafeAndCounted, NotReset, Start(limits), es);
  }
}
