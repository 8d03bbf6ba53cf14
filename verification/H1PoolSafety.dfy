/** What every run of the pool keeps, whatever steps it takes: wake-ups follow the
    queue, no connection has two users, and the connection bound holds. */
module H1PoolSafety {
  import opened Sequences
  import opened H1Pool
  import opened Runs

  /** First come, first woken: a woken waiter is older than every queued one. */
  ghost predicate Fifo(q: seq<Ticket>, flags: map<Ticket, Waiter>) {
    && Increasing(q)
    && (forall i :: 0 <= i < |q| ==> q[i] in flags && !flags[q[i]].woken)
    && (forall t: Ticket, i :: IsWoken(flags, t) && 0 <= i < |q| ==> t < q[i])
    && (forall t: Ticket :: IsReserved(flags, t) ==> IsWoken(flags, t))
  }

  ghost predicate Below(keys: set<nat>, n: nat) {
    forall k :: k in keys ==> k < n
  }

  ghost predicate Numbered(s: System) {
    && Below(s.pool.flags.Keys, s.next)
    && s.suspended.Keys <= s.pool.flags.Keys
    && Below(s.opening.Keys, s.next)
    && Below(s.holding.Keys, s.next)
    && s.opening.Keys !! s.holding.Keys
  }

  /** idle + in use + connecting <= active <= max(1, configured). */
  ghost predicate Bound(s: System) {
    && |s.pool.idle| + |s.holding| + |s.opening| <= s.pool.active
    && s.pool.active <= s.limits.Connections()
  }

  /** Every open connection has exactly one place: one idle position or one user. */
  ghost predicate Exclusive(idle: seq<Conn>, holding: map<nat, Held>, opening: map<nat, Kind>, next: nat) {
    && (forall i, j :: 0 <= i < j < |idle| ==> idle[i] != idle[j])
    && (forall a, b :: a in holding && b in holding && a != b ==> holding[a].conn != holding[b].conn)
    && (forall a, i :: a in holding && 0 <= i < |idle| ==> holding[a].conn != idle[i])
    && (forall a :: a in holding ==> holding[a].conn < next && holding[a].conn !in opening)
    && (forall i :: 0 <= i < |idle| ==> idle[i] < next && idle[i] !in opening)
  }

  ghost predicate Safe(s: System) {
    && Fifo(s.pool.waiters, s.pool.flags)
    && Numbered(s)
    && Bound(s)
    && Exclusive(s.pool.idle, s.holding, s.opening, s.next)
  }

  // ---------------------------------------------------------------------------
  // The queue
  // ---------------------------------------------------------------------------

  lemma WakeKeepsFifo(p: Pool, reserve: bool)
    requires Fifo(p.waiters, p.flags)
    ensures Fifo(Wake(p, reserve).waiters, Wake(p, reserve).flags)
    ensures Wake(p, reserve).flags.Keys == p.flags.Keys
  {
    var k := FirstLive(p.waiters, p.flags);
    var w := Wake(p, reserve);
    if k < |p.waiters| {
      forall i | 0 <= i < |w.waiters|
        ensures w.waiters[i] == p.waiters[k + 1 + i] && w.waiters[i] > p.waiters[k]
      {
      }
      forall t: Ticket | t != p.waiters[k]
        ensures IsWoken(w.flags, t) == IsWoken(p.flags, t)
        ensures IsReserved(w.flags, t) == IsReserved(p.flags, t)
      {
      }
    }
  }

  lemma AbandonKeepsFifo(p: Pool, t: Ticket)
    requires Fifo(p.waiters, p.flags) && t in p.flags
    ensures Fifo(AbandonWait(p, t).waiters, AbandonWait(p, t).flags)
  {
    WithoutKeepsOrder(p.waiters, t);
    var w := AbandonWait(p, t);
    forall u: Ticket
      ensures IsWoken(w.flags, u) == IsWoken(p.flags, u)
      ensures IsReserved(w.flags, u) == IsReserved(p.flags, u)
    {
    }
    forall i | 0 <= i < |w.waiters|
      ensures w.waiters[i] in p.waiters
    {
      assert w.waiters[i] in w.waiters;
    }
  }

  lemma FlagKeepsFifo(p: Pool, t: Ticket)
    requires Fifo(p.waiters, p.flags) && t in p.flags
    ensures Fifo(SetCancelled(p, t).waiters, SetCancelled(p, t).flags)
  {
    forall u: Ticket
      ensures IsWoken(SetCancelled(p, t).flags, u) == IsWoken(p.flags, u)
      ensures IsReserved(SetCancelled(p, t).flags, u) == IsReserved(p.flags, u)
    {
    }
  }

  lemma EnqueueKeepsFifo(p: Pool, t: Ticket)
    requires Fifo(p.waiters, p.flags) && Below(p.flags.Keys, t)
    ensures Fifo(Enqueue(p, t).waiters, Enqueue(p, t).flags)
  {
    var w := Enqueue(p, t);
    forall u: Ticket
      ensures IsWoken(w.flags, u) == (u != t && IsWoken(p.flags, u))
      ensures IsReserved(w.flags, u) == (u != t && IsReserved(p.flags, u))
    {
    }
    forall i | 0 <= i < |p.waiters|
      ensures w.waiters[i] < t
    {
      assert p.waiters[i] in p.flags.Keys;
    }
  }

  /** What a pass may do to everything but the reservations. */
  ghost predicate Shape(p: Pool, limits: Limits, d: Decision) {
    && d.pool.waiters == p.waiters
    && d.pool.flags == p.flags
    && match d.outcome
       case Take(c) => p.idle != [] && c == p.idle[|p.idle| - 1] && d.pool.idle == p.idle[..|p.idle| - 1]
                       && d.pool.active == p.active && d.pool.connecting == p.connecting
       case Connect => d.pool.idle == p.idle && d.pool.active == p.active + 1 <= limits.Connections()
                       && d.pool.connecting == p.connecting + 1 <= limits.Connecting()
       case Wait => d.pool.idle == p.idle && d.pool.active == p.active && d.pool.connecting == p.connecting
  }

  lemma PassShape(s: System, kind: Kind, woke: bool, hasReservation: bool)
    ensures Shape(s.pool, s.limits, Pass(s, kind, woke, hasReservation))
  {
  }

  lemma SettleKeepsFifo(s: System, kind: Kind, d: Decision)
    requires Fifo(s.pool.waiters, s.pool.flags) && Numbered(s) && Shape(s.pool, s.limits, d)
    ensures var s' := Settle(s, kind, d); Fifo(s'.pool.waiters, s'.pool.flags) && Numbered(s')
  {
    EnqueueKeepsFifo(d.pool, s.next);
  }

  lemma FifoKept(s: System, e: Event)
    requires Fifo(s.pool.waiters, s.pool.flags) && Numbered(s) && Enabled(s, e)
    ensures var s' := Step(s, e); Fifo(s'.pool.waiters, s'.pool.flags) && Numbered(s')
  {
    var p := s.pool;
    match e
    case Arrive(kind) =>
      PassShape(s, kind, false, false);
      SettleKeepsFifo(s, kind, Pass(s, kind, false, false));
    case Resume(t) =>
      var awake := s.(suspended := s.suspended - {t});
      PassShape(awake, s.suspended[t], true, IsReserved(p.flags, t));
      SettleKeepsFifo(awake, s.suspended[t], Pass(awake, s.suspended[t], true, IsReserved(p.flags, t)));
    case GiveUp(t) => AbandonKeepsFifo(p, t);
    case FlagCancel(t) => FlagKeepsFifo(p, t);
    case ConnectOk(a) =>
      WakeKeepsFifo(p.(connecting := Less(p.connecting)), false);
      WakeKeepsFifo(p.(connecting := Less(p.connecting), idle := p.idle + [a]), true);
    case ConnectFail(a) =>
      WakeKeepsFifo(p.(connecting := Less(p.connecting), active := Less(p.active)), false);
    case ReturnOk(a) => WakeKeepsFifo(p.(idle := p.idle + [s.holding[a].conn]), true);
    case ReturnError(a) => WakeKeepsFifo(p.(active := Less(p.active)), false);
    case Reset => WakeKeepsFifo(CloseAllIdle(p), false);
    case _ =>
  }

  // ---------------------------------------------------------------------------
  // The connection bound
  // ---------------------------------------------------------------------------

  lemma SizeAdded<V>(m: map<nat, V>, k: nat, v: V)
    requires k !in m
    ensures |m[k := v]| == |m| + 1
  {
    assert m[k := v].Keys == m.Keys + {k};
  }

  lemma SizeRemoved<V>(m: map<nat, V>, k: nat)
    requires k in m
    ensures |m - {k}| == |m| - 1
  {
    assert (m - {k}).Keys == m.Keys - {k};
  }

  /** The guards around the decrements of `active` never cut anything off. */
  lemma ActiveGuardsNeverSaturate(s: System, e: Event)
    requires Bound(s) && Enabled(s, e)
    ensures e.ConnectFail? || e.ReturnError? ==> s.pool.active > 0
    ensures e.Reset? ==> |s.pool.idle| <= s.pool.active
  {
    match e
    case ConnectFail(a) => SizeRemoved(s.opening, a);
    case ReturnError(a) => SizeRemoved(s.holding, a);
    case _ =>
  }

  lemma SettleKeepsBound(s: System, kind: Kind, d: Decision)
    requires Numbered(s) && Bound(s) && Shape(s.pool, s.limits, d)
    ensures Bound(Settle(s, kind, d))
  {
    match d.outcome
    case Take(c) => SizeAdded(s.holding, s.next, Held(kind, c));
    case Connect => SizeAdded(s.opening, s.next, kind);
    case Wait =>
  }

  lemma BoundKeptByConnects(s: System, e: Event)
    requires Numbered(s) && Bound(s) && Enabled(s, e) && (e.ConnectOk? || e.ConnectFail?)
    ensures Bound(Step(s, e))
  {
    SizeRemoved(s.opening, e.actor);
    SizeAdded(s.holding, e.actor, Held(s.opening[e.actor], e.actor));
  }

  lemma BoundKeptByReturns(s: System, e: Event)
    requires Numbered(s) && Bound(s) && Enabled(s, e) && (e.ReturnOk? || e.ReturnError? || e.ProbeThrow?)
    ensures Bound(Step(s, e))
  {
    SizeRemoved(s.holding, e.actor);
  }

  lemma BoundKept(s: System, e: Event)
    requires Numbered(s) && Bound(s) && Enabled(s, e)
    ensures Bound(Step(s, e))
  {
    if e.ConnectOk? || e.ConnectFail? {
      BoundKeptByConnects(s, e);
    } else if e.ReturnOk? || e.ReturnError? || e.ProbeThrow? {
      BoundKeptByReturns(s, e);
    } else if e.Arrive? {
      PassShape(s, e.kind, false, false);
      SettleKeepsBound(s, e.kind, Pass(s, e.kind, false, false));
    } else if e.Resume? {
      var awake := s.(suspended := s.suspended - {e.ticket});
      var d := Pass(awake, s.suspended[e.ticket], true, IsReserved(s.pool.flags, e.ticket));
      PassShape(awake, s.suspended[e.ticket], true, IsReserved(s.pool.flags, e.ticket));
      SettleKeepsBound(awake, s.suspended[e.ticket], d);
    } else if e.StartPreconnect? {
      SizeAdded(s.opening, s.next, Preconnect);
    }
  }

  // ---------------------------------------------------------------------------
  // Exclusive connections
  // ---------------------------------------------------------------------------

  lemma ExclusiveTaken(idle: seq<Conn>, holding: map<nat, Held>, opening: map<nat, Kind>, next: nat, kind: Kind)
    requires Exclusive(idle, holding, opening, next) && idle != []
    requires Below(opening.Keys, next)
    ensures var last := |idle| - 1;
            Exclusive(idle[..last], holding[next := Held(kind, idle[last])], opening, next + 1)
  {
  }

  lemma ExclusiveOpened(idle: seq<Conn>, holding: map<nat, Held>, opening: map<nat, Kind>, next: nat, kind: Kind)
    requires Exclusive(idle, holding, opening, next)
    ensures Exclusive(idle, holding, opening[next := kind], next + 1)
    ensures Exclusive(idle, holding, opening, next + 1)
  {
  }

  lemma ExclusiveConnected(idle: seq<Conn>, holding: map<nat, Held>, opening: map<nat, Kind>, next: nat, a: nat)
    requires Exclusive(idle, holding, opening, next)
    requires a in opening && a !in holding && Below(opening.Keys, next)
    ensures Exclusive(idle, holding[a := Held(opening[a], a)], opening - {a}, next)
    ensures Exclusive(idle + [a], holding, opening - {a}, next)
    ensures Exclusive(idle, holding, opening - {a}, next)
  {
  }

  lemma ExclusiveReturned(idle: seq<Conn>, holding: map<nat, Held>, opening: map<nat, Kind>, next: nat, a: nat)
    requires Exclusive(idle, holding, opening, next) && a in holding
    ensures Exclusive(idle + [holding[a].conn], holding - {a}, opening, next)
    ensures Exclusive(idle, holding - {a}, opening, next)
  {
  }

  lemma SettleKeepsExclusive(s: System, kind: Kind, d: Decision)
    requires Numbered(s) && Exclusive(s.pool.idle, s.holding, s.opening, s.next) && Shape(s.pool, s.limits, d)
    ensures var s' := Settle(s, kind, d); Exclusive(s'.pool.idle, s'.holding, s'.opening, s'.next)
  {
    if d.outcome.Take? {
      ExclusiveTaken(s.pool.idle, s.holding, s.opening, s.next, kind);
    } else {
      ExclusiveOpened(s.pool.idle, s.holding, s.opening, s.next, kind);
    }
  }

  lemma ExclusivePass(s: System, kind: Kind, woken: bool, reserved: bool)
    requires Numbered(s) && Exclusive(s.pool.idle, s.holding, s.opening, s.next)
    ensures var s' := Settle(s, kind, Pass(s, kind, woken, reserved));
            Exclusive(s'.pool.idle, s'.holding, s'.opening, s'.next)
  {
    PassShape(s, kind, woken, reserved);
    SettleKeepsExclusive(s, kind, Pass(s, kind, woken, reserved));
  }

  lemma ExclusiveResumed(s: System, t: Ticket)
    requires Numbered(s) && Exclusive(s.pool.idle, s.holding, s.opening, s.next) && Enabled(s, Resume(t))
    ensures var s' := Step(s, Resume(t)); Exclusive(s'.pool.idle, s'.holding, s'.opening, s'.next)
  {
    ExclusivePass(s.(suspended := s.suspended - {t}), s.suspended[t], true, IsReserved(s.pool.flags, t));
  }

  lemma ExclusiveKept(s: System, e: Event)
    requires Numbered(s) && Exclusive(s.pool.idle, s.holding, s.opening, s.next) && Enabled(s, e)
    ensures var s' := Step(s, e); Exclusive(s'.pool.idle, s'.holding, s'.opening, s'.next)
  {
    match e
    case Arrive(kind) => ExclusivePass(s, kind, false, false);
    case Resume(t) => ExclusiveResumed(s, t);
    case ConnectOk(a) => ExclusiveConnected(s.pool.idle, s.holding, s.opening, s.next, a);
    case ConnectFail(a) => ExclusiveConnected(s.pool.idle, s.holding, s.opening, s.next, a);
    case ReturnOk(a) => ExclusiveReturned(s.pool.idle, s.holding, s.opening, s.next, a);
    case ReturnError(a) => ExclusiveReturned(s.pool.idle, s.holding, s.opening, s.next, a);
    case ProbeThrow(a) => ExclusiveReturned(s.pool.idle, s.holding, s.opening, s.next, a);
    case StartPreconnect => ExclusiveOpened(s.pool.idle, s.holding, s.opening, s.next, Preconnect);
    case _ =>
  }

  // ---------------------------------------------------------------------------
  // Every run
  // ---------------------------------------------------------------------------

  lemma NextSafe(s: System, e: Event)
    requires Safe(s)
    ensures Safe(Next(s, e))
  {
    if Enabled(s, e) {
      FifoKept(s, e);
      BoundKept(s, e);
      ExclusiveKept(s, e);
    }
  }

  lemma SafeAlways(limits: Limits, es: seq<Event>)
    ensures Safe(Run(Next, Start(limits), es))
  {
    forall s, e | Safe(s)
      ensures Safe(Next(s, e))
    {
      NextSafe(s, e);
    }
    Always(Next, Safe, Start(limits), es);
  }

  lemma LimitsAlways(limits: Limits, es: seq<Event>)
    ensures Run(Next, Start(limits), es).limits == limits
  {
    Always(Next, (s: System) => s.limits == limits, Start(limits), es);
  }

  /** Over all runs, with timeouts, resets, evictions, preconnects and throwing probes. */
  lemma ConnectionBound(limits: Limits, es: seq<Event>)
    ensures var s := Run(Next, Start(limits), es);
            |s.pool.idle| + |s.holding| + |s.opening| <= s.pool.active <= limits.Connections()
  {
    SafeAlways(limits, es);
    LimitsAlways(limits, es);
  }

  /** No two coroutines use one connection, and no idle connection is in use. */
  lemma ConnectionsAreExclusive(limits: Limits, es: seq<Event>)
    ensures var s := Run(Next, Start(limits), es);
            && (forall a, b :: a in s.holding && b in s.holding && a != b ==> s.holding[a].conn != s.holding[b].conn)
            && (forall a :: a in s.holding ==> s.holding[a].conn !in s.pool.idle)
            && (forall i, j :: 0 <= i < j < |s.pool.idle| ==> s.pool.idle[i] != s.pool.idle[j])
  {
    SafeAlways(limits, es);
  }

  /** No waiter is ever woken ahead of one that queued before it. */
  lemma WakeupsAreFifo(limits: Limits, es: seq<Event>, t: Ticket, i: nat)
    ensures var p := Run(Next, Start(limits), es).pool;
            Increasing(p.waiters) && (IsWoken(p.flags, t) && i < |p.waiters| ==> t < p.waiters[i])
  {
    SafeAlways(limits, es);
  }

  /** A request that arrives while others queue or own an idle connection goes to the end
      of the queue: it takes no idle connection and opens none. */
  lemma NewcomersDoNotBarge(s: System)
    requires s.pool.waiters != [] || s.pool.reserved > 0
    ensures var s' := Next(s, Arrive(Request));
            && s'.pool.waiters == s.pool.waiters + [s.next] && s.next in s'.suspended
            && s'.pool.idle == s.pool.idle && s'.pool.active == s.pool.active
            && s'.pool.reserved == s.pool.reserved && s'.opening == s.opening && s'.holding == s.holding
  {
  }

  /** A probe does not look at the queue: it waits exactly if a connection is reserved for
      another, or none is idle and none may be opened; otherwise it goes ahead of all who
      queue. */
  lemma ProbeWaitsExactly(s: System)
    ensures var s' := Next(s, Arrive(Probe));
            && (s.next in s'.suspended <==>
                  s.next in s.suspended || s.pool.reserved > 0 ||
                  (s.pool.idle == [] && (s.pool.active >= s.limits.Connections() ||
                                         s.pool.connecting >= s.limits.Connecting())))
            && (s.next !in s'.suspended ==> s'.pool.waiters == s.pool.waiters && s.next in s'.opening.Keys + s'.holding.Keys)
  {
  }
}
