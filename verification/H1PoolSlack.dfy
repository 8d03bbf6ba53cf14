/** Free capacity beside sleeping waiters: an idle connection that nobody has reserved,
    and a place to connect for which nobody was woken.  Neither happens in a pool of one
    connection, and both happen in every larger one. */
module H1PoolSlack {
  import opened H1Pool
  import opened H1PoolSafety
  import opened H1PoolProgress
  import opened Runs

  /** While somebody is queued, every idle connection is reserved for a woken waiter. */
  ghost predicate IdleReserved(s: System) {
    s.pool.waiters != [] ==> |s.pool.idle| <= s.pool.reserved
  }

  /** While somebody is queued, a free place to connect has a woken waiter to take it. */
  ghost predicate PlaceServed(s: System) {
    s.pool.waiters != [] && s.pool.active < s.limits.Connections() && s.pool.connecting < s.limits.Connecting() ==>
      Awake(s.suspended, s.pool.flags) != {}
  }

  // ---------------------------------------------------------------------------
  // A pool of one connection
  // ---------------------------------------------------------------------------

  lemma WakeLeaves(p: Pool, reserve: bool)
    ensures var w := Wake(p, reserve);
            && w.idle == p.idle && w.reserved == p.reserved
            && (w.waiters != [] ==> p.waiters != [] && Wakes(p))
  {
  }

  lemma PassReserves(s: System, kind: Kind, woke: bool, hasReservation: bool)
    requires |s.pool.idle| <= 1 && IdleReserved(s)
    ensures IdleReserved(Settle(s, kind, Pass(s, kind, woke, hasReservation)))
  {
  }

  lemma ReturnReserves(p: Pool, c: Conn)
    requires p.idle == []
    ensures var w := ReturnIdle(p, c); w.waiters != [] ==> |w.idle| <= w.reserved
  {
    WakeLeaves(p.(idle := p.idle + [c]), true);
  }

  lemma WakeReserves(s: System, e: Event)
    requires IdleReserved(s) && Enabled(s, e) && (e.ConnectFail? || e.ReturnError? || e.Reset?)
    ensures IdleReserved(Step(s, e))
  {
    var p := s.pool;
    match e
    case ConnectFail(_) => WakeLeaves(p.(connecting := Less(p.connecting), active := Less(p.active)), false);
    case ReturnError(_) => WakeLeaves(p.(active := Less(p.active)), false);
    case Reset => WakeLeaves(CloseAllIdle(p), false);
  }

  lemma ConnectedReserves(s: System, a: nat)
    requires IdleReserved(s) && Enabled(s, ConnectOk(a)) && s.pool.idle == []
    ensures IdleReserved(Step(s, ConnectOk(a)))
  {
    var p := s.pool.(connecting := Less(s.pool.connecting));
    if s.opening[a] == Preconnect {
      ReturnReserves(p, a);
    } else {
      WakeLeaves(p, false);
    }
  }

  lemma IdleReservedKept(s: System, e: Event)
    requires Bound(s) && s.limits.Connections() == 1 && IdleReserved(s) && Enabled(s, e)
    ensures IdleReserved(Step(s, e))
  {
    match e
    case Arrive(kind) => PassReserves(s, kind, false, false);
    case Resume(t) =>
      PassReserves(s.(suspended := s.suspended - {t}), s.suspended[t], true, IsReserved(s.pool.flags, t));
    case GiveUp(t) => StillQueued(s.pool, t);
    case ConnectOk(a) =>
      SizeRemoved(s.opening, a);
      ConnectedReserves(s, a);
    case ReturnOk(a) =>
      SizeRemoved(s.holding, a);
      ReturnReserves(s.pool, s.holding[a].conn);
    case ConnectFail(_) => WakeReserves(s, e);
    case ReturnError(_) => WakeReserves(s, e);
    case Reset => WakeReserves(s, e);
    case _ =>
  }

  lemma StillQueued(p: Pool, t: Ticket)
    ensures AbandonWait(p, t).waiters != [] ==> p.waiters != []
  {
  }

  ghost predicate SafeAndReserved(s: System) {
    Safe(s) && s.limits.Connections() == 1 && IdleReserved(s)
  }

  lemma SameLimits(s: System, e: Event)
    ensures Next(s, e).limits == s.limits
  {
  }

  lemma NextReserved(s: System, e: Event)
    requires SafeAndReserved(s)
    ensures SafeAndReserved(Next(s, e))
  {
    NextSafe(s, e);
    SameLimits(s, e);
    if Enabled(s, e) {
      IdleReservedKept(s, e);
    }
  }

  /** Whatever happens. */
  lemma OneConnectionIdleReserved(limits: Limits, es: seq<Event>)
    requires limits.Connections() == 1
    ensures IdleReserved(Run(Next, Start(limits), es))
  {
    forall s, e | SafeAndReserved(s)
      ensures SafeAndReserved(Next(s, e))
    {
      NextReserved(s, e);
    }
    Always(Next, SafeAndReserved, Start(limits), es);
  }

  /** Without pool timeouts and throwing probes. */
  lemma OneConnectionPlaceServed(limits: Limits, es: seq<Event>)
    requires limits.Connections() == 1
    requires forall i :: 0 <= i < |es| ==> Quiet(es[i])
    ensures PlaceServed(Run(Next, Start(limits), es))
  {
    NoLostWakeup(limits, es);
    ConnectionBound(limits, es);
    LimitsAlways(limits, es);
  }

  // ---------------------------------------------------------------------------
  // Larger pools
  // ---------------------------------------------------------------------------

  /** Requests 0 to n - 1 hold the connections that they opened. */
  ghost function Filled(limits: Limits, n: nat): System {
    System(limits, Pool([], [], map[], n, 0, 0), n, map[], map[], map i: nat | i < n :: Held(Request, i))
  }

  ghost predicate AllQuiet(es: seq<Event>) {
    forall i :: 0 <= i < |es| ==> Quiet(es[i])
  }

  lemma OneMore(limits: Limits, n: nat)
    requires n < limits.Connections()
    ensures Next(Next(Filled(limits, n), Arrive(Request)), ConnectOk(n)) == Filled(limits, n + 1)
  {
    var s := Filled(limits, n);
    var s1 := Next(s, Arrive(Request));
    assert s1 == s.(pool := s.pool.(active := n + 1, connecting := 1), opening := map[n := Request], next := n + 1);
    var s2 := Next(s1, ConnectOk(n));
    assert s2.holding == Filled(limits, n + 1).holding;
    assert s2.opening == map[];
  }

  lemma {:induction false} ReachFilled(limits: Limits, n: nat) returns (es: seq<Event>)
    requires n <= limits.Connections()
    ensures AllQuiet(es) && Run(Next, Start(limits), es) == Filled(limits, n)
  {
    if n == 0 {
      es := [];
      assert Filled(limits, 0) == Start(limits);
    } else {
      var front := ReachFilled(limits, n - 1);
      OneMore(limits, n - 1);
      var more := Onward(Start(limits), front, Arrive(Request));
      es := Onward(Start(limits), more, ConnectOk(n - 1));
    }
  }

  /** A quiet run and one more quiet event. */
  lemma Onward(s: System, es: seq<Event>, e: Event) returns (r: seq<Event>)
    requires AllQuiet(es) && Quiet(e)
    ensures r == es + [e] && AllQuiet(r) && Run(Next, s, r) == Next(Run(Next, s, es), e)
  {
    RunSplit(Next, s, es, [e]);
    OneStep(Next, Run(Next, s, es), e, []);
    assert [e] + [] == [e];
    r := es + [e];
  }

  const ASLEEP := Waiter(false, false, false)
  const WOKEN := Waiter(true, false, false)
  const WOKEN_FOR_IDLE := Waiter(true, false, true)

  /** All connections of the pool are in use by h, and the first two connections by the
      coroutines 0 and 1. */
  ghost predicate Full(limits: Limits, h: map<nat, Held>) {
    && limits.Connections() >= 2
    && 0 in h && h[0] == Held(Request, 0)
    && 1 in h && h[1] == Held(Request, 1)
  }

  function Busy(limits: Limits, h: map<nat, Held>): System {
    var n := limits.Connections();
    System(limits, Pool([], [], map[], n, 0, 0), n, map[], map[], h)
  }

  /** A request waits, both coroutines return their connections, and the waiter is woken
      for the first of them. */
  function TwoIdle(limits: Limits, h: map<nat, Held>): System {
    var n := limits.Connections();
    System(limits, Pool([0, 1], [], map[n := WOKEN_FOR_IDLE], n, 0, 1),
           n + 1, map[n := Request], map[], h - {0} - {1})
  }

  lemma ReachTwoIdle(limits: Limits, h: map<nat, Held>)
    requires Full(limits, h)
    ensures var s := Busy(limits, h);
            Next(Next(Next(s, Arrive(Request)), ReturnOk(0)), ReturnOk(1)) == TwoIdle(limits, h)
  {
    var n := limits.Connections();
    var s := Busy(limits, h);
    var s1 := Next(s, Arrive(Request));
    assert s1 == s.(pool := Pool([], [n], map[n := ASLEEP], n, 0, 0), next := n + 1, suspended := map[n := Request]);
    var s2 := Next(s1, ReturnOk(0));
    assert s2 == s1.(pool := Pool([0], [], map[n := WOKEN_FOR_IDLE], n, 0, 1), holding := h - {0});
  }

  /** A second request queues behind the reservation, and the first takes the other
      connection: the second sleeps beside an idle connection, and nobody is woken. */
  function Beside(limits: Limits, h: map<nat, Held>): System {
    var n := limits.Connections();
    System(limits, Pool([0], [n + 1], map[n := WOKEN_FOR_IDLE, n + 1 := ASLEEP], n, 0, 0),
           n + 3, map[n + 1 := Request], map[], (h - {0} - {1})[n + 2 := Held(Request, 1)])
  }

  lemma ReachBeside(limits: Limits, h: map<nat, Held>)
    requires Full(limits, h)
    ensures Next(Next(TwoIdle(limits, h), Arrive(Request)), Resume(limits.Connections())) == Beside(limits, h)
  {
    var n := limits.Connections();
    var s := TwoIdle(limits, h);
    var s1 := Next(s, Arrive(Request));
    assert s1 == s.(pool := Pool([0, 1], [n + 1], map[n := WOKEN_FOR_IDLE, n + 1 := ASLEEP], n, 0, 1),
                    next := n + 2, suspended := map[n := Request, n + 1 := Request]);
    assert s1.suspended - {n} == map[n + 1 := Request];
    assert [0, 1][..1] == [0];
  }

  /** One more request queues and a connection breaks: the first sleeper is woken for the
      place and takes the idle connection, so that the place is free and the other sleeps. */
  function Vacant(limits: Limits, h: map<nat, Held>): System {
    var n := limits.Connections();
    System(limits, Pool([], [n + 3], map[n := WOKEN_FOR_IDLE, n + 1 := WOKEN, n + 3 := ASLEEP], n - 1, 0, 0),
           n + 5, map[n + 3 := Request], map[],
           ((h - {0} - {1})[n + 2 := Held(Request, 1)] - {n + 2})[n + 4 := Held(Request, 0)])
  }

  lemma ReachVacant(limits: Limits, h: map<nat, Held>)
    requires Full(limits, h)
    ensures var n := limits.Connections();
            Next(Next(Next(Beside(limits, h), Arrive(Request)), ReturnError(n + 2)), Resume(n + 1)) == Vacant(limits, h)
  {
    var n := limits.Connections();
    var s := Beside(limits, h);
    var s1 := Next(s, Arrive(Request));
    var flags := map[n := WOKEN_FOR_IDLE, n + 1 := ASLEEP, n + 3 := ASLEEP];
    assert s1 == s.(pool := Pool([0], [n + 1, n + 3], flags, n, 0, 0),
                    next := n + 4, suspended := map[n + 1 := Request, n + 3 := Request]);
    var s2 := Next(s1, ReturnError(n + 2));
    assert s2 == s1.(pool := Pool([0], [n + 3], flags[n + 1 := WOKEN], n - 1, 0, 0),
                     holding := s.holding - {n + 2});
    assert s2.suspended - {n + 1} == map[n + 3 := Request];
    assert [0][..0] == [];
  }

  lemma VacantUnserved(limits: Limits, h: map<nat, Held>, s: System)
    requires limits.Connections() >= 2 && s == Vacant(limits, h)
    ensures !PlaceServed(s)
  {
    assert Awake(s.suspended, s.pool.flags) == {};
  }

  /** In any pool of two or more connections, by arriving, connecting and finishing
      requests alone, a request comes to sleep beside an idle connection. */
  lemma SleepsBesideIdle(limits: Limits) returns (es: seq<Event>)
    requires limits.Connections() >= 2
    ensures AllQuiet(es)
    ensures var s := Run(Next, Start(limits), es);
            && s.pool.waiters != [] && s.pool.idle != [] && s.pool.reserved == 0
            && Awake(s.suspended, s.pool.flags) == {}
  {
    es := RunToBeside(limits);
  }

  lemma RunToBeside(limits: Limits) returns (es: seq<Event>)
    requires limits.Connections() >= 2
    ensures AllQuiet(es)
    ensures Run(Next, Start(limits), es) == Beside(limits, Filled(limits, limits.Connections()).holding)
  {
    var n := limits.Connections();
    ReachTwoIdle(limits, Filled(limits, n).holding);
    ReachBeside(limits, Filled(limits, n).holding);
    es := ReachFilled(limits, n);
    es := Onward(Start(limits), es, Arrive(Request));
    es := Onward(Start(limits), es, ReturnOk(0));
    es := Onward(Start(limits), es, ReturnOk(1));
    es := Onward(Start(limits), es, Arrive(Request));
    es := Onward(Start(limits), es, Resume(n));
  }

  /** ... and then, after one broken connection, beside a free place to connect. */
  lemma SleepsBesidePlace(limits: Limits) returns (es: seq<Event>)
    requires limits.Connections() >= 2
    ensures AllQuiet(es)
    ensures !PlaceServed(Run(Next, Start(limits), es))
  {
    var n := limits.Connections();
    ReachVacant(limits, Filled(limits, n).holding);
    es := RunToBeside(limits);
    es := Onward(Start(limits), es, Arrive(Request));
    es := Onward(Start(limits), es, ReturnError(n + 2));
    es := Onward(Start(limits), es, Resume(n + 1));
    VacantUnserved(limits, Filled(limits, n).holding, Run(Next, Start(limits), es));
  }

  /** A preconnect takes the only place to connect, and two requests queue. */
  function Preconnecting(limits: Limits): System {
    System(limits, Pool([], [1, 2], map[1 := ASLEEP, 2 := ASLEEP], 1, 1, 0),
           3, map[1 := Request, 2 := Request], map[0 := Preconnect], map[])
  }

  lemma ReachPreconnecting(limits: Limits)
    requires limits.Connections() >= 2 && limits.Connecting() == 1
    ensures Next(Next(Next(Start(limits), StartPreconnect), Arrive(Request)), Arrive(Request)) == Preconnecting(limits)
  {
    var s1 := Next(Start(limits), StartPreconnect);
    assert s1 == System(limits, Pool([], [], map[], 1, 1, 0), 1, map[], map[0 := Preconnect], map[]);
    var s2 := Next(s1, Arrive(Request));
    assert s2 == s1.(pool := Pool([], [1], map[1 := ASLEEP], 1, 1, 0), next := 2, suspended := map[1 := Request]);
  }

  /** It finishes, and the first request takes its connection. */
  function Preconnected(limits: Limits): System {
    System(limits, Pool([], [2], map[1 := WOKEN_FOR_IDLE, 2 := ASLEEP], 1, 0, 0),
           4, map[2 := Request], map[], map[3 := Held(Request, 0)])
  }

  lemma ReachPreconnected(limits: Limits)
    ensures Next(Next(Preconnecting(limits), ConnectOk(0)), Resume(1)) == Preconnected(limits)
  {
    var s := Preconnecting(limits);
    var s1 := Next(s, ConnectOk(0));
    assert s1 == s.(pool := Pool([0], [2], map[1 := WOKEN_FOR_IDLE, 2 := ASLEEP], 1, 0, 1), opening := map[]);
    assert s1.suspended - {1} == map[2 := Request];
    assert [0][..0] == [];
  }

  lemma SecondSleeps(limits: Limits, s: System)
    requires limits.Connections() >= 2 && s == Preconnected(limits)
    ensures !PlaceServed(s)
  {
    assert Awake(s.suspended, s.pool.flags) == {};
  }

  /** A finished preconnect gives its place to connect to nobody: the first request is
      woken for its connection, and the second sleeps beside the place. */
  lemma PreconnectLeavesPlace(limits: Limits) returns (es: seq<Event>)
    requires limits.Connections() >= 2 && limits.Connecting() == 1
    ensures es == [StartPreconnect] + [Arrive(Request)] + [Arrive(Request)] + [ConnectOk(0)] + [Resume(1)]
    ensures !PlaceServed(Run(Next, Start(limits), es))
  {
    var s := Start(limits);
    ReachPreconnecting(limits);
    ReachPreconnected(limits);
    es := Onward(s, [], StartPreconnect);
    es := Onward(s, es, Arrive(Request));
    es := Onward(s, es, Arrive(Request));
    es := Onward(s, es, ConnectOk(0));
    es := Onward(s, es, Resume(1));
    SecondSleeps(limits, Run(Next, s, es));
  }

  // ---------------------------------------------------------------------------
  // Exactly when the laws hold
  // ---------------------------------------------------------------------------

  /** Every idle connection beside a queued waiter is reserved in all runs of a pool
      exactly if it has one connection. */
  lemma IdleReservedExactly(limits: Limits)
    ensures (forall es: seq<Event> :: IdleReserved(Run(Next, Start(limits), es))) <==> limits.Connections() == 1
  {
    if limits.Connections() == 1 {
      forall es: seq<Event>
        ensures IdleReserved(Run(Next, Start(limits), es))
      {
        OneConnectionIdleReserved(limits, es);
      }
    } else {
      var es := SleepsBesideIdle(limits);
      assert !IdleReserved(Run(Next, Start(limits), es));
    }
  }

  /** A free place to connect has a woken waiter while others sleep, in all runs of a pool
      without timeouts and throwing probes, exactly if it has one connection. */
  lemma PlaceServedExactly(limits: Limits)
    ensures (forall es: seq<Event> :: AllQuiet(es) ==> PlaceServed(Run(Next, Start(limits), es)))
            <==> limits.Connections() == 1
  {
    if limits.Connections() == 1 {
      forall es: seq<Event> | AllQuiet(es)
        ensures PlaceServed(Run(Next, Start(limits), es))
      {
        OneConnectionPlaceServed(limits, es);
      }
    } else {
      var es := SleepsBesidePlace(limits);
      assert AllQuiet(es) && !PlaceServed(Run(Next, Start(limits), es));
    }
  }
}
