/** Exactly which disturbing steps each law of the pool survives: one equivalence per
    law, with a run that breaks it for every step that it does not survive. */
module H1PoolConditions {
  import opened H1Pool
  import opened H1PoolSafety
  import opened H1PoolProgress
  import opened Runs

  /** Which of the disturbing steps a deployment can take.  Pool timeouts, for one, are
      possible unless the effective timeout of every wait is not positive: pool_ms, where
      that is negative total_ms, and where that is negative too timeout_ms. */
  datatype Setting = Setting(timeouts: bool, throws: bool, resets: bool, evictions: bool)

  predicate Permits(c: Setting, e: Event) {
    && (e.Timeout? ==> c.timeouts)
    && (e.ProbeThrow? ==> c.throws)
    && (e.Reset? ==> c.resets)
    && (e.Evict? ==> c.evictions)
  }

  ghost predicate RunUnder(c: Setting, es: seq<Event>) {
    forall i :: 0 <= i < |es| ==> Permits(c, es[i])
  }

  const ONE := Limits(1, 1)

  /** A request or probe holds the only connection and a request waits for it. */
  function Contended(first: Kind): System {
    System(ONE, Pool([], [1], map[1 := Waiter(false, false, false)], 1, 0, 0),
           2, map[1 := Request], map[], map[0 := Held(first, 0)])
  }

  lemma ReachContended(first: Kind, es: seq<Event>)
    requires first != Preconnect
    ensures Run(Next, Start(ONE), [Arrive(first), ConnectOk(0), Arrive(Request)] + es)
            == Run(Next, Contended(first), es)
  {
    var s0 := Start(ONE);
    var s1 := Next(s0, Arrive(first));
    var s2 := Next(s1, ConnectOk(0));
    assert s1 == s0.(pool := EMPTY_POOL.(active := 1, connecting := 1), opening := map[0 := first], next := 1);
    assert s2 == s0.(pool := EMPTY_POOL.(active := 1), holding := map[0 := Held(first, 0)], next := 1);
    assert Next(s2, Arrive(Request)) == Contended(first);
    OneStep(Next, s2, Arrive(Request), es);
    OneStep(Next, s1, ConnectOk(0), [Arrive(Request)] + es);
    OneStep(Next, s0, Arrive(first), [ConnectOk(0)] + ([Arrive(Request)] + es));
    assert [Arrive(first)] + ([ConnectOk(0)] + ([Arrive(Request)] + es))
        == [Arrive(first), ConnectOk(0), Arrive(Request)] + es;
  }

  /** The timed-out waiter stays queued and swallows the wake-up of the next one. */
  lemma TimedOutWaiterSwallows() returns (s: System)
    ensures s == Run(Next, Contended(Request), [Timeout(1), Arrive(Request), ReturnOk(0)])
    ensures s.pool.waiters == [2] && s.pool.reserved == 1 && s.suspended == map[2 := Request]
    ensures !IsWoken(s.pool.flags, 2) && !IsReserved(s.pool.flags, 2)
    ensures s.opening == map[] && s.holding == map[]
  {
    var unset := Waiter(false, false, false);
    var s1 := Next(Contended(Request), Timeout(1));
    var s2 := Next(s1, Arrive(Request));
    assert s1 == Contended(Request).(suspended := map[]);
    assert s2.pool == Pool([], [1, 2], map[1 := unset, 2 := unset], 1, 0, 0);
    assert s2.suspended == map[2 := Request];
    s := Next(s2, ReturnOk(0));
    assert s.pool.waiters == [2];
    OneStep(Next, s2, ReturnOk(0), []);
    OneStep(Next, s1, Arrive(Request), [ReturnOk(0)]);
    OneStep(Next, Contended(Request), Timeout(1), [Arrive(Request)] + [ReturnOk(0)]);
    assert [Timeout(1)] + ([Arrive(Request)] + [ReturnOk(0)]) == [Timeout(1), Arrive(Request), ReturnOk(0)];
  }

  lemma TimeoutStrands() returns (es: seq<Event>)
    ensures RunUnder(Setting(true, false, false, false), es)
    ensures var s := Run(Next, Start(ONE), es); !Attended(s) && !ReservationsExact(s)
  {
    var s := TimedOutWaiterSwallows();
    assert Awake(s.suspended, s.pool.flags) == {} && Reservers(s.suspended, s.pool.flags) == {};
    ReachContended(Request, [Timeout(1), Arrive(Request), ReturnOk(0)]);
    es := [Arrive(Request), ConnectOk(0), Arrive(Request)] + [Timeout(1), Arrive(Request), ReturnOk(0)];
  }

  lemma ThrowingProbeStrands() returns (es: seq<Event>)
    ensures RunUnder(Setting(false, true, false, false), es)
    ensures !Attended(Run(Next, Start(ONE), es))
  {
    var s := Next(Contended(Probe), ProbeThrow(0));
    assert s.opening == map[] && s.holding == map[];
    assert Awake(s.suspended, s.pool.flags) == {};
    OneStep(Next, Contended(Probe), ProbeThrow(0), []);
    ReachContended(Probe, [ProbeThrow(0)]);
    es := [Arrive(Probe), ConnectOk(0), Arrive(Request)] + [ProbeThrow(0)];
  }

  /** A waiter is woken with a reservation, and then e zeroes the count of reservations. */
  lemma ZeroedReservation(e: Event) returns (es: seq<Event>)
    requires e.Reset? || e.Evict?
    ensures RunUnder(Setting(false, false, e.Reset?, e.Evict?), es)
    ensures !ReservationsExact(Run(Next, Start(ONE), es))
  {
    var s1 := Next(Contended(Request), ReturnOk(0));
    assert s1.pool == Pool([0], [], map[1 := Waiter(true, false, true)], 1, 0, 1);
    var s2 := Next(s1, e);
    assert s2.pool.reserved == 0 && s2.suspended == map[1 := Request];
    assert 1 in Reservers(s2.suspended, s2.pool.flags);
    OneStep(Next, s1, e, []);
    OneStep(Next, Contended(Request), ReturnOk(0), [e]);
    var tail := [ReturnOk(0)] + [e];
    ReachContended(Request, tail);
    es := [Arrive(Request), ConnectOk(0), Arrive(Request)] + tail;
  }

  /** After a reset, more connects run at once than configured. */
  lemma ResetOverrunsConnecting() returns (es: seq<Event>)
    ensures RunUnder(Setting(false, false, true, false), es)
    ensures |Run(Next, Start(Limits(2, 1)), es).opening| == 2
  {
    var s0 := Start(Limits(2, 1));
    var s1 := Next(s0, Arrive(Request));
    var s2 := Next(s1, Reset);
    var s3 := Next(s2, Arrive(Request));
    assert s1 == s0.(pool := EMPTY_POOL.(active := 1, connecting := 1), opening := map[0 := Request], next := 1);
    assert s2 == s1.(pool := EMPTY_POOL.(active := 1));
    assert s3.opening == map[0 := Request, 1 := Request];
    SizeAdded(s2.opening, 1, Request);
    OneStep(Next, s2, Arrive(Request), []);
    OneStep(Next, s1, Reset, [Arrive(Request)]);
    OneStep(Next, s0, Arrive(Request), [Reset] + [Arrive(Request)]);
    es := [Arrive(Request)] + ([Reset] + [Arrive(Request)]);
  }

  /** No lost wake-up holds in every run exactly when neither a pool timeout nor a
      throwing probe can happen; resets and evictions do not harm it. */
  lemma NoLostWakeupExactly(c: Setting)
    ensures (forall limits: Limits, es: seq<Event> :: RunUnder(c, es) ==> Attended(Run(Next, Start(limits), es)))
            <==> !c.timeouts && !c.throws
  {
    if !c.timeouts && !c.throws {
      forall limits: Limits, es: seq<Event> | RunUnder(c, es)
        ensures Attended(Run(Next, Start(limits), es))
      {
        forall i | 0 <= i < |es| ensures !es[i].Timeout? && !es[i].ProbeThrow? {
          assert Permits(c, es[i]);
        }
        NoLostWakeup(limits, es);
      }
    } else if c.timeouts {
      var es := TimeoutStrands();
      assert RunUnder(c, es);
    } else {
      var es := ThrowingProbeStrands();
      assert RunUnder(c, es);
    }
  }

  /** The count of reserved connections equals the number of waiters woken with a
      reservation, and never exceeds the idle connections, exactly when no timeout,
      reset or eviction can happen. */
  lemma ReservationsExactExactly(c: Setting)
    ensures (forall limits: Limits, es: seq<Event> :: RunUnder(c, es) ==> ReservationsExact(Run(Next, Start(limits), es)))
            <==> !c.timeouts && !c.resets && !c.evictions
  {
    if !c.timeouts && !c.resets && !c.evictions {
      forall limits: Limits, es: seq<Event> | RunUnder(c, es)
        ensures ReservationsExact(Run(Next, Start(limits), es))
      {
        forall i | 0 <= i < |es| ensures Undisturbed(es[i]) {
          assert Permits(c, es[i]);
        }
        HonouredAlways(limits, es);
      }
    } else {
      var es;
      if c.timeouts {
        es := TimeoutStrands();
      } else if c.resets {
        es := ZeroedReservation(Reset);
      } else {
        es := ZeroedReservation(Evict);
      }
      assert RunUnder(c, es);
    }
  }

  /** The connects in progress equal the counter and respect max_connecting_per_origin
      exactly when no reset can happen. */
  lemma ConnectingExactExactly(c: Setting)
    ensures (forall limits: Limits, es: seq<Event> :: RunUnder(c, es) ==> ConnectingExact(Run(Next, Start(limits), es)))
            <==> !c.resets
  {
    if !c.resets {
      forall limits: Limits, es: seq<Event> | RunUnder(c, es)
        ensures ConnectingExact(Run(Next, Start(limits), es))
      {
        forall i | 0 <= i < |es| ensures NotReset(es[i]) {
          assert Permits(c, es[i]);
        }
        ConnectingAlways(limits, es);
      }
    } else {
      var es := ResetOverrunsConnecting();
      LimitsAlways(Limits(2, 1), es);
      assert RunUnder(c, es);
    }
  }

  /** Two requests wait for the only connection, which breaks: a probe that arrives then
      opens the next one, ahead of both. */
  lemma ProbeBarges() returns (es: seq<Event>)
    ensures var s := Run(Next, Start(ONE), es);
            s.pool.waiters != [] && s.next in Next(s, Arrive(Probe)).opening
  {
    var unset := Waiter(false, false, false);
    var s1 := Next(Contended(Request), Arrive(Request));
    assert s1.pool == Pool([], [1, 2], map[1 := unset, 2 := unset], 1, 0, 0);
    assert s1.holding == map[0 := Held(Request, 0)] && s1.opening == map[];
    var s2 := Next(s1, ReturnError(0));
    assert s2.pool.waiters == [2] && s2.pool.idle == [] && s2.pool.active == 0 && s2.pool.reserved == 0;
    OneStep(Next, s1, ReturnError(0), []);
    OneStep(Next, Contended(Request), Arrive(Request), [ReturnError(0)] + []);
    var tail := [Arrive(Request)] + ([ReturnError(0)] + []);
    ReachContended(Request, tail);
    es := [Arrive(Request), ConnectOk(0), Arrive(Request)] + tail;
  }
}
