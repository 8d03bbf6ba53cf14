/** What a coroutine gets from the pool, and for whom a freed place is: idle connections are
    used before new ones are opened, and the first who waits is woken. */
module H1PoolReuse {
  import opened H1Pool
  import opened H1PoolSafety
  import opened Runs

  // ---------------------------------------------------------------------------
  // What a pass leads to
  // ---------------------------------------------------------------------------

  /** n is below the limit, which counts as one when it is zero. */
  predicate Under(n: nat, limit: nat) {
    n == 0 || n < limit
  }

  predicate MayConnect(s: System) {
    Under(s.pool.active, s.limits.maxConnections) && Under(s.pool.connecting, s.limits.maxConnecting)
  }

  /** s' is s with the idle connection used last in the hands of a new coroutine. */
  ghost predicate TookIdle(s: System, s': System, kind: Kind) {
    && s.pool.idle != []
    && s'.pool == s.pool.(idle := s.pool.idle[..|s.pool.idle| - 1], reserved := s'.pool.reserved)
    && s'.holding == s.holding[s.next := Held(kind, s.pool.idle[|s.pool.idle| - 1])]
    && s'.opening == s.opening && s'.suspended == s.suspended && s'.next == s.next + 1
  }

  /** s' is s with one more connect in progress. */
  ghost predicate Opened(s: System, s': System, kind: Kind) {
    && s'.pool == s.pool.(active := s.pool.active + 1, connecting := s.pool.connecting + 1,
                          reserved := s'.pool.reserved)
    && s'.opening == s.opening[s.next := kind]
    && s'.holding == s.holding && s'.suspended == s.suspended && s'.next == s.next + 1
  }

  /** s' is s with one more waiter at the end of the queue. */
  ghost predicate QueuedUp(s: System, s': System, kind: Kind) {
    && s'.pool == s.pool.(waiters := s.pool.waiters + [s.next],
                          flags := s.pool.flags[s.next := Waiter(false, false, false)], reserved := s'.pool.reserved)
    && s'.suspended == s.suspended[s.next := kind]
    && s'.opening == s.opening && s'.holding == s.holding && s'.next == s.next + 1
  }

  /** An arriving request takes an idle connection if nobody is queued and none is reserved;
      without an idle one it connects if it may; in all other cases it queues. */
  lemma ArrivalDecides(s: System)
    ensures var s' := Next(s, Arrive(Request));
            var alone := s.pool.waiters == [] && s.pool.reserved == 0;
            && s'.pool.reserved == s.pool.reserved
            && (if alone && s.pool.idle != [] then TookIdle(s, s', Request)
                else if alone && MayConnect(s) then Opened(s, s', Request)
                else QueuedUp(s, s', Request))
  {
  }

  /** The same for a probe, which does not look at the queue. */
  lemma ProbeArrivalDecides(s: System)
    ensures var s' := Next(s, Arrive(Probe));
            && s'.pool.reserved == s.pool.reserved
            && (if s.pool.reserved > 0 then QueuedUp(s, s', Probe)
                else if s.pool.idle != [] then TookIdle(s, s', Probe)
                else if MayConnect(s) then Opened(s, s', Probe)
                else QueuedUp(s, s', Probe))
  {
  }

  /** What is left of the reservations when a coroutine with one goes on. */
  function LessReserved(s: System, t: Ticket): nat {
    if IsReserved(s.pool.flags, t) && s.pool.reserved > 0 then s.pool.reserved - 1 else s.pool.reserved
  }

  /** A woken request takes an idle connection if it has a reservation or none is reserved;
      otherwise it connects if it may, ahead of the queue, and else it queues again.  It
      gives up its reservation in any case. */
  lemma ResumedRequestDecides(s: System, t: Ticket)
    requires t in s.suspended && s.suspended[t] == Request && IsWoken(s.pool.flags, t)
    ensures var s0 := s.(suspended := s.suspended - {t});
            var s' := Next(s, Resume(t));
            && s'.pool.reserved == LessReserved(s, t)
            && (if s.pool.idle != [] && (IsReserved(s.pool.flags, t) || s.pool.reserved == 0)
                then TookIdle(s0, s', Request)
                else if MayConnect(s) then Opened(s0, s', Request)
                else QueuedUp(s0, s', Request))
  {
  }

  /** A woken probe keeps its place in the count of reservations if it finds nothing idle. */
  lemma ResumedProbeDecides(s: System, t: Ticket)
    requires t in s.suspended && s.suspended[t] == Probe && IsWoken(s.pool.flags, t)
    ensures var s0 := s.(suspended := s.suspended - {t});
            var s' := Next(s, Resume(t));
            var mine := IsReserved(s.pool.flags, t);
            && s'.pool.reserved == (if s.pool.idle != [] then LessReserved(s, t) else s.pool.reserved)
            && (if !mine && s.pool.reserved > 0 then QueuedUp(s0, s', Probe)
                else if s.pool.idle != [] then TookIdle(s0, s', Probe)
                else if MayConnect(s) then Opened(s0, s', Probe)
                else QueuedUp(s0, s', Probe))
  {
  }

  /** No event opens a connection for a request or a probe beside an idle one that is not
      reserved for another. */
  lemma OpensOnlyWithoutIdle(s: System, e: Event)
    requires Enabled(s, e) && (e.Arrive? || e.Resume?)
    ensures Step(s, e).opening != s.opening ==>
              s.pool.idle == [] || (s.pool.reserved > 0 && e.Resume? && !IsReserved(s.pool.flags, e.ticket))
  {
    if e.Arrive? {
      if e.kind == Request {
        ArrivalDecides(s);
      } else {
        ProbeArrivalDecides(s);
      }
    }
  }

  // ---------------------------------------------------------------------------
  // Keep-alive
  // ---------------------------------------------------------------------------

  /** Nobody is queued, nothing is reserved, and a connection is idle. */
  ghost predicate AtRest(s: System) {
    s.pool.waiters == [] && s.pool.reserved == 0 && s.pool.idle != [] && Numbered(s)
  }

  /** A request that comes and goes leaves the pool as it found it. */
  lemma ReuseRoundTrip(s: System)
    requires AtRest(s)
    ensures var s' := Next(Next(s, Arrive(Request)), ReturnOk(s.next)); s' == s.(next := s.next + 1) && AtRest(s')
  {
    ArrivalDecides(s);
    var last := |s.pool.idle| - 1;
    var s1 := Next(s, Arrive(Request));
    assert s.next !in s.holding by {
      assert Below(s.holding.Keys, s.next);
    }
    assert s1.holding - {s.next} == s.holding;
    assert s.pool.idle[..last] + [s.pool.idle[last]] == s.pool.idle;
    assert FirstLive(s.pool.waiters, s.pool.flags) == 0;
  }

  /** n requests, each after the end of the one before it. */
  function OneByOne(next: nat, n: nat): seq<Event>
    decreases n
  {
    if n == 0 then [] else [Arrive(Request)] + ([ReturnOk(next)] + OneByOne(next + 1, n - 1))
  }

  /** However many requests follow one another, they open no further connection. */
  lemma {:induction false} SequentialRequestsReuse(s: System, n: nat)
    requires AtRest(s)
    ensures Run(Next, s, OneByOne(s.next, n)) == s.(next := s.next + n)
    decreases n
  {
    if n > 0 {
      ReuseRoundTrip(s);
      var s1 := Next(s, Arrive(Request));
      var s2 := Next(s1, ReturnOk(s.next));
      var rest := OneByOne(s.next + 1, n - 1);
      OneStep(Next, s, Arrive(Request), [ReturnOk(s.next)] + rest);
      OneStep(Next, s1, ReturnOk(s.next), rest);
      SequentialRequestsReuse(s2, n - 1);
    }
  }

  // ---------------------------------------------------------------------------
  // Who is woken
  // ---------------------------------------------------------------------------

  /** The event frees a place or returns a connection. */
  predicate Frees(e: Event) {
    e.ConnectOk? || e.ConnectFail? || e.ReturnOk? || e.ReturnError? || e.Reset?
  }

  /** It leaves an idle connection to the one who is woken. */
  predicate LeavesIdle(s: System, e: Event) {
    e.ReturnOk? || (e.ConnectOk? && e.actor in s.opening && s.opening[e.actor] == Preconnect)
  }

  lemma FirstLiveIs(q: seq<Ticket>, flags: map<Ticket, Waiter>, k: nat)
    requires k < |q| && Live(flags, q[k]) && forall i :: 0 <= i < k ==> !Live(flags, q[i])
    ensures FirstLive(q, flags) == k
  {
  }

  /** Every such event wakes the first waiter that is not cancelled, drops those before it
      and leaves those behind it; the waiter gets a reservation exactly with an idle
      connection. */
  lemma FreedPlaceWakes(s: System, e: Event, k: nat)
    requires Enabled(s, e) && Frees(e) && k < |s.pool.waiters| && Live(s.pool.flags, s.pool.waiters[k])
    requires forall i :: 0 <= i < k ==> !Live(s.pool.flags, s.pool.waiters[i])
    ensures var t := s.pool.waiters[k];
            var p := Step(s, e).pool;
            && p.waiters == s.pool.waiters[k + 1..]
            && p.flags == s.pool.flags[t := Waiter(true, false, s.pool.flags[t].reservedIdle || LeavesIdle(s, e))]
            && p.reserved == (if e.Reset? then 0 else if LeavesIdle(s, e) then s.pool.reserved + 1 else s.pool.reserved)
  {
    FirstLiveIs(s.pool.waiters, s.pool.flags, k);
  }

  /** With nobody left to wake the queue is emptied and nothing is reserved. */
  lemma NobodyToWake(s: System, e: Event)
    requires Enabled(s, e) && Frees(e)
    requires forall i :: 0 <= i < |s.pool.waiters| ==> !Live(s.pool.flags, s.pool.waiters[i])
    ensures var p := Step(s, e).pool;
            p.waiters == [] && p.flags == s.pool.flags && p.reserved == if e.Reset? then 0 else s.pool.reserved
  {
  }

  // ---------------------------------------------------------------------------
  // What the other events do
  // ---------------------------------------------------------------------------

  function OrZero(n: int): nat {
    if n < 0 then 0 else n
  }

  /** A finished connect is in use by its coroutine, or idle after a preconnect. */
  lemma ConnectedMeans(s: System, a: nat)
    requires a in s.opening
    ensures var s' := Step(s, ConnectOk(a));
            && s'.opening == s.opening - {a} && s'.suspended == s.suspended && s'.next == s.next
            && s'.pool.active == s.pool.active && s'.pool.connecting == OrZero(s.pool.connecting - 1)
            && (if s.opening[a] == Preconnect then s'.pool.idle == s.pool.idle + [a] && s'.holding == s.holding
                else s'.pool.idle == s.pool.idle && s'.holding == s.holding[a := Held(s.opening[a], a)])
  {
  }

  /** A failed connect gives both its places back. */
  lemma ConnectFailedMeans(s: System, a: nat)
    requires a in s.opening
    ensures var s' := Step(s, ConnectFail(a));
            && s'.opening == s.opening - {a} && s'.holding == s.holding && s'.suspended == s.suspended
            && s'.pool.idle == s.pool.idle && s'.next == s.next
            && s'.pool.active == OrZero(s.pool.active - 1) && s'.pool.connecting == OrZero(s.pool.connecting - 1)
  {
  }

  /** A connection in use becomes idle behind the others, or leaves active if it is broken. */
  lemma ReturnedMeans(s: System, a: nat, broken: bool)
    requires a in s.holding
    ensures var s' := Step(s, if broken then ReturnError(a) else ReturnOk(a));
            && s'.holding == s.holding - {a} && s'.opening == s.opening && s'.suspended == s.suspended
            && s'.pool.connecting == s.pool.connecting && s'.next == s.next
            && (if broken then s'.pool.idle == s.pool.idle && s'.pool.active == OrZero(s.pool.active - 1)
                else s'.pool.idle == s.pool.idle + [s.holding[a].conn] && s'.pool.active == s.pool.active)
  {
  }

  /** A preconnect starts as a connect does; a reset forgets the idle connections, the
      connects and the reservations; an eviction forgets all counts. */
  lemma MaintenanceMeans(s: System, e: Event)
    requires Enabled(s, e) && (e.StartPreconnect? || e.Reset? || e.Evict?)
    ensures var s' := Step(s, e);
            match e
            case StartPreconnect => MayConnect(s) && Opened(s, s', Preconnect) && s'.pool.reserved == s.pool.reserved
            case Reset =>
              && s'.pool.idle == [] && s'.pool.connecting == 0 && s'.pool.reserved == 0
              && s'.pool.active == OrZero(s.pool.active - |s.pool.idle|)
              && s'.holding == s.holding && s'.opening == s.opening && s'.suspended == s.suspended && s'.next == s.next
            case _ => s' == s.(pool := EMPTY_POOL.(flags := s.pool.flags)) && s.pool.active == |s.pool.idle|
  {
  }

  /** A wait that ends unwoken takes its waiter out of the queue and marks it cancelled; a
      timeout does neither. */
  lemma GivenUpMeans(s: System, t: Ticket)
    requires t in s.suspended && t in s.pool.flags
    ensures !IsWoken(s.pool.flags, t) ==>
              Step(s, GiveUp(t)) == s.(suspended := s.suspended - {t},
                                       pool := s.pool.(waiters := Step(s, GiveUp(t)).pool.waiters,
                                                       flags := s.pool.flags[t := s.pool.flags[t].(cancelled := true)]))
              && (forall u :: u in Step(s, GiveUp(t)).pool.waiters <==> u in s.pool.waiters && u != t)
    ensures Step(s, Timeout(t)) == s.(suspended := s.suspended - {t})
  {
  }

  // ---------------------------------------------------------------------------
  // Cancelled waiters
  // ---------------------------------------------------------------------------

  ghost predicate Silenced(s: System, t: Ticket) {
    Safe(s) && t in s.pool.flags && s.pool.flags[t].cancelled && !s.pool.flags[t].woken
  }

  lemma WakeSpares(p: Pool, reserve: bool, t: Ticket)
    requires t in p.flags && p.flags[t].cancelled
    ensures t in Wake(p, reserve).flags && Wake(p, reserve).flags[t] == p.flags[t]
  {
  }

  lemma SilencedByWake(s: System, e: Event, t: Ticket)
    requires Enabled(s, e) && Frees(e) && t in s.pool.flags && s.pool.flags[t].cancelled
    ensures t in Step(s, e).pool.flags && Step(s, e).pool.flags[t] == s.pool.flags[t]
  {
    var p := s.pool;
    match e
    case ConnectOk(a) =>
      WakeSpares(p.(connecting := Less(p.connecting)), false, t);
      WakeSpares(p.(connecting := Less(p.connecting), idle := p.idle + [a]), true, t);
    case ConnectFail(a) => WakeSpares(p.(connecting := Less(p.connecting), active := Less(p.active)), false, t);
    case ReturnOk(a) => WakeSpares(p.(idle := p.idle + [s.holding[a].conn]), true, t);
    case ReturnError(a) => WakeSpares(p.(active := Less(p.active)), false, t);
    case Reset => WakeSpares(CloseAllIdle(p), false, t);
  }

  lemma SilencedByPass(s: System, kind: Kind, woke: bool, hasReservation: bool, t: Ticket)
    requires t in s.pool.flags && t < s.next
    ensures var p := Settle(s, kind, Pass(s, kind, woke, hasReservation)).pool;
            t in p.flags && p.flags[t] == s.pool.flags[t]
  {
  }

  lemma NextSilenced(s: System, e: Event, t: Ticket)
    requires Silenced(s, t)
    ensures Silenced(Next(s, e), t)
  {
    NextSafe(s, e);
    if Enabled(s, e) {
      if Frees(e) {
        SilencedByWake(s, e, t);
      } else if e.Arrive? {
        SilencedByPass(s, e.kind, false, false, t);
      } else if e.Resume? {
        SilencedByPass(s.(suspended := s.suspended - {e.ticket}), s.suspended[e.ticket], true,
                       IsReserved(s.pool.flags, e.ticket), t);
      }
    }
  }

  /** In every run a waiter that is marked cancelled before it was woken is never woken:
      no wake-up is spent on a request that was cancelled. */
  lemma CancelledNeverWoken(limits: Limits, before: seq<Event>, t: Ticket, after: seq<Event>)
    requires var s := Run(Next, Start(limits), before);
             t in s.suspended && s.suspended[t] == Request && !IsWoken(s.pool.flags, t)
    ensures !IsWoken(Run(Next, Start(limits), before + [FlagCancel(t)] + after).pool.flags, t)
  {
    SafeAlways(limits, before);
    var s := Run(Next, Start(limits), before);
    var s1 := Next(s, FlagCancel(t));
    assert t in s.pool.flags;
    NextSafe(s, FlagCancel(t));
    forall u, e | Silenced(u, t)
      ensures Silenced(Next(u, e), t)
    {
      NextSilenced(u, e, t);
    }
    Always(Next, (u: System) => Silenced(u, t), s1, after);
    RunSplit(Next, Start(limits), before, [FlagCancel(t)] + after);
    OneStep(Next, s, FlagCancel(t), after);
    assert before + [FlagCancel(t)] + after == before + ([FlagCancel(t)] + after);
  }
}
