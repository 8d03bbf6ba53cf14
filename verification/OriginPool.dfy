/** The pool as the program keeps it: fields that each atomic section updates in place.
    Every method is proved to compute the corresponding function of H1Pool, about which
    H1PoolSafety, H1PoolProgress and H1PoolConditions prove the laws of whole runs. */
module OriginPools {
  import opened Sequences
  import opened H1Pool

  class OriginPool {
    const limits: Limits
    var idle: seq<Conn>
    var waiters: seq<Ticket>
    var flags: map<Ticket, Waiter>
    var active: nat
    var connecting: nat
    var reserved: nat

    ghost function State(): Pool
      reads this
    {
      Pool(idle, waiters, flags, active, connecting, reserved)
    }

    constructor (limits: Limits)
      ensures this.limits == limits && State() == EMPTY_POOL
    {
      this.limits := limits;
      idle, waiters, flags := [], [], map[];
      active, connecting, reserved := 0, 0, 0;
    }

    /** Wakes the first waiter in the queue that is not cancelled; drops those before it. */
    method WakeOne() returns (woke: bool)
      modifies this
      ensures State() == Wake(old(State()), false)
      ensures woke == Wakes(old(State()))
    {
      woke := false;
      ghost var start := waiters;
      ghost var popped := 0;
      while waiters != [] && !woke
        invariant popped <= |start| && waiters == start[popped..]
        invariant popped <= FirstLive(start, old(flags)) + (if woke then 1 else 0)
        invariant !woke ==> State() == old(State()).(waiters := start[popped..])
        invariant woke ==> FirstLive(start, old(flags)) + 1 == popped && State() == Wake(old(State()), false)
        decreases |waiters|
      {
        var waiter := waiters[0];
        waiters := waiters[1..];
        popped := popped + 1;
        if waiter in flags && !flags[waiter].cancelled {
          flags := flags[waiter := flags[waiter].(woken := true)];
          woke := true;
        }
      }
    }

    /** The same, and marks the woken waiter as owner of one idle connection. */
    method WakeOneWithIdleReservation() returns (woke: bool)
      modifies this
      ensures State() == Wake(old(State()), true)
      ensures woke == Wakes(old(State()))
    {
      woke := false;
      ghost var start := waiters;
      ghost var popped := 0;
      while waiters != [] && !woke
        invariant popped <= |start| && waiters == start[popped..]
        invariant popped <= FirstLive(start, old(flags)) + (if woke then 1 else 0)
        invariant !woke ==> State() == old(State()).(waiters := start[popped..])
        invariant woke ==> FirstLive(start, old(flags)) + 1 == popped && State() == Wake(old(State()), true)
        decreases |waiters|
      {
        var waiter := waiters[0];
        waiters := waiters[1..];
        popped := popped + 1;
        if waiter in flags && !flags[waiter].cancelled {
          flags := flags[waiter := flags[waiter].(reservedIdle := true)];
          flags := flags[waiter := flags[waiter].(woken := true)];
          woke := true;
        }
      }
    }

    /** An aborted wait: the waiter is cancelled and every copy of it leaves the queue. */
    method Abandon(t: Ticket)
      modifies this
      ensures State() == AbandonWait(old(State()), t)
    {
      if t in flags {
        flags := flags[t := flags[t].(cancelled := true)];
      }
      var kept := [];
      var i := |waiters|;
      while i > 0
        invariant 0 <= i <= |waiters|
        invariant waiters == old(waiters) && kept == Without(waiters[i..], t)
        invariant State() == SetCancelled(old(State()), t)
      {
        i := i - 1;
        if waiters[i] != t {
          kept := [waiters[i]] + kept;
        }
      }
      waiters := kept;
    }

    method PushWaiter(t: Ticket)
      modifies this
      ensures State() == Enqueue(old(State()), t)
    {
      waiters := waiters + [t];
      flags := flags[t := Waiter(false, false, false)];
    }

    /** One pass of acquire_plain or acquire_tls up to its next suspension or return. */
    method AcquireOnce(wokeFromWait: bool, hasIdleReservation: bool) returns (o: Outcome)
      modifies this
      ensures Decision(State(), o) == Acquire(old(State()), limits, wokeFromWait, hasIdleReservation)
    {
      if idle != [] && (hasIdleReservation || (reserved == 0 && (wokeFromWait || waiters == []))) {
        if hasIdleReservation && reserved > 0 {
          reserved := reserved - 1;
        }
        o := Take(idle[|idle| - 1]);
        idle := idle[..|idle| - 1];
        return;
      }
      if hasIdleReservation && idle == [] && reserved > 0 {
        reserved := reserved - 1;
      }
      if active < limits.Connections() && connecting < limits.Connecting()
         && (wokeFromWait || (reserved == 0 && waiters == [])) {
        active := active + 1;
        connecting := connecting + 1;
        return Connect;
      }
      o := Wait;
    }

    /** One pass of connect_probe_tls up to its next suspension or return. */
    method AcquireProbeOnce(hasIdleReservation: bool) returns (o: Outcome)
      modifies this
      ensures Decision(State(), o) == AcquireProbe(old(State()), limits, hasIdleReservation)
    {
      if ((active >= limits.Connections() || connecting >= limits.Connecting()) && idle == [])
         || (!hasIdleReservation && reserved > 0) {
        return Wait;
      }
      if idle != [] {
        if hasIdleReservation && reserved > 0 {
          reserved := reserved - 1;
        }
        o := Take(idle[|idle| - 1]);
        idle := idle[..|idle| - 1];
        return;
      }
      active := active + 1;
      connecting := connecting + 1;
      o := Connect;
    }

    method ConnectSucceeded()
      modifies this
      ensures State() == FinishConnect(old(State()))
    {
      if connecting > 0 {
        connecting := connecting - 1;
      }
      var _ := WakeOne();
    }

    method ConnectFailed()
      modifies this
      ensures State() == FailConnect(old(State()))
    {
      if connecting > 0 {
        connecting := connecting - 1;
      }
      if active > 0 {
        active := active - 1;
      }
      var _ := WakeOne();
    }

    method PutIdle(c: Conn)
      modifies this
      ensures State() == ReturnIdle(old(State()), c)
    {
      idle := idle + [c];
      var woke := WakeOneWithIdleReservation();
      if woke {
        reserved := reserved + 1;
      }
    }

    method PreconnectSucceeded(c: Conn)
      modifies this
      ensures State() == FinishPreconnect(old(State()), c)
    {
      if connecting > 0 {
        connecting := connecting - 1;
      }
      PutIdle(c);
    }

    method DropBroken()
      modifies this
      ensures State() == ReturnBroken(old(State()))
    {
      if active > 0 {
        active := active - 1;
      }
      var _ := WakeOne();
    }

    method ResetAll()
      modifies this
      ensures State() == ResetConnections(old(State()))
    {
      var closed := |idle|;
      idle := [];
      active := if closed > active then 0 else active - closed;
      connecting := 0;
      reserved := 0;
      var _ := WakeOne();
    }

    method CloseIfIdle() returns (evicted: bool)
      modifies this
      ensures evicted == PoolIdle(old(State()))
      ensures State() == if evicted then CloseIdle(old(State())) else old(State())
    {
      evicted := active == |idle| && waiters == [];
      if evicted {
        idle := [];
        active, connecting, reserved := 0, 0, 0;
      }
    }
  }
}
