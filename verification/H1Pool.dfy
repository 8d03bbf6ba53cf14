/** The HTTP/1.1 origin pool: what one OriginPool keeps for one transport (plain or
    TLS), and every atomic section that the request, probe and preconnect coroutines
    and the maintenance code run on it.  The two transports make the same decisions
    on disjoint fields, so one copy of the fields is modelled. */
module H1Pool {
  import opened Sequences

  type Conn = nat

  /** Identity of a Waiter object; tickets are handed out in order of creation. */
  type Ticket = nat

  datatype Waiter = Waiter(woken: bool, cancelled: bool, reservedIdle: bool)

  datatype Limits = Limits(maxConnections: nat, maxConnecting: nat) {
    function Connections(): nat {
      if maxConnections == 0 then 1 else maxConnections
    }

    function Connecting(): nat {
      if maxConnecting == 0 then 1 else maxConnecting
    }
  }

  datatype Pool = Pool(
    idle: seq<Conn>,
    waiters: seq<Ticket>,
    flags: map<Ticket, Waiter>,
    active: nat,
    connecting: nat,
    reserved: nat)

  const EMPTY_POOL := Pool([], [], map[], 0, 0, 0)

  /** What one pass of an acquire loop decides. */
  datatype Outcome = Take(conn: Conn) | Connect | Wait

  datatype Decision = Decision(pool: Pool, outcome: Outcome)

  // ---------------------------------------------------------------------------
  // Atomic sections on the pool, as functions of its fields
  // ---------------------------------------------------------------------------

  function Less(n: nat): nat {
    if n > 0 then n - 1 else 0
  }

  predicate Live(flags: map<Ticket, Waiter>, t: Ticket) {
    t in flags && !flags[t].cancelled
  }

  /** Position of the first waiter that a wake-up would choose. */
  function FirstLive(q: seq<Ticket>, flags: map<Ticket, Waiter>): (k: nat)
    ensures k <= |q|
    ensures forall i :: 0 <= i < k ==> !Live(flags, q[i])
    ensures k < |q| ==> Live(flags, q[k])
  {
    if q == [] || Live(flags, q[0]) then 0
    else 1 + FirstLive(q[1..], flags)
  }

  predicate Wakes(p: Pool) {
    FirstLive(p.waiters, p.flags) < |p.waiters|
  }

  /** Pops waiters up to and including the first live one, and wakes that one. */
  function Wake(p: Pool, reserve: bool): Pool {
    var k := FirstLive(p.waiters, p.flags);
    if k == |p.waiters| then p.(waiters := [])
    else
      var t := p.waiters[k];
      p.(waiters := p.waiters[k + 1..],
         flags := p.flags[t := p.flags[t].(woken := true, reservedIdle := reserve || p.flags[t].reservedIdle)])
  }

  function TakeIdle(p: Pool, hasReservation: bool): Decision
    requires p.idle != []
  {
    var last := |p.idle| - 1;
    Decision(p.(idle := p.idle[..last], reserved := if hasReservation then Less(p.reserved) else p.reserved),
             Take(p.idle[last]))
  }

  function StartConnect(p: Pool): Pool {
    p.(active := p.active + 1, connecting := p.connecting + 1)
  }

  /** One pass of the acquire loop of a request. */
  function Acquire(p: Pool, limits: Limits, woke: bool, hasReservation: bool): Decision {
    if p.idle != [] && (hasReservation || (p.reserved == 0 && (woke || p.waiters == []))) then
      TakeIdle(p, hasReservation)
    else
      var q := if hasReservation && p.idle == [] then p.(reserved := Less(p.reserved)) else p;
      if q.active < limits.Connections() && q.connecting < limits.Connecting()
         && (woke || (q.reserved == 0 && q.waiters == [])) then
        Decision(StartConnect(q), Connect)
      else
        Decision(q, Wait)
  }

  /** One pass of the acquire loop of a protocol probe. */
  function AcquireProbe(p: Pool, limits: Limits, hasReservation: bool): Decision {
    if ((p.active >= limits.Connections() || p.connecting >= limits.Connecting()) && p.idle == [])
       || (!hasReservation && p.reserved > 0) then
      Decision(p, Wait)
    else if p.idle != [] then TakeIdle(p, hasReservation)
    else Decision(StartConnect(p), Connect)
  }

  function Enqueue(p: Pool, t: Ticket): Pool {
    p.(waiters := p.waiters + [t], flags := p.flags[t := Waiter(false, false, false)])
  }

  function SetCancelled(p: Pool, t: Ticket): Pool {
    if t in p.flags then p.(flags := p.flags[t := p.flags[t].(cancelled := true)]) else p
  }

  function AbandonWait(p: Pool, t: Ticket): Pool {
    SetCancelled(p, t).(waiters := Without(p.waiters, t))
  }

  function FinishConnect(p: Pool): Pool {
    Wake(p.(connecting := Less(p.connecting)), false)
  }

  function FailConnect(p: Pool): Pool {
    Wake(p.(connecting := Less(p.connecting), active := Less(p.active)), false)
  }

  function ReturnIdle(p: Pool, c: Conn): Pool {
    var q := p.(idle := p.idle + [c]);
    Wake(q, true).(reserved := if Wakes(q) then p.reserved + 1 else p.reserved)
  }

  function FinishPreconnect(p: Pool, c: Conn): Pool {
    ReturnIdle(p.(connecting := Less(p.connecting)), c)
  }

  function ReturnBroken(p: Pool): Pool {
    Wake(p.(active := Less(p.active)), false)
  }

  function CloseAllIdle(p: Pool): Pool {
    p.(idle := [],
       active := if |p.idle| > p.active then 0 else p.active - |p.idle|,
       connecting := 0, reserved := 0)
  }

  function ResetConnections(p: Pool): Pool {
    Wake(CloseAllIdle(p), false)
  }

  predicate PoolIdle(p: Pool) {
    p.active == |p.idle| && p.waiters == []
  }

  function CloseIdle(p: Pool): Pool {
    p.(idle := [], active := 0, connecting := 0, reserved := 0)
  }

  // ---------------------------------------------------------------------------
  // The pool together with the coroutines that run on it
  // ---------------------------------------------------------------------------

  datatype Kind = Request | Probe | Preconnect

  datatype Held = Held(kind: Kind, conn: Conn)

  /** suspended: coroutines waiting on a Waiter, by its ticket;
      opening:   coroutines between the start and the end of a connect;
      holding:   coroutines running an exchange on a connection. */
  datatype System = System(
    limits: Limits,
    pool: Pool,
    next: nat,
    suspended: map<Ticket, Kind>,
    opening: map<nat, Kind>,
    holding: map<nat, Held>)

  datatype Event =
    | Arrive(kind: Kind)          // a request or a probe enters its acquire loop
    | Resume(ticket: Ticket)      // a woken coroutine continues its acquire loop
    | GiveUp(ticket: Ticket)      // an aborted wait that was not woken
    | FlagCancel(ticket: Ticket)  // cancel_request_on_shard marks the waiter
    | ConnectOk(actor: nat)
    | ConnectFail(actor: nat)
    | ReturnOk(actor: nat)
    | ReturnError(actor: nat)
    | StartPreconnect
    | Timeout(ticket: Ticket)     // the pool deadline fires: the waiter stays queued
    | ProbeThrow(actor: nat)      // the exchange of a probe throws
    | Reset
    | Evict

  function Start(limits: Limits): System {
    System(limits, EMPTY_POOL, 0, map[], map[], map[])
  }

  function Settle(s: System, kind: Kind, d: Decision): System {
    match d.outcome
    case Take(c) => s.(pool := d.pool, holding := s.holding[s.next := Held(kind, c)], next := s.next + 1)
    case Connect => s.(pool := d.pool, opening := s.opening[s.next := kind], next := s.next + 1)
    case Wait => s.(pool := Enqueue(d.pool, s.next), suspended := s.suspended[s.next := kind], next := s.next + 1)
  }

  function Pass(s: System, kind: Kind, woke: bool, hasReservation: bool): Decision {
    if kind == Probe then AcquireProbe(s.pool, s.limits, hasReservation)
    else Acquire(s.pool, s.limits, woke, hasReservation)
  }

  predicate IsWoken(flags: map<Ticket, Waiter>, t: Ticket) {
    t in flags && flags[t].woken
  }

  predicate IsReserved(flags: map<Ticket, Waiter>, t: Ticket) {
    t in flags && flags[t].reservedIdle
  }

  predicate Enabled(s: System, e: Event) {
    match e
    case Arrive(kind) => kind != Preconnect
    case Resume(t) => t in s.suspended && IsWoken(s.pool.flags, t)
    case GiveUp(t) => t in s.suspended && !IsWoken(s.pool.flags, t)
    case FlagCancel(t) => t in s.suspended && s.suspended[t] == Request
    case ConnectOk(a) => a in s.opening
    case ConnectFail(a) => a in s.opening
    case ReturnOk(a) => a in s.holding
    case ReturnError(a) => a in s.holding
    case StartPreconnect => s.pool.active < s.limits.Connections() && s.pool.connecting < s.limits.Connecting()
    case Timeout(t) => t in s.suspended
    case ProbeThrow(a) => a in s.holding && s.holding[a].kind == Probe
    case Reset => true
    case Evict => PoolIdle(s.pool)
  }

  function ResumeStep(s: System, t: Ticket): System
    requires t in s.suspended
  {
    var awake := s.(suspended := s.suspended - {t});
    Settle(awake, s.suspended[t], Pass(awake, s.suspended[t], true, IsReserved(s.pool.flags, t)))
  }

  function Step(s: System, e: Event): System
    requires Enabled(s, e)
  {
    match e
    case Arrive(kind) => Settle(s, kind, Pass(s, kind, false, false))
    case Resume(t) => ResumeStep(s, t)
    case GiveUp(t) => s.(pool := AbandonWait(s.pool, t), suspended := s.suspended - {t})
    case FlagCancel(t) => s.(pool := SetCancelled(s.pool, t))
    case ConnectOk(a) =>
      if s.opening[a] == Preconnect then
        s.(pool := FinishPreconnect(s.pool, a), opening := s.opening - {a})
      else
        s.(pool := FinishConnect(s.pool), opening := s.opening - {a},
           holding := s.holding[a := Held(s.opening[a], a)])
    case ConnectFail(a) => s.(pool := FailConnect(s.pool), opening := s.opening - {a})
    case ReturnOk(a) => s.(pool := ReturnIdle(s.pool, s.holding[a].conn), holding := s.holding - {a})
    case ReturnError(a) => s.(pool := ReturnBroken(s.pool), holding := s.holding - {a})
    case StartPreconnect =>
      s.(pool := StartConnect(s.pool), opening := s.opening[s.next := Preconnect], next := s.next + 1)
    case Timeout(t) => s.(suspended := s.suspended - {t})
    case ProbeThrow(a) => s.(holding := s.holding - {a})
    case Reset => s.(pool := ResetConnections(s.pool))
    case Evict => s.(pool := CloseIdle(s.pool))
  }

  /** The state after an event; an event that cannot happen changes nothing. */
  function Next(s: System, e: Event): System {
    if Enabled(s, e) then Step(s, e) else s
  }
}
