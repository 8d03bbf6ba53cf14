/** The protocol gate of one origin: the first request detects the protocol, the others
    wait for its verdict. */
module OriginGates {
  import opened Runs

  datatype Protocol = Unknown | Detecting | H2Available | H1Only | H2FailedRecently

  datatype Policy = FallbackH1 | WaitForDetection

  type Waiter = nat

  /** blocked:  the flag that keeps the origin from being evicted;
      notified: waiters whose `done` flag is set and whose timer is cancelled;
      history:  decisions to detect and protocol updates, in order. */
  datatype Gate = Gate(
    protocol: Protocol,
    retryAfter: int,
    waiters: seq<Waiter>,
    next: Waiter,
    blocked: bool,
    notified: set<Waiter>,
    history: seq<Mark>)

  datatype Mark = DetectionBegan | ProtocolSet

  datatype Decision = UseH2 | UseH1(overflow: bool) | Detect | Wait(waiter: Waiter)

  datatype Event =
    | Enter(now: int)
    | SetH1Only
    | SetH2Available
    | MarkH2Failed(now: int)

  datatype Options = Options(waiterLimit: nat, policy: Policy, failureTtl: int)

  const NEW_GATE := Gate(Unknown, 0, [], 0, false, {}, [])

  // ---------------------------------------------------------------------------
  // Steps
  // ---------------------------------------------------------------------------

  function BeginDetection(g: Gate): Gate {
    g.(protocol := Detecting, blocked := true, history := g.history + [DetectionBegan])
  }

  function Queue(g: Gate): Gate {
    g.(waiters := g.waiters + [g.next], next := g.next + 1)
  }

  function Decide(g: Gate, o: Options, now: int): Decision {
    match g.protocol
    case H2Available => UseH2
    case H1Only => UseH1(false)
    case H2FailedRecently => if now < g.retryAfter then UseH1(false) else Detect
    case Detecting =>
      if |g.waiters| >= o.waiterLimit && o.policy.FallbackH1? then UseH1(true) else Wait(g.next)
    case Unknown => Detect
  }

  function Entered(g: Gate, o: Options, now: int): Gate {
    match Decide(g, o, now)
    case Detect => BeginDetection(g)
    case Wait(_) => Queue(g)
    case _ => g
  }

  function Notify(g: Gate): Gate {
    g.(notified := g.notified + (set w | w in g.waiters), waiters := [])
  }

  function Update(g: Gate, p: Protocol, retryAfter: int): Gate {
    Notify(g.(protocol := p, retryAfter := retryAfter, history := g.history + [ProtocolSet])).(blocked := false)
  }

  function Step(g: Gate, o: Options, e: Event): Gate {
    match e
    case Enter(now) => Entered(g, o, now)
    case SetH1Only => Update(g, H1Only, 0)
    case SetH2Available => Update(g, H2Available, 0)
    case MarkH2Failed(now) => Update(g, H2FailedRecently, now + o.failureTtl)
  }

  function NextGate(o: Options): (Gate, Event) -> Gate {
    (g: Gate, e: Event) => Step(g, o, e)
  }

  // ---------------------------------------------------------------------------
  // Single flight
  // ---------------------------------------------------------------------------

  /** Two decisions to detect have a protocol update between them. */
  ghost predicate SingleFlight(history: seq<Mark>) {
    forall i, j :: 0 <= i < j < |history| && history[i].DetectionBegan? && history[j].DetectionBegan? ==>
      exists k :: i < k < j && history[k].ProtocolSet?
  }

  /** A decision to detect is followed by an update at once. */
  ghost predicate Alternating(history: seq<Mark>) {
    forall i {:trigger history[i]} :: 0 <= i < |history| - 1 && history[i].DetectionBegan? ==> history[i + 1].ProtocolSet?
  }

  ghost predicate Orderly(g: Gate) {
    && Alternating(g.history)
    && (g.protocol.Detecting? <==> g.history != [] && g.history[|g.history| - 1].DetectionBegan?)
    && (g.protocol.Detecting? <==> g.blocked)
    && (g.waiters != [] ==> g.protocol.Detecting?)
    && (g.protocol.Unknown? <==> g.history == [])
  }

  /** Every waiter ever made is queued or has been notified, never both. */
  ghost predicate WaitersKept(g: Gate) {
    && (forall w: Waiter :: w < g.next <==> w in g.waiters || w in g.notified)
    && (forall w :: w in g.waiters ==> w !in g.notified)
  }

  ghost predicate Bounded(g: Gate, o: Options) {
    o.policy.FallbackH1? ==> |g.waiters| <= o.waiterLimit
  }

  ghost predicate GateInv(g: Gate, o: Options) {
    Orderly(g) && WaitersKept(g) && Bounded(g, o)
  }

  lemma UpdateKeeps(g: Gate, o: Options, p: Protocol, retryAfter: int)
    requires GateInv(g, o) && !p.Detecting? && !p.Unknown?
    ensures GateInv(Update(g, p, retryAfter), o)
  {
    var h := g.history + [ProtocolSet];
    forall i | 0 <= i < |h| - 1 && h[i].DetectionBegan?
      ensures h[i + 1].ProtocolSet?
    {
      assert g.history[i].DetectionBegan?;
      assert i + 1 < |g.history| ==> g.history[i + 1].ProtocolSet?;
    }
  }

  lemma DetectionKeeps(g: Gate, o: Options)
    requires GateInv(g, o) && !g.protocol.Detecting?
    ensures GateInv(BeginDetection(g), o)
  {
    var h := BeginDetection(g).history;
    forall i | 0 <= i < |h| - 1 && h[i].DetectionBegan?
      ensures h[i + 1].ProtocolSet?
    {
      assert g.history[i].DetectionBegan?;
      assert i + 1 < |g.history| ==> g.history[i + 1].ProtocolSet?;
    }
  }

  lemma NextGateKeeps(g: Gate, o: Options, e: Event)
    requires GateInv(g, o)
    ensures GateInv(NextGate(o)(g, e), o)
  {
    match e
    case Enter(now) =>
      if Decide(g, o, now).Detect? {
        DetectionKeeps(g, o);
      }
    case SetH1Only => UpdateKeeps(g, o, H1Only, 0);
    case SetH2Available => UpdateKeeps(g, o, H2Available, 0);
    case MarkH2Failed(now) => UpdateKeeps(g, o, H2FailedRecently, now + o.failureTtl);
  }

  lemma GateAlways(o: Options, es: seq<Event>)
    ensures GateInv(Run(NextGate(o), NEW_GATE, es), o)
  {
    forall g, e | GateInv(g, o)
      ensures GateInv(NextGate(o)(g, e), o)
    {
      NextGateKeeps(g, o, e);
    }
    Always(NextGate(o), (g: Gate) => GateInv(g, o), NEW_GATE, es);
  }

  /** In every run: detection is single flight, the gate blocks eviction exactly while it
      detects, requests wait only for a detection in progress, and every waiter ever made
      waits or has been notified. */
  lemma DetectionIsSingleFlight(o: Options, es: seq<Event>)
    ensures var g := Run(NextGate(o), NEW_GATE, es);
            && SingleFlight(g.history)
            && (g.protocol.Detecting? <==> g.blocked)
            && (g.waiters != [] ==> g.protocol.Detecting?)
            && (forall w: Waiter :: w < g.next ==> w in g.waiters || w in g.notified)
  {
    GateAlways(o, es);
    var g := Run(NextGate(o), NEW_GATE, es);
    forall i, j | 0 <= i < j < |g.history| && g.history[i].DetectionBegan? && g.history[j].DetectionBegan?
      ensures exists k :: i < k < j && g.history[k].ProtocolSet?
    {
      assert g.history[i + 1].ProtocolSet?;
    }
  }

  /** After any run, an update leaves no waiter behind. */
  lemma UpdatesReleaseAll(o: Options, es: seq<Event>, e: Event)
    requires !e.Enter?
    ensures var g := Run(NextGate(o), NEW_GATE, es + [e]);
            && g.waiters == [] && !g.blocked
            && (forall w: Waiter :: w < g.next ==> w in g.notified)
  {
    RunSplit(NextGate(o), NEW_GATE, es, [e]);
    GateAlways(o, es);
    var before := Run(NextGate(o), NEW_GATE, es);
    var g := Step(before, o, e);
    assert g.waiters == [] && !g.blocked;
    assert [e][1..] == [] && Run(NextGate(o), g, []) == g;
    assert Run(NextGate(o), before, [e]) == g;
    NextGateKeeps(before, o, e);
  }

  /** After every run: the first request of an origin detects its protocol; while it does,
      the others wait in turn, except those beyond the limit under the FallbackH1 policy,
      which fall back; and no other request is told to wait or counted as an overflow. */
  lemma EntryDecidedExactly(o: Options, es: seq<Event>, now: int)
    ensures var g := Run(NextGate(o), NEW_GATE, es);
            var d := Decide(g, o, now);
            var detecting := g.history != [] && g.history[|g.history| - 1].DetectionBegan?;
            && (g.history == [] ==> d.Detect?)
            && (d.Wait? <==> detecting && (|g.waiters| < o.waiterLimit || o.policy.WaitForDetection?))
            && (d == UseH1(true) <==> detecting && |g.waiters| >= o.waiterLimit && o.policy.FallbackH1?)
            && (d.Wait? ==> d.waiter == g.next
                            && Step(g, o, Enter(now)) == g.(waiters := g.waiters + [g.next], next := g.next + 1))
            && (d.Detect? ==> var g' := Step(g, o, Enter(now));
                              g'.blocked && g'.waiters == g.waiters && g'.history == g.history + [DetectionBegan])
            && (!d.Wait? && !d.Detect? ==> Step(g, o, Enter(now)) == g)
  {
    GateAlways(o, es);
  }

  /** What an update makes of a request that comes next: a failure holds for its time to
      live, a protocol for good. */
  function Verdict(o: Options, e: Event, now: int): Decision
    requires !e.Enter?
  {
    match e
    case SetH1Only => UseH1(false)
    case SetH2Available => UseH2
    case MarkH2Failed(failed) => if now - failed < o.failureTtl then UseH1(false) else Detect
  }

  /** An update sets the protocol, forgets an earlier failure, and notes the end of a new one. */
  lemma UpdateMeans(g: Gate, o: Options, now: int)
    ensures var g1 := Step(g, o, SetH1Only); g1.protocol == H1Only && g1.retryAfter == 0
    ensures var g2 := Step(g, o, SetH2Available); g2.protocol == H2Available && g2.retryAfter == 0
    ensures var g3 := Step(g, o, MarkH2Failed(now));
            g3.protocol == H2FailedRecently && g3.retryAfter == now + o.failureTtl
  {
  }

  lemma UpdateDecides(g: Gate, o: Options, e: Event, now: int)
    requires !e.Enter?
    ensures Decide(Step(g, o, e), o, now) == Verdict(o, e, now)
  {
  }

  /** In any state: until the next detection every request is treated as the last update
      says, however many have been let through since. */
  lemma LastUpdateDecides(g: Gate, o: Options, e: Event, later: seq<Event>, now: int)
    requires !e.Enter? && forall i :: 0 <= i < |later| ==> later[i].Enter? && !Verdict(o, e, later[i].now).Detect?
    ensures Decide(Run(NextGate(o), Step(g, o, e), later), o, now) == Verdict(o, e, now)
  {
    forall t: int
      ensures Decide(Step(g, o, e), o, t) == Verdict(o, e, t)
    {
      UpdateDecides(g, o, e, t);
    }
    EntriesChangeNothing(Step(g, o, e), o, e, later);
  }

  /** Requests let through leave the gate as it is. */
  lemma {:induction false} EntriesChangeNothing(g: Gate, o: Options, e: Event, later: seq<Event>)
    requires !e.Enter? && forall now: int :: Decide(g, o, now) == Verdict(o, e, now)
    requires forall i :: 0 <= i < |later| ==> later[i].Enter? && !Verdict(o, e, later[i].now).Detect?
    ensures Run(NextGate(o), g, later) == g
    decreases |later|
  {
    if later != [] {
      assert Decide(g, o, later[0].now) == Verdict(o, e, later[0].now);
      EntriesChangeNothing(g, o, e, later[1..]);
    }
  }

  // ---------------------------------------------------------------------------
  // The limit on waiters
  // ---------------------------------------------------------------------------

  lemma {:induction false} EntriesQueue(g: Gate, o: Options, n: nat)
    requires g.protocol.Detecting? && o.policy.WaitForDetection?
    ensures |Run(NextGate(o), g, seq(n, _ => Enter(0))).waiters| == |g.waiters| + n
    decreases n
  {
    if n > 0 {
      var es := seq(n, _ => Enter(0));
      assert es[1..] == seq(n - 1, _ => Enter(0));
      EntriesQueue(Queue(g), o, n - 1);
    }
  }

  /** The queue keeps within its limit in every run exactly under the FallbackH1 policy. */
  lemma QueueBoundedExactly(o: Options)
    ensures (forall es: seq<Event> :: |Run(NextGate(o), NEW_GATE, es).waiters| <= o.waiterLimit)
            <==> o.policy.FallbackH1?
  {
    if o.policy.FallbackH1? {
      forall es: seq<Event>
        ensures |Run(NextGate(o), NEW_GATE, es).waiters| <= o.waiterLimit
      {
        GateAlways(o, es);
      }
    } else {
      var n := o.waiterLimit + 1;
      var es := seq(n, _ => Enter(0));
      EntriesQueue(BeginDetection(NEW_GATE), o, n);
      assert ([Enter(0)] + es)[1..] == es;
      assert Run(NextGate(o), NEW_GATE, [Enter(0)] + es) == Run(NextGate(o), BeginDetection(NEW_GATE), es);
    }
  }

  // ---------------------------------------------------------------------------
  // The gate's fields
  // ---------------------------------------------------------------------------

  class OriginGate {
    const options: Options
    var protocol: Protocol
    var retryAfter: int
    var waiters: seq<Waiter>
    var next: Waiter
    var blocked: bool
    var done: set<Waiter>
    ghost var history: seq<Mark>

    ghost function State(): Gate
      reads this
    {
      Gate(protocol, retryAfter, waiters, next, blocked, done, history)
    }

    constructor (options: Options)
      ensures State() == NEW_GATE && this.options == options
    {
      this.options := options;
      protocol, retryAfter, waiters, next, blocked, done := Unknown, 0, [], 0, false, {};
      history := [];
    }

    method EnterGate(now: int) returns (d: Decision)
      modifies this
      ensures d == Decide(old(State()), options, now)
      ensures State() == Entered(old(State()), options, now)
    {
      match protocol {
        case H2Available => return UseH2;
        case H1Only => return UseH1(false);
        case H2FailedRecently =>
          if now < retryAfter {
            return UseH1(false);
          }
          protocol, blocked, history := Detecting, true, history + [DetectionBegan];
          return Detect;
        case Detecting =>
          if |waiters| >= options.waiterLimit && options.policy.FallbackH1? {
            return UseH1(true);
          }
        case Unknown =>
          protocol, blocked, history := Detecting, true, history + [DetectionBegan];
          return Detect;
      }
      d := Wait(next);
      waiters, next := waiters + [next], next + 1;
    }

    method NotifyWaiters()
      modifies this
      ensures State() == Notify(old(State()))
    {
      var i := 0;
      while i < |waiters|
        invariant 0 <= i <= |waiters|
        invariant done == old(done) + set w | w in waiters[..i]
        invariant State() == old(State()).(notified := done)
      {
        done := done + {waiters[i]};
        i := i + 1;
      }
      waiters := [];
    }

    method SetProtocol(p: Protocol)
      modifies this
      ensures State() == Update(old(State()), p, 0)
    {
      protocol, retryAfter := p, 0;
      history := history + [ProtocolSet];
      NotifyWaiters();
      blocked := false;
    }

    method MarkH2FailedAt(now: int)
      modifies this
      ensures State() == Update(old(State()), H2FailedRecently, now + options.failureTtl)
    {
      protocol, retryAfter := H2FailedRecently, now + options.failureTtl;
      history := history + [ProtocolSet];
      NotifyWaiters();
      blocked := false;
    }
  }
}
