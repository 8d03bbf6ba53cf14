/** Stream-slot admission and stream lifetimes of one HTTP/2 connection, on top of the
    stream table.  A StreamSlot is owned by the coroutine of a request; a callback
    stream owns its slot itself. */
module H2Session {
  import opened Sequences
  import opened StreamTables
  import opened StreamDeadlines

  type Ticket = nat

  /** table:     the stream table;
      active:    active_streams_;
      owners:    streams whose request coroutine still holds an active StreamSlot;
      waiters:   queued waiters; one may outlive its coroutine;
      living:    coroutines that sleep on a waiter, queued or woken;
      woken:     those of them that were woken and have not resumed;
      used:      ids that nghttp2 has given out on this connection;
      submitted: callback streams that were submitted;
      handled:   callback streams whose handler ran, with multiplicity. */
  datatype Session = Session(
    configured: nat,
    peer: nat,
    table: Table,
    active: nat,
    owners: set<Id>,
    waiters: seq<Ticket>,
    living: set<Ticket>,
    woken: set<Ticket>,
    next: nat,
    used: set<Id>,
    submitted: set<Id>,
    handled: multiset<Id>,
    closed: bool)

  /** How one submission ends: the id that was expected, the id that nghttp2 returned,
      or a refusal, whether the stream runs in callback mode, and its deadlines. */
  datatype Submission = Submission(callback: bool, expected: Id, actual: Id, accepted: bool, timing: Timing)

  datatype Event =
    | Enter(sub: Submission)
    | Resume(ticket: Ticket, sub: Submission)
    | GiveUp(ticket: Ticket)   // an aborted wait that was not woken
    | Timeout(ticket: Ticket)  // the pool deadline fires: the waiter stays queued
    | Complete(id: Id)      // END_STREAM
    | PeerReset(id: Id)     // RST_STREAM, which sets the error of a finished response too
    | Expire(id: Id, kind: Kind)   // a deadline of a live, unfinished stream
    | Header(id: Id, now: int)     // a response header of a stream
    | Data(id: Id, now: int)       // a body chunk of a stream
    | Finish(id: Id)        // the request coroutine takes its finished response
    | Cancel(id: Id)        // the request coroutine cancels its stream
    | Settings(value: nat)  // the peer sets MAX_CONCURRENT_STREAMS
    | IoFailure             // reading or writing failed: the streams fail, the session shuts down
    | Shutdown

  function AtLeastOne(n: nat): nat {
    if n == 0 then 1 else n
  }

  /** The least of what both sides allow, and at least one. */
  function StreamLimit(s: Session): (n: nat)
    ensures 1 <= n <= AtLeastOne(s.configured) && n <= AtLeastOne(s.peer)
    ensures n == AtLeastOne(s.configured) || n == AtLeastOne(s.peer)
  {
    if AtLeastOne(s.configured) <= AtLeastOne(s.peer) then AtLeastOne(s.configured) else AtLeastOne(s.peer)
  }

  /** The entries for which ensure_connected reserves room. */
  function ReservedEntries(configured: nat): (n: nat)
    ensures n >= 32 && n >= configured + configured / 4 + 16
    ensures n == 32 || n == configured + configured / 4 + 16
  {
    var n := configured + configured / 4 + 16;
    if n < 32 then 32 else n
  }

  function Open(configured: nat): Session {
    Session(configured, 100, EMPTY_TABLE, 0, {}, [], {}, {}, 0, {}, {}, multiset{}, false)
  }

  // ---------------------------------------------------------------------------
  // Atomic sections
  // ---------------------------------------------------------------------------

  /** Takes one waiter from the queue if a slot is free, and wakes its coroutine if there
      still is one. */
  function WakeStreamWaiters(s: Session): Session {
    if s.waiters != [] && s.active < StreamLimit(s) then
      s.(waiters := s.waiters[1..],
         woken := if s.waiters[0] in s.living then s.woken + {s.waiters[0]} else s.woken)
    else s
  }

  function ReleaseSlot(s: Session): Session {
    WakeStreamWaiters(s.(active := if s.active > 0 then s.active - 1 else 0))
  }

  function SubmittedTable(t: Table, sub: Submission): Table {
    var acquired := Acquire(t, sub.expected);
    if !sub.accepted then Release(acquired, sub.expected)
    else
      var named := if sub.actual == sub.expected then acquired else Rename(acquired, sub.expected, sub.actual);
      Store(named, sub.actual, Started(sub.callback, sub.timing))
  }

  function Admit(s: Session, sub: Submission, t: Table): Session {
    var taken := s.(active := s.active + 1, table := t);
    if !sub.accepted then ReleaseSlot(taken)
    else if sub.callback then taken.(used := s.used + {sub.actual}, submitted := s.submitted + {sub.actual})
    else taken.(used := s.used + {sub.actual}, owners := s.owners + {sub.actual})
  }

  function TryEnter(s: Session, sub: Submission): Session {
    if s.active < StreamLimit(s) then Admit(s, sub, SubmittedTable(s.table, sub))
    else s.(waiters := s.waiters + [s.next], living := s.living + {s.next}, next := s.next + 1)
  }

  function RunHandler(s: Session, id: Id): Session {
    ReleaseSlot(s.(table := Release(s.table, id))).(handled := s.handled + multiset{id})
  }

  function Ended(state: Stream, why: Failure): Stream {
    state.(done := true, failure := if why.NoFailure? then state.failure else why)
  }

  /** A stream ends: its callback runs, or its request coroutine finds it done. */
  function EndStream(s: Session, id: Id, why: Failure): Session {
    var f := Find(s.table, id);
    if f.slot.None? then s.(table := f.table)
    else
      var state := f.table.streams[f.slot.value].state;
      if state.callback then RunHandler(s, id)
      else s.(table := Store(s.table, id, Ended(state, why)))
  }

  /** Bytes of the response move the deadlines of a stream. */
  function TouchStream(s: Session, id: Id, header: bool, now: int): Session {
    var f := Find(s.table, id);
    if f.slot.None? then s.(table := f.table)
    else
      var state := f.table.streams[f.slot.value].state;
      s.(table := Store(s.table, id, if header then AfterHeader(state, now) else AfterData(state, now)))
  }

  function LeaveTable(s: Session, id: Id): Session {
    ReleaseSlot(s.(table := Release(s.table, id), owners := s.owners - {id}))
  }

  predicate Unfinished(e: Entry) {
    e.inUse && !e.state.done
  }

  function MarkDone(streams: seq<Entry>): (r: seq<Entry>)
    ensures |r| == |streams|
    ensures forall k :: 0 <= k < |streams| ==>
      r[k] == if Unfinished(streams[k])
              then streams[k].(state := streams[k].state.(done := true, failure := ConnectionLost))
              else streams[k]
  {
    if streams == [] then []
    else
      var e := streams[0];
      [if Unfinished(e) then e.(state := Ended(e.state, ConnectionLost)) else e] + MarkDone(streams[1..])
  }

  function UnfinishedCallbacks(streams: seq<Entry>): seq<Id> {
    if streams == [] then []
    else
      var e := streams[0];
      (if Unfinished(e) && e.state.callback then [e.id] else []) + UnfinishedCallbacks(streams[1..])
  }

  function ReleaseAll(t: Table, ids: seq<Id>): Table
    decreases |ids|
  {
    if ids == [] then t else ReleaseAll(Release(t, ids[0]), ids[1..])
  }

  function FailAllStreams(s: Session): Session {
    var failed := UnfinishedCallbacks(s.table.streams);
    WakeStreamWaiters(
      s.(table := ReleaseAll(s.table.(streams := MarkDone(s.table.streams)), failed),
         active := if s.active > |failed| then s.active - |failed| else 0,
         handled := s.handled + multiset(failed)))
  }

  function ShutdownNow(s: Session): Session {
    var all := s.woken + (set t | t in s.waiters && t in s.living);
    FailAllStreams(s.(active := 0, woken := all, waiters := [])).(closed := true)
  }

  predicate FreshIds(s: Session, sub: Submission) {
    sub.expected !in s.used && sub.actual !in s.used
  }

  predicate LiveUnfinished(t: Table, id: Id) {
    var f := Find(t, id);
    f.slot.Some? && !f.table.streams[f.slot.value].state.done
  }

  predicate Enabled(s: Session, e: Event) {
    !s.closed &&
    match e
    case Enter(sub) => FreshIds(s, sub)
    case Resume(t, sub) => t in s.woken && FreshIds(s, sub)
    case GiveUp(t) => t in s.living && t !in s.woken
    case Timeout(t) => t in s.living
    case Complete(id) => true
    case PeerReset(id) => true
    case Expire(id, kind) => LiveUnfinished(s.table, id)
    case Header(id, now) => true
    case Data(id, now) => true
    case Finish(id) => id in s.owners
    case Cancel(id) => id in s.owners
    case Settings(v) => true
    case IoFailure => true
    case Shutdown => true
  }

  function Step(s: Session, e: Event): Session
    requires Enabled(s, e)
  {
    match e
    case Enter(sub) => TryEnter(s, sub)
    case Resume(t, sub) => TryEnter(s.(woken := s.woken - {t}, living := s.living - {t}), sub)
    case GiveUp(t) => s.(waiters := Without(s.waiters, t), living := s.living - {t})
    case Timeout(t) => s.(living := s.living - {t}, woken := s.woken - {t})
    case Complete(id) => EndStream(s, id, NoFailure)
    case PeerReset(id) => EndStream(s, id, ResetByPeer)
    case Expire(id, kind) => EndStream(s, id, TimedOut(kind))
    case Header(id, now) => TouchStream(s, id, true, now)
    case Data(id, now) => TouchStream(s, id, false, now)
    case Finish(id) => LeaveTable(s, id)
    case Cancel(id) => LeaveTable(s, id)
    case Settings(v) => WakeStreamWaiters(s.(peer := AtLeastOne(v)))
    case IoFailure => ShutdownNow(FailAllStreams(s))
    case Shutdown => ShutdownNow(s)
  }

  /** The state after an event; an event that cannot happen changes nothing. */
  function Next(s: Session, e: Event): Session {
    if Enabled(s, e) then Step(s, e) else s
  }
}
