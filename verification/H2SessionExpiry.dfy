/** Stream deadlines on the stream table: what each step of a session does to the map of
    its streams, and a whole pass of expire_streams as steps of the session. */
module H2SessionExpiry {
  import opened Runs
  import opened StreamTables
  import opened StreamDeadlines
  import opened H2Session
  import opened H2SessionLaws

  // ---------------------------------------------------------------------------
  // One step, as a change of the map of streams
  // ---------------------------------------------------------------------------

  /** A callback stream that ends is gone; another one is finished, and keeps the failure
      that it had unless it ends for one. */
  ghost function MapEnded(m: map<Id, Stream>, id: Id, why: Failure): map<Id, Stream> {
    if id !in m then m
    else if m[id].callback then m - {id}
    else if why.NoFailure? then m[id := m[id].(done := true)]
    else m[id := m[id].(done := true, failure := why)]
  }

  /** An admitted and accepted stream is unfinished and has a total and a write deadline. */
  ghost function MapEntered(s: Session, m: map<Id, Stream>, sub: Submission): map<Id, Stream> {
    if s.active < StreamLimit(s) && sub.accepted then
      var t := sub.timing;
      m[sub.actual := Stream(false, sub.callback, At(t.now + t.total), At(t.now + t.write), Never,
                             t.readTimeout, NoFailure)]
    else m
  }

  /** Bytes restart the read deadline of a stream with a read timeout, and a header ends its
      write deadline. */
  ghost function MapTouched(m: map<Id, Stream>, id: Id, header: bool, now: int): map<Id, Stream> {
    if id !in m then m
    else
      var read := if m[id].readTimeout > 0 then At(now + m[id].readTimeout) else m[id].read;
      m[id := m[id].(write := if header then Never else m[id].write, read := read)]
  }

  /** The streams after an event, by what DeadlineQueue does to its map for it. */
  ghost function MapAfter(s: Session, m: map<Id, Stream>, e: Event): map<Id, Stream> {
    match e
    case Enter(sub) => MapEntered(s, m, sub)
    case Resume(_, sub) => MapEntered(s, m, sub)
    case Complete(id) => MapEnded(m, id, NoFailure)
    case PeerReset(id) => MapEnded(m, id, ResetByPeer)
    case Expire(id, kind) => MapEnded(m, id, TimedOut(kind))
    case Header(id, now) => MapTouched(m, id, true, now)
    case Data(id, now) => MapTouched(m, id, false, now)
    case Finish(id) => m - {id}
    case Cancel(id) => m - {id}
    case _ => m
  }

  lemma EnteredTable(s: Session, sub: Submission)
    ensures TryEnter(s, sub).table == if s.active < StreamLimit(s) then SubmittedTable(s.table, sub) else s.table
  {
  }

  lemma EnterFollows(s: Session, sub: Submission)
    requires Valid(s.table) && sub.expected !in Ids(s.table) && sub.actual !in Ids(s.table)
    ensures Valid(TryEnter(s, sub).table)
    ensures Model(TryEnter(s, sub).table) == MapEntered(s, Model(s.table), sub)
  {
    EnteredTable(s, sub);
    SubmittedRefines(s.table, sub);
    StartedAs(s, Model(s.table), sub);
  }

  lemma StartedAs(s: Session, m: map<Id, Stream>, sub: Submission)
    ensures MapEntered(s, m, sub) ==
            if s.active < StreamLimit(s) && sub.accepted then m[sub.actual := Started(sub.callback, sub.timing)] else m
  {
  }

  lemma TouchedAs(m: map<Id, Stream>, id: Id, header: bool, now: int)
    requires id in m
    ensures MapTouched(m, id, header, now) ==
            m[id := if header then AfterHeader(m[id], now) else AfterData(m[id], now)]
  {
  }

  lemma HandlerTable(s: Session, id: Id)
    ensures RunHandler(s, id).table == Release(s.table, id)
  {
  }

  lemma EndFollows(s: Session, id: Id, why: Failure)
    requires Valid(s.table)
    ensures Valid(EndStream(s, id, why).table)
    ensures Model(EndStream(s, id, why).table) == MapEnded(Model(s.table), id, why)
  {
    EndStreamIs(s, id, why);
    if id in Model(s.table) {
      if Model(s.table)[id].callback {
        HandlerTable(s, id);
        ReleaseRefines(s.table, id);
      } else {
        StoreRefines(s.table, id, Ended(Model(s.table)[id], why));
        EndedAs(Model(s.table), id, why);
      }
    }
  }

  lemma EndedAs(m: map<Id, Stream>, id: Id, why: Failure)
    requires id in m && !m[id].callback
    ensures MapEnded(m, id, why) == m[id := Ended(m[id], why)]
  {
  }

  lemma TouchFollows(s: Session, id: Id, header: bool, now: int)
    requires Valid(s.table)
    ensures var t := TouchStream(s, id, header, now).table;
            Valid(t) && Model(t) == MapTouched(Model(s.table), id, header, now)
  {
    TouchStreamIs(s, id, header, now);
    if id in Model(s.table) {
      var state := Model(s.table)[id];
      StoreRefines(s.table, id, if header then AfterHeader(state, now) else AfterData(state, now));
      TouchedAs(Model(s.table), id, header, now);
    }
  }

  /** The table of slots and index entries goes through the same maps as the deadlines. */
  lemma TableFollowsMap(s: Session, e: Event)
    requires Valid(s.table) && Ids(s.table) <= s.used && Enabled(s, e) && !Closes(e)
    ensures Valid(Step(s, e).table)
    ensures Model(Step(s, e).table) == MapAfter(s, Model(s.table), e)
  {
    match e
    case Enter(sub) => EnterFollows(s, sub);
    case Resume(t, sub) => EnterFollows(s.(woken := s.woken - {t}, living := s.living - {t}), sub);
    case Complete(id) => EndFollows(s, id, NoFailure);
    case PeerReset(id) => EndFollows(s, id, ResetByPeer);
    case Expire(id, kind) => EndFollows(s, id, TimedOut(kind));
    case Header(id, now) => TouchFollows(s, id, true, now);
    case Data(id, now) => TouchFollows(s, id, false, now);
    case Finish(id) => ReleaseRefines(s.table, id);
    case Cancel(id) => ReleaseRefines(s.table, id);
    case _ =>
  }

  // ---------------------------------------------------------------------------
  // A pass, as expiries one by one
  // ---------------------------------------------------------------------------

  ghost function DueIds(m: map<Id, Stream>, now: int): set<Id> {
    set id | id in m && Due(m[id], now)
  }

  /** The pass from m ends in `after`, having run the handlers of `ran`. */
  ghost predicate LeadsTo(m: map<Id, Stream>, after: map<Id, Stream>, ran: set<Id>, now: int) {
    forall id :: LeadsToAt(m, after, ran, now, id)
  }

  ghost predicate LeadsToAt(m: map<Id, Stream>, after: map<Id, Stream>, ran: set<Id>, now: int, id: Id) {
    if id !in m then id !in after && id !in ran
    else if !Due(m[id], now) then id in after && after[id] == m[id] && id !in ran
    else if m[id].callback then id !in after && id in ran
    else id in after && id !in ran && Expired(m[id], after[id])
  }

  /** The deadline for which a stream ends. */
  ghost function Cause(after: map<Id, Stream>, id: Id): Kind {
    if id in after && after[id].failure.TimedOut? then after[id].failure.kind else Total
  }

  lemma OneLess(m: map<Id, Stream>, after: map<Id, Stream>, ran: set<Id>, now: int, id: Id)
    requires LeadsTo(m, after, ran, now) && id in DueIds(m, now)
    ensures var m' := MapEnded(m, id, TimedOut(Cause(after, id)));
            LeadsTo(m', after, ran - {id}, now) && DueIds(m', now) == DueIds(m, now) - {id}
  {
    var m' := MapEnded(m, id, TimedOut(Cause(after, id)));
    forall x
      ensures LeadsToAt(m', after, ran - {id}, now, x)
    {
      assert LeadsToAt(m, after, ran, now, x);
      assert LeadsToAt(m, after, ran, now, id);
    }
  }

  lemma NoneDue(m: map<Id, Stream>, after: map<Id, Stream>, ran: set<Id>, now: int)
    requires LeadsTo(m, after, ran, now) && DueIds(m, now) == {}
    ensures after == m && ran == {}
  {
    forall id
      ensures (id in m <==> id in after) && (id in m ==> after[id] == m[id]) && id !in ran
    {
      assert LeadsToAt(m, after, ran, now, id);
      assert id !in DueIds(m, now);
    }
  }

  /** s' is s after a pass that ran these handlers, apart from its table and its waiters. */
  ghost predicate Passed(s: Session, s': Session, ran: set<Id>) {
    && !s'.closed
    && s'.owners == s.owners && s'.used == s.used && s'.submitted == s.submitted
    && s'.handled == s.handled + multiset(ran)
    && s'.active == s.active - |ran|
  }

  lemma HandlerPassed(s: Session, id: Id)
    requires !s.closed && s.active > 0
    ensures Passed(s, RunHandler(s, id), {id})
  {
  }

  lemma EndPassed(s: Session, id: Id, why: Failure)
    requires Conserved(s) && !s.closed && id in Model(s.table)
    ensures Passed(s, EndStream(s, id, why), if Model(s.table)[id].callback then {id} else {})
  {
    EndStreamIs(s, id, why);
    if Model(s.table)[id].callback {
      BookCallbackLeft(Model(s.table), s.owners, s.active, s.used, s.submitted, s.handled, id);
      HandlerPassed(s, id);
    }
  }

  ghost predicate ExpiresTo(s: Session, id: Id, kind: Kind, s': Session) {
    Valid(s.table) && !s.closed && id in Model(s.table) && !Model(s.table)[id].done
    && s' == EndStream(s, id, TimedOut(kind))
  }

  lemma ExpiryIs(s: Session, id: Id, kind: Kind, s': Session)
    requires ExpiresTo(s, id, kind, s')
    ensures Next(s, Expire(id, kind)) == s'
  {
    FindRefines(s.table, id);
  }

  /** The pass that ends in `after` is still to come, in an open session. */
  ghost predicate Ready(s: Session, after: map<Id, Stream>, ran: set<Id>, now: int) {
    Conserved(s) && !s.closed && LeadsTo(Model(s.table), after, ran, now)
  }

  /** How many streams it still has to end. */
  ghost function Left(s: Session, now: int): nat
    requires Valid(s.table)
  {
    |DueIds(Model(s.table), now)|
  }

  ghost predicate Shows(s: Session, m: map<Id, Stream>) {
    Valid(s.table) && Model(s.table) == m
  }

  lemma NothingLeft(s: Session, after: map<Id, Stream>, ran: set<Id>, now: int)
    requires Ready(s, after, ran, now) && Left(s, now) == 0
    ensures Shows(s, after) && Passed(s, s, ran)
  {
    NoneDue(Model(s.table), after, ran, now);
  }

  lemma ExpireDue(s: Session, after: map<Id, Stream>, ran: set<Id>, now: int)
    returns (id: Id, kind: Kind, s': Session)
    requires Ready(s, after, ran, now) && Left(s, now) > 0
    ensures ExpiresTo(s, id, kind, s') && Ready(s', after, ran - {id}, now)
    ensures Passed(s, s', if id in ran then {id} else {})
    ensures Left(s', now) == Left(s, now) - 1
  {
    id :| id in DueIds(Model(s.table), now);
    kind := Cause(after, id);
    var why := TimedOut(kind);
    s' := EndStream(s, id, why);
    EndStreamConserves(s, id, why);
    EndPassed(s, id, why);
    EndFollows(s, id, why);
    OneLess(Model(s.table), after, ran, now, id);
    assert LeadsToAt(Model(s.table), after, ran, now, id);
  }

  lemma PassedOn(s: Session, t: Session, t': Session, ran: set<Id>, rem: set<Id>, id: Id)
    requires rem <= ran && Passed(s, t, ran - rem) && Passed(t, t', if id in rem then {id} else {})
    ensures rem - {id} <= ran && Passed(s, t', ran - (rem - {id}))
  {
    if id in rem {
      assert ran - (rem - {id}) == ran - rem + {id};
      assert multiset(ran - rem + {id}) == multiset(ran - rem) + multiset({id});
    } else {
      assert rem - {id} == rem;
    }
  }

  /** A pass that began in s and will have run the handlers of `ran` has come to t; those
      of `rem` are still to run. */
  ghost predicate Remaining(s: Session, t: Session, after: map<Id, Stream>, ran: set<Id>, now: int, rem: set<Id>) {
    rem <= ran && Ready(t, after, rem, now) && Passed(s, t, ran - rem)
  }

  ghost predicate Midway(s: Session, t: Session, after: map<Id, Stream>, ran: set<Id>, now: int) {
    exists rem: set<Id> :: Remaining(s, t, after, ran, now, rem)
  }

  /** Left for any session. */
  ghost function Rank(t: Session, now: int): nat {
    if Valid(t.table) then Left(t, now) else 0
  }

  lemma RemainingStep(s: Session, t: Session, after: map<Id, Stream>, ran: set<Id>, now: int, rem: set<Id>)
    returns (id: Id, kind: Kind, t': Session)
    requires Remaining(s, t, after, ran, now, rem) && Rank(t, now) > 0
    ensures ExpiresTo(t, id, kind, t') && Rank(t', now) == Rank(t, now) - 1
    ensures Remaining(s, t', after, ran, now, rem - {id})
  {
    id, kind, t' := ExpireDue(t, after, rem, now);
    PassedOn(s, t, t', ran, rem, id);
  }

  lemma MidwayStep(s: Session, t: Session, after: map<Id, Stream>, ran: set<Id>, now: int) returns (e: Event)
    requires Midway(s, t, after, ran, now) && Rank(t, now) > 0
    ensures e.Expire? && Midway(s, Next(t, e), after, ran, now) && Rank(Next(t, e), now) == Rank(t, now) - 1
  {
    var rem: set<Id> :| Remaining(s, t, after, ran, now, rem);
    var id, kind, t' := RemainingStep(s, t, after, ran, now, rem);
    ExpiryIs(t, id, kind, t');
    e := Expire(id, kind);
  }

  predicate IsExpiry(e: Event) {
    e.Expire?
  }

  lemma MidwayDescends(s: Session, t: Session, after: map<Id, Stream>, ran: set<Id>, now: int,
                       inv: Session -> bool, rank: Session -> nat)
    requires Midway(s, t, after, ran, now) && Rank(t, now) > 0
    requires forall u: Session :: inv(u) == Midway(s, u, after, ran, now)
    requires forall u: Session :: rank(u) == Rank(u, now)
    ensures Descends(Next, inv, rank, IsExpiry, t)
  {
    var e := MidwayStep(s, t, after, ran, now);
    assert IsExpiry(e) && inv(Next(t, e)) && rank(Next(t, e)) == rank(t) - 1;
  }

  lemma MidwayEnds(s: Session, t: Session, after: map<Id, Stream>, ran: set<Id>, now: int)
    requires Midway(s, t, after, ran, now) && Rank(t, now) == 0
    ensures Shows(t, after) && Passed(s, t, ran)
  {
    var rem: set<Id> :| Remaining(s, t, after, ran, now, rem);
    NothingLeft(t, after, rem, now);
    assert ran - rem == ran;
  }

  lemma MidwayBegins(s: Session, after: map<Id, Stream>, ran: set<Id>, now: int)
    requires Ready(s, after, ran, now)
    ensures Midway(s, s, after, ran, now)
  {
    assert ran - ran == {} && multiset(ran - ran) == multiset{};
    assert Remaining(s, s, after, ran, now, ran);
  }

  /** From any session in which the pass is still to come. */
  lemma ExpireAll(s: Session, after: map<Id, Stream>, ran: set<Id>, now: int) returns (es: seq<Event>)
    requires Ready(s, after, ran, now)
    ensures forall i :: 0 <= i < |es| ==> es[i].Expire?
    ensures |es| == Rank(s, now)
    ensures Passed(s, Run(Next, s, es), ran) && Shows(Run(Next, s, es), after)
  {
    var inv := (t: Session) => Midway(s, t, after, ran, now);
    var rank := (t: Session) => Rank(t, now);
    MidwayBegins(s, after, ran, now);
    forall t: Session | inv(t) && rank(t) > 0
      ensures Descends(Next, inv, rank, IsExpiry, t)
    {
      MidwayDescends(s, t, after, ran, now, inv, rank);
    }
    es := Descend(Next, inv, rank, IsExpiry, s);
    forall i | 0 <= i < |es|
      ensures es[i].Expire?
    {
      assert IsExpiry(es[i]);
    }
    MidwayEnds(s, Run(Next, s, es), after, ran, now);
  }

  lemma HandledAsSet(m: map<Id, Stream>, after: map<Id, Stream>, handled: seq<Id>, now: int)
    requires ExpiredExactly(m, after, handled, now)
    ensures var ran := set id | id in handled;
            LeadsTo(m, after, ran, now) && multiset(handled) == multiset(ran) && |ran| == |handled|
  {
    var ran := set id | id in handled;
    forall id
      ensures LeadsToAt(m, after, ran, now, id) && multiset(handled)[id] == multiset(ran)[id]
    {
      assert ExpiredAt(m, after, handled, now, id);
      DistinctMultiset(handled, id);
    }
    DistinctCount(handled);
  }

  /** A pass of expire_streams at any time of any run, which DeadlineQueue.ExpireStreams
      computes on the map of the streams, is one expiry for each due stream in the session:
      the table ends as the map of the pass, each handler of the pass ran once more, and
      active_streams_ fell by the number of them and is again the number of streams. */
  lemma PassOnTheTable(configured: nat, before: seq<Event>, after: map<Id, Stream>, handled: seq<Id>, now: int)
    returns (es: seq<Event>)
    requires var s := Run(Next, Open(configured), before);
             !s.closed && Valid(s.table) && ExpiredExactly(Model(s.table), after, handled, now)
    ensures forall i :: 0 <= i < |es| ==> es[i].Expire?
    ensures var s := Run(Next, Open(configured), before);
            var s' := Run(Next, Open(configured), before + es);
            && |es| == |DueIds(Model(s.table), now)|
            && !s'.closed && Valid(s'.table) && Model(s'.table) == after
            && s'.owners == s.owners && s'.handled == s.handled + multiset(handled)
            && s'.active == s.active - |handled| == |after|
  {
    SoundAlways(configured, before);
    var s := Run(Next, Open(configured), before);
    HandledAsSet(Model(s.table), after, handled, now);
    es := ExpireAll(s, after, (set id | id in handled), now);
    RunSplit(Next, Open(configured), before, es);
    SlotsConserved(configured, before + es);
  }
}
