/** asyncx::Queue: a FIFO of items with a line of sleeping getters and a line of
    sleeping putters. */
module BoundedQueues {
  import opened Runs
  import opened TimerQueues

  /** max:     the capacity, zero for none;
      carried: the value each sleeping or woken putter has not stored yet;
      put, got: all values stored and all values taken, in order;
      called:    the values of all calls of put and of the successful calls of try_put;
      abandoned: the values of putters that were destroyed while they waited. */
  datatype Queue<T> = Queue(
    max: nat,
    items: seq<T>,
    getters: Line,
    putters: Line,
    carried: map<Timer, T>,
    put: seq<T>,
    got: seq<T>,
    called: seq<T>,
    abandoned: seq<T>)

  datatype Event<T> =
    | Put(value: T)
    | TryPut(value: T)
    | Get
    | TryGet
    | ResumePut(timer: Timer)     // a woken putter tries again
    | ResumeGet(timer: Timer)     // a woken getter tries again
    | StirPut(timer: Timer)       // a sleeping putter resumes unwoken and tries again
    | StirGet(timer: Timer)
    | AbandonPut(timer: Timer)    // a sleeping putter is destroyed
    | AbandonGet(timer: Timer)
    | AbandonWoken(timer: Timer)     // a woken getter is destroyed before it resumes
    | AbandonWokenPut(timer: Timer)  // a woken putter is destroyed before it resumes

  function Init<T>(max: nat): Queue<T> {
    Queue(max, [], EMPTY, EMPTY, map[], [], [], [], [])
  }

  // ---------------------------------------------------------------------------
  // Atomic sections
  // ---------------------------------------------------------------------------

  predicate HasRoom<T>(q: Queue<T>) {
    q.max == 0 || |q.items| < q.max
  }

  /** An item is stored and one getter is woken. */
  function Store<T>(q: Queue<T>, v: T): Queue<T> {
    q.(items := q.items + [v], put := q.put + [v], getters := CancelOne(q.getters))
  }

  /** The oldest item is taken and one putter is woken. */
  function Take<T>(q: Queue<T>): Queue<T>
    requires q.items != []
  {
    q.(items := q.items[1..], got := q.got + [q.items[0]], putters := CancelOne(q.putters))
  }

  /** One pass of the put loop. */
  function PutOnce<T>(q: Queue<T>, v: T): Queue<T> {
    if HasRoom(q) then Store(q, v)
    else q.(putters := Sleep(q.putters), carried := q.carried[q.putters.next := v])
  }

  /** One pass of the get loop. */
  function GetOnce<T>(q: Queue<T>): Queue<T> {
    if q.items != [] then Take(q) else q.(getters := Sleep(q.getters))
  }

  /** A waiting putter is destroyed, and its value with it. */
  function Abandoned<T>(q: Queue<T>, t: Timer): Queue<T>
    requires t in q.carried
  {
    q.(carried := q.carried - {t}, abandoned := q.abandoned + [q.carried[t]])
  }

  function Next<T>(q: Queue<T>, e: Event<T>): Queue<T> {
    match e
    case Put(v) => PutOnce(q.(called := q.called + [v]), v)
    case TryPut(v) => if HasRoom(q) then Store(q.(called := q.called + [v]), v) else q
    case Get => GetOnce(q)
    case TryGet => if q.items != [] then Take(q) else q
    case ResumePut(t) =>
      if t in q.putters.woken && t in q.carried
      then PutOnce(q.(putters := Unwake(q.putters, t), carried := q.carried - {t}), q.carried[t])
      else q
    case ResumeGet(t) => if t in q.getters.woken then GetOnce(q.(getters := Unwake(q.getters, t))) else q
    case StirPut(t) =>
      if t in q.putters.asleep && t in q.carried
      then PutOnce(q.(putters := Vanish(q.putters, t), carried := q.carried - {t}), q.carried[t])
      else q
    case StirGet(t) => if t in q.getters.asleep then GetOnce(q.(getters := Vanish(q.getters, t))) else q
    case AbandonPut(t) =>
      if t in q.putters.asleep && t in q.carried
      then Abandoned(q, t).(putters := Vanish(q.putters, t))
      else q
    case AbandonGet(t) => q.(getters := Vanish(q.getters, t))
    case AbandonWoken(t) => q.(getters := Unwake(q.getters, t))
    case AbandonWokenPut(t) =>
      if t in q.putters.woken && t in q.carried
      then Abandoned(q, t).(putters := Unwake(q.putters, t))
      else q
  }

  // ---------------------------------------------------------------------------
  // First in, first out
  // ---------------------------------------------------------------------------

  ghost predicate InOrder<T>(q: Queue<T>) {
    q.got + q.items == q.put
  }

  ghost predicate Within<T>(q: Queue<T>) {
    q.max != 0 ==> |q.items| <= q.max
  }

  lemma NextInOrder<T>(q: Queue<T>, e: Event<T>)
    requires InOrder(q) && Within(q)
    ensures InOrder(Next(q, e)) && Within(Next(q, e)) && Next(q, e).max == q.max
  {
    if q.items != [] {
      assert q.got + [q.items[0]] + q.items[1..] == q.got + q.items;
    }
    match e
    case Put(v) => assert q.got + (q.items + [v]) == q.put + [v];
    case TryPut(v) => assert q.got + (q.items + [v]) == q.put + [v];
    case ResumePut(t) =>
      if t in q.carried { assert q.got + (q.items + [q.carried[t]]) == q.put + [q.carried[t]]; }
    case StirPut(t) =>
      if t in q.carried { assert q.got + (q.items + [q.carried[t]]) == q.put + [q.carried[t]]; }
    case _ =>
  }

  /** In every run the values got, followed by the values stored, are the values put, in
      order, and the queue never holds more than its capacity. */
  lemma FirstInFirstOut<T(!new)>(max: nat, es: seq<Event<T>>)
    ensures var q := Run(Next, Init(max), es);
            && q.got + q.items == q.put
            && (max != 0 ==> |q.items| <= max)
  {
    forall q: Queue<T>, e: Event<T> | InOrder(q) && Within(q) && q.max == max
      ensures InOrder(Next(q, e)) && Within(Next(q, e)) && Next(q, e).max == max
    {
      NextInOrder(q, e);
    }
    Always(Next, (q: Queue<T>) => InOrder(q) && Within(q) && q.max == max, Init(max), es);
  }

  // ---------------------------------------------------------------------------
  // Nobody sleeps while there is something to do
  // ---------------------------------------------------------------------------

  /** Every stored item has a woken getter while a getter sleeps. */
  ghost predicate GettersServed<T>(q: Queue<T>) {
    Served(q.getters, |q.items|)
  }

  /** Every free place has a woken putter while a putter sleeps; without a capacity no
      putter sleeps. */
  ghost predicate PuttersServed<T>(q: Queue<T>) {
    if q.max == 0 then q.putters.asleep == {} else Served(q.putters, q.max - |q.items|)
  }

  ghost predicate Awake<T>(q: Queue<T>) {
    && Queued(q.getters) && Queued(q.putters)
    && GettersServed(q) && PuttersServed(q)
  }

  predicate NoWokenLost<T>(e: Event<T>) {
    !e.AbandonWoken? && !e.AbandonWokenPut?
  }

  /** The putter on which a pass of the put loop acts may have been the only one woken. */
  lemma PutOnceAwake<T>(q: Queue<T>, v: T)
    requires Queued(q.getters) && Queued(q.putters) && GettersServed(q)
    requires if q.max == 0 then q.putters.asleep == {} else Served(q.putters, q.max - |q.items| - 1)
    requires Within(q)
    ensures Awake(PutOnce(q, v))
  {
    CancelOneServes(q.getters, |q.items|);
    SleepQueued(q.putters);
  }

  lemma TakeAwake<T>(q: Queue<T>)
    requires q.items != [] && Queued(q.getters) && Queued(q.putters) && PuttersServed(q)
    requires Served(q.getters, |q.items| - 1)
    ensures Awake(Take(q))
  {
    CancelOneServes(q.putters, q.max - |q.items|);
    CancelOneWakes(q.putters);
  }

  lemma GetOnceAwake<T>(q: Queue<T>)
    requires Queued(q.getters) && Queued(q.putters) && PuttersServed(q)
    requires Served(q.getters, |q.items| - 1)
    ensures Awake(GetOnce(q))
  {
    if q.items != [] {
      TakeAwake(q);
    } else {
      SleepQueued(q.getters);
    }
  }

  lemma NextAwake<T>(q: Queue<T>, e: Event<T>)
    requires Awake(q) && Within(q) && NoWokenLost(e)
    ensures Awake(Next(q, e))
  {
    match e
    case Put(v) => PutOnceAwake(q.(called := q.called + [v]), v);
    case TryPut(v) => if HasRoom(q) { PutOnceAwake(q.(called := q.called + [v]), v); }
    case Get => GetOnceAwake(q);
    case TryGet => if q.items != [] { TakeAwake(q); }
    case ResumePut(t) =>
      if t in q.putters.woken && t in q.carried {
        PutOnceAwake(q.(putters := Unwake(q.putters, t), carried := q.carried - {t}), q.carried[t]);
      }
    case ResumeGet(t) => if t in q.getters.woken { GetOnceAwake(q.(getters := Unwake(q.getters, t))); }
    case StirPut(t) =>
      if t in q.putters.asleep && t in q.carried {
        PutOnceAwake(q.(putters := Vanish(q.putters, t), carried := q.carried - {t}), q.carried[t]);
      }
    case StirGet(t) => GetOnceAwake(q.(getters := Vanish(q.getters, t)));
    case AbandonPut(t) =>
    case AbandonGet(t) =>
  }

  lemma AwakeAlways<T(!new)>(max: nat, es: seq<Event<T>>)
    requires forall i :: 0 <= i < |es| ==> NoWokenLost(es[i])
    ensures Awake(Run(Next, Init(max), es))
  {
    forall q: Queue<T>, e: Event<T> | Awake(q) && InOrder(q) && Within(q) && NoWokenLost(e)
      ensures Awake(Next(q, e)) && InOrder(Next(q, e)) && Within(Next(q, e))
    {
      NextAwake(q, e);
      NextInOrder(q, e);
    }
    AlwaysUnder(Next, (q: Queue<T>) => Awake(q) && InOrder(q) && Within(q), NoWokenLost, Init(max), es);
  }

  ghost predicate RunUnder<T>(abandonsWoken: bool, es: seq<Event<T>>) {
    forall i :: 0 <= i < |es| ==> abandonsWoken || NoWokenLost(es[i])
  }

  /** Sleeping getters imply as many woken getters as items, and sleeping putters as many
      woken putters as free places, exactly when no woken coroutine can be
      destroyed. */
  lemma NobodyStrandedExactly(abandonsWoken: bool)
    ensures (forall max: nat, es: seq<Event<int>> ::
               RunUnder(abandonsWoken, es) ==>
                 GettersServed(Run(Next, Init(max), es)) && PuttersServed(Run(Next, Init(max), es)))
            <==> !abandonsWoken
  {
    if !abandonsWoken {
      forall max: nat, es: seq<Event<int>> | RunUnder(abandonsWoken, es)
        ensures GettersServed(Run(Next, Init(max), es)) && PuttersServed(Run(Next, Init(max), es))
      {
        AwakeAlways(max, es);
      }
    } else {
      StrandedGetter();
      var es: seq<Event<int>> := [Get, Get, Put(7), AbandonWoken(0)];
      assert RunUnder(abandonsWoken, es);
    }
  }

  /** Two getters sleep, the woken one is destroyed: the other sleeps beside an item. */
  lemma StrandedGetter()
    ensures !GettersServed(Run(Next, Init(0), [Get, Get, Put(7), AbandonWoken(0)]))
  {
    var both := Line([0, 1], 2, {0, 1}, {});
    var one := Line([1], 2, {1}, {0});
    var es: seq<Event<int>> := [Get, Get, Put(7), AbandonWoken(0)];
    assert es[1..] == [Get, Put(7), AbandonWoken(0)];
    assert es[1..][1..] == [Put(7), AbandonWoken(0)];
    assert es[1..][1..][1..] == [AbandonWoken(0)];
    assert Sleep(Sleep(EMPTY)) == both && CancelOne(both) == one;
    var q := Next(Next(Next(Init(0), Get), Get), Put(7));
    assert q.getters == one && q.items == [7];
    var end := Next(q, AbandonWoken(0));
    assert Run(Next, end, []) == end;
    assert Run(Next, q, [AbandonWoken(0)]) == end;
    assert end.getters == Line([1], 2, {1}, {}) && 1 in end.getters.asleep;
  }

  // ---------------------------------------------------------------------------
  // Values of waiting putters
  // ---------------------------------------------------------------------------

  /** The putters that wait are those that still carry their value. */
  ghost predicate Carrying<T>(q: Queue<T>) {
    && q.carried.Keys == q.putters.asleep + q.putters.woken
    && (forall t :: t in q.carried ==> t < q.putters.next)
    && q.putters.asleep !! q.putters.woken
  }

  lemma PutOnceQueues<T>(q: Queue<T>, v: T)
    requires Queued(q.putters)
    ensures Queued(PutOnce(q, v).putters)
  {
    SleepQueued(q.putters);
  }

  lemma GetOnceQueues<T>(q: Queue<T>)
    requires Queued(q.putters)
    ensures Queued(GetOnce(q).putters)
  {
    CancelOneWakes(q.putters);
  }

  lemma NextQueuesPutters<T>(q: Queue<T>, e: Event<T>)
    requires Queued(q.putters)
    ensures Queued(Next(q, e).putters)
  {
    match e
    case Put(v) => PutOnceQueues(q.(called := q.called + [v]), v);
    case Get => GetOnceQueues(q);
    case TryGet => GetOnceQueues(q);
    case ResumePut(t) =>
      if t in q.carried {
        PutOnceQueues(q.(putters := Unwake(q.putters, t), carried := q.carried - {t}), q.carried[t]);
      }
    case StirPut(t) =>
      if t in q.carried {
        PutOnceQueues(q.(putters := Vanish(q.putters, t), carried := q.carried - {t}), q.carried[t]);
      }
    case ResumeGet(t) => GetOnceQueues(q.(getters := Unwake(q.getters, t)));
    case StirGet(t) => GetOnceQueues(q.(getters := Vanish(q.getters, t)));
    case _ =>
  }

  lemma CancelOneKeeps(l: Line)
    requires Queued(l) && l.asleep !! l.woken
    ensures CancelOne(l).asleep + CancelOne(l).woken == l.asleep + l.woken
    ensures CancelOne(l).asleep !! CancelOne(l).woken && CancelOne(l).next == l.next
  {
    CancelOneWakes(l);
  }

  lemma PutOnceCarrying<T>(q: Queue<T>, v: T)
    requires Carrying(q) && Queued(q.putters)
    ensures Carrying(PutOnce(q, v))
  {
    if !HasRoom(q) {
      assert q.putters.next !in q.carried;
    }
  }

  lemma GetOnceCarrying<T>(q: Queue<T>)
    requires Carrying(q) && Queued(q.putters)
    ensures Carrying(GetOnce(q))
  {
    CancelOneKeeps(q.putters);
  }

  lemma NextCarrying<T>(q: Queue<T>, e: Event<T>)
    requires Carrying(q) && Queued(q.putters)
    ensures Carrying(Next(q, e))
  {
    match e
    case Put(v) => PutOnceCarrying(q.(called := q.called + [v]), v);
    case Get => GetOnceCarrying(q);
    case TryGet => GetOnceCarrying(q);
    case ResumePut(t) =>
      if t in q.putters.woken {
        PutOnceCarrying(q.(putters := Unwake(q.putters, t), carried := q.carried - {t}), q.carried[t]);
      }
    case ResumeGet(t) => GetOnceCarrying(q.(getters := Unwake(q.getters, t)));
    case StirPut(t) =>
      if t in q.putters.asleep {
        PutOnceCarrying(q.(putters := Vanish(q.putters, t), carried := q.carried - {t}), q.carried[t]);
      }
    case StirGet(t) => GetOnceCarrying(q.(getters := Vanish(q.getters, t)));
    case _ =>
  }

  /** In every run the putters that wait are those that carry a value. */
  lemma WaitingPuttersCarry<T(!new)>(max: nat, es: seq<Event<T>>)
    ensures var q := Run(Next, Init(max), es);
            q.carried.Keys == q.putters.asleep + q.putters.woken
  {
    forall q: Queue<T>, e: Event<T> | Carrying(q) && Queued(q.putters)
      ensures Carrying(Next(q, e)) && Queued(Next(q, e).putters)
    {
      NextCarrying(q, e);
      NextQueuesPutters(q, e);
    }
    Always(Next, (q: Queue<T>) => Carrying(q) && Queued(q.putters), Init(max), es);
  }

  /** The values carried under the timers below n. */
  ghost function ValuesBelow<T>(m: map<Timer, T>, n: nat): multiset<T> {
    if n == 0 then multiset{}
    else ValuesBelow(m, n - 1) + if n - 1 in m then multiset{m[n - 1]} else multiset{}
  }

  lemma {:induction false} SameBelow<T>(m: map<Timer, T>, m': map<Timer, T>, n: nat)
    requires forall t :: t < n ==> (t in m <==> t in m') && (t in m ==> m'[t] == m[t])
    ensures ValuesBelow(m', n) == ValuesBelow(m, n)
  {
    if n > 0 {
      SameBelow(m, m', n - 1);
    }
  }

  lemma OneMoreCarried<T>(m: map<Timer, T>, n: nat, v: T)
    ensures ValuesBelow(m[n := v], n + 1) == ValuesBelow(m, n) + multiset{v}
  {
    SameBelow(m, m[n := v], n);
  }

  lemma {:induction false} LessBelow<T>(m: map<Timer, T>, m': map<Timer, T>, n: nat, t: Timer)
    requires t in m && t < n && t !in m'
    requires forall k :: k != t ==> (k in m <==> k in m') && (k in m ==> m'[k] == m[k])
    ensures ValuesBelow(m, n) == ValuesBelow(m', n) + multiset{m[t]}
  {
    if n == t + 1 {
      SameBelow(m, m', t);
      assert ValuesBelow(m', n) == ValuesBelow(m', t);
    } else {
      LessBelow(m, m', n - 1, t);
      AddBoth(ValuesBelow(m, n - 1), ValuesBelow(m', n - 1), multiset{m[t]},
              if n - 1 in m then multiset{m[n - 1]} else multiset{});
    }
  }

  lemma AddBoth<T>(a: multiset<T>, b: multiset<T>, c: multiset<T>, x: multiset<T>)
    requires a == b + c
    ensures a + x == b + x + c
  {
  }

  lemma OneLessCarried<T>(m: map<Timer, T>, n: nat, t: Timer)
    requires t in m && t < n
    ensures ValuesBelow(m, n) == ValuesBelow(m - {t}, n) + multiset{m[t]}
  {
    LessBelow(m, m - {t}, n, t);
  }

  ghost function Carried<T>(q: Queue<T>): multiset<T> {
    ValuesBelow(q.carried, q.putters.next)
  }

  /** Nothing is lost, doubled or changed: each value of a call was stored, or is carried
      by a waiting putter, or was abandoned with one. */
  ghost predicate Balanced<T>(q: Queue<T>) {
    multiset(q.called) == multiset(q.put) + Carried(q) + multiset(q.abandoned)
  }

  /** The same with v in the hands of a running putter. */
  ghost predicate BalancedWith<T>(q: Queue<T>, v: T) {
    multiset(q.called) == multiset(q.put) + Carried(q) + multiset(q.abandoned) + multiset{v}
  }

  lemma PutOnceBalances<T>(q: Queue<T>, v: T)
    requires BalancedWith(q, v)
    ensures Balanced(PutOnce(q, v))
  {
    if !HasRoom(q) {
      OneMoreCarried(q.carried, q.putters.next, v);
    }
  }

  /** A waiting putter takes its value up again. */
  lemma TakenUp<T>(q: Queue<T>, t: Timer, q': Queue<T>)
    requires Balanced(q) && t in q.carried && t < q.putters.next
    requires q' == q.(putters := q'.putters, carried := q.carried - {t}) && q'.putters.next == q.putters.next
    ensures BalancedWith(q', q.carried[t])
  {
    OneLessCarried(q.carried, q.putters.next, t);
  }

  lemma AbandonBalances<T>(q: Queue<T>, t: Timer, l: Line)
    requires Balanced(q) && t in q.carried && t < q.putters.next && l.next == q.putters.next
    ensures Balanced(Abandoned(q, t).(putters := l))
  {
    OneLessCarried(q.carried, q.putters.next, t);
  }

  lemma GetOnceBalances<T>(q: Queue<T>)
    requires Balanced(q)
    ensures Balanced(GetOnce(q))
  {
  }

  lemma ReturningBalances<T>(q: Queue<T>, t: Timer, l: Line)
    requires Balanced(q) && t in q.carried && t < q.putters.next && l.next == q.putters.next
    ensures Balanced(PutOnce(q.(putters := l, carried := q.carried - {t}), q.carried[t]))
  {
    var q' := q.(putters := l, carried := q.carried - {t});
    TakenUp(q, t, q');
    PutOnceBalances(q', q.carried[t]);
  }

  lemma NextBalances<T>(q: Queue<T>, e: Event<T>)
    requires Balanced(q) && Carrying(q)
    ensures Balanced(Next(q, e))
  {
    match e
    case Put(v) => PutOnceBalances(q.(called := q.called + [v]), v);
    case TryPut(v) => PutOnceBalances(q.(called := q.called + [v]), v);
    case Get => GetOnceBalances(q);
    case TryGet => GetOnceBalances(q);
    case ResumePut(t) => if t in q.putters.woken { ReturningBalances(q, t, Unwake(q.putters, t)); }
    case StirPut(t) => if t in q.putters.asleep { ReturningBalances(q, t, Vanish(q.putters, t)); }
    case ResumeGet(t) => GetOnceBalances(q.(getters := Unwake(q.getters, t)));
    case StirGet(t) => GetOnceBalances(q.(getters := Vanish(q.getters, t)));
    case AbandonPut(t) => if t in q.putters.asleep { AbandonBalances(q, t, Vanish(q.putters, t)); }
    case AbandonWokenPut(t) => if t in q.putters.woken { AbandonBalances(q, t, Unwake(q.putters, t)); }
    case _ =>
  }

  /** In every run the values of all calls are the values got, the values stored, the
      values that waiting putters carry, and the values abandoned with a putter. */
  lemma ValuesConserved<T(!new)>(max: nat, es: seq<Event<T>>)
    ensures var q := Run(Next, Init(max), es);
            && (forall t :: t in q.carried ==> t < q.putters.next)
            && multiset(q.called) == multiset(q.got) + multiset(q.items)
                                     + ValuesBelow(q.carried, q.putters.next) + multiset(q.abandoned)
  {
    forall q: Queue<T>, e: Event<T> | Carrying(q) && Queued(q.putters) && Balanced(q)
      ensures Carrying(Next(q, e)) && Queued(Next(q, e).putters) && Balanced(Next(q, e))
    {
      NextCarrying(q, e);
      NextQueuesPutters(q, e);
      NextBalances(q, e);
    }
    Always(Next, (q: Queue<T>) => Carrying(q) && Queued(q.putters) && Balanced(q), Init(max), es);
    FirstInFirstOut(max, es);
    var q := Run(Next, Init(max), es);
    assert multiset(q.got + q.items) == multiset(q.got) + multiset(q.items);
  }

  // ---------------------------------------------------------------------------
  // What each event does, in any state
  // ---------------------------------------------------------------------------

  function Joined(l: Line): Line {
    Line(l.refs + [l.next], l.next + 1, l.asleep + {l.next}, l.woken)
  }

  /** The value goes to the end of the queue if there is room, and else its putter to the end
      of the line, with the value. */
  ghost predicate PutOrSleeps<T>(q: Queue<T>, v: T, q': Queue<T>) {
    if q.max == 0 || |q.items| < q.max then
      q' == q.(items := q.items + [v], put := q.put + [v], getters := CancelOne(q.getters))
    else q' == q.(putters := Joined(q.putters), carried := q.carried[q.putters.next := v])
  }

  /** The oldest item is taken if there is one, and else the getter goes to the end of the
      line. */
  ghost predicate GotOrSleeps<T>(q: Queue<T>, q': Queue<T>) {
    if q.items != [] then
      q' == q.(items := q.items[1..], got := q.got + [q.items[0]], putters := CancelOne(q.putters))
    else q' == q.(getters := Joined(q.getters))
  }

  lemma PutterMeans<T>(q: Queue<T>, t: Timer, v: T)
    ensures PutOrSleeps(q.(called := q.called + [v]), v, Next(q, Put(v)))
    ensures if q.max == 0 || |q.items| < q.max then PutOrSleeps(q.(called := q.called + [v]), v, Next(q, TryPut(v)))
            else Next(q, TryPut(v)) == q
    ensures t in q.putters.woken && t in q.carried ==>
              PutOrSleeps(q.(putters := q.putters.(woken := q.putters.woken - {t}), carried := q.carried - {t}),
                          q.carried[t], Next(q, ResumePut(t)))
    ensures t in q.putters.asleep && t in q.carried ==>
              PutOrSleeps(q.(putters := q.putters.(asleep := q.putters.asleep - {t}), carried := q.carried - {t}),
                          q.carried[t], Next(q, StirPut(t)))
  {
  }

  lemma GetterMeans<T>(q: Queue<T>, t: Timer)
    ensures GotOrSleeps(q, Next(q, Get))
    ensures if q.items != [] then GotOrSleeps(q, Next(q, TryGet)) else Next(q, TryGet) == q
    ensures if t in q.getters.woken
            then GotOrSleeps(q.(getters := q.getters.(woken := q.getters.woken - {t})), Next(q, ResumeGet(t)))
            else Next(q, ResumeGet(t)) == q
    ensures if t in q.getters.asleep
            then GotOrSleeps(q.(getters := q.getters.(asleep := q.getters.asleep - {t})), Next(q, StirGet(t)))
            else Next(q, StirGet(t)) == q
  {
  }

  /** A coroutine that is destroyed leaves its line, and a putter's value goes with it. */
  lemma AbandonMeans<T>(q: Queue<T>, t: Timer)
    ensures Next(q, AbandonGet(t)) == q.(getters := q.getters.(asleep := q.getters.asleep - {t}))
    ensures Next(q, AbandonWoken(t)) == q.(getters := q.getters.(woken := q.getters.woken - {t}))
    ensures t in q.carried && t in q.putters.asleep ==>
              Next(q, AbandonPut(t)) == q.(putters := q.putters.(asleep := q.putters.asleep - {t}),
                                           carried := q.carried - {t}, abandoned := q.abandoned + [q.carried[t]])
    ensures t in q.carried && t in q.putters.woken ==>
              Next(q, AbandonWokenPut(t)) == q.(putters := q.putters.(woken := q.putters.woken - {t}),
                                                carried := q.carried - {t}, abandoned := q.abandoned + [q.carried[t]])
  {
  }

  // ---------------------------------------------------------------------------
  // The queue's fields
  // ---------------------------------------------------------------------------

  class QueueFields<T> {
    const max: nat
    var items: seq<T>
    var getters: Line
    var putters: Line
    var carried: map<Timer, T>
    ghost var stored: seq<T>
    ghost var taken: seq<T>
    ghost var called: seq<T>
    ghost var abandoned: seq<T>

    ghost function State(): Queue<T>
      reads this
    {
      Queue(max, items, getters, putters, carried, stored, taken, called, abandoned)
    }

    constructor (max: nat)
      ensures State() == Init(max)
    {
      this.max := max;
      items, getters, putters, carried := [], EMPTY, EMPTY, map[];
      stored, taken, called, abandoned := [], [], [], [];
    }

    method TryPut(v: T) returns (ok: bool)
      modifies this
      ensures ok == old(HasRoom(State()))
      ensures State() == Next(old(State()), Event.TryPut(v))
    {
      if max != 0 && |items| >= max {
        return false;
      }
      items, stored, called := items + [v], stored + [v], called + [v];
      getters := CancelOneWaiter(getters);
      return true;
    }

    /** One pass of put: the value is stored, or a timer joins the putters. */
    method PutPass(v: T) returns (ok: bool)
      modifies this
      ensures ok == old(HasRoom(State())) && State() == PutOnce(old(State()), v)
    {
      if max == 0 || |items| < max {
        items, stored := items + [v], stored + [v];
        getters := CancelOneWaiter(getters);
        return true;
      }
      carried := carried[putters.next := v];
      putters := putters.(refs := putters.refs + [putters.next], asleep := putters.asleep + {putters.next},
                          next := putters.next + 1);
      return false;
    }

    /** One pass of get: the oldest item, or a timer joins the getters. */
    method GetPass() returns (found: seq<T>)
      modifies this
      ensures State() == GetOnce(old(State()))
      ensures taken == old(taken) + found && |found| == (if old(items) == [] then 0 else 1)
    {
      if items != [] {
        found := [items[0]];
        items, taken := items[1..], taken + [items[0]];
        putters := CancelOneWaiter(putters);
      } else {
        found := [];
        getters := getters.(refs := getters.refs + [getters.next], asleep := getters.asleep + {getters.next},
                            next := getters.next + 1);
      }
    }

    method TryGet() returns (found: seq<T>)
      modifies this
      ensures State() == Next(old(State()), Event.TryGet)
      ensures taken == old(taken) + found && |found| == (if old(items) == [] then 0 else 1)
    {
      if items == [] {
        return [];
      }
      found := [items[0]];
      items, taken := items[1..], taken + [items[0]];
      putters := CancelOneWaiter(putters);
    }
  }
}
