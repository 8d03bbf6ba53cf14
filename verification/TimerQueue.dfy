/** The queue of weak references to timers on which asyncx coroutines sleep, shared by
    Semaphore and Queue.  Nothing is handed over to a woken coroutine: it competes with
    newcomers for what it waits for. */
module TimerQueues {

  type Timer = nat

  /** refs:   the queue; a reference may outlive its timer;
      next:   the next timer to be made;
      asleep: timers whose coroutine sleeps and has not been woken;
      woken:  timers that were cancelled and whose coroutine has not resumed. */
  datatype Line = Line(refs: seq<Timer>, next: Timer, asleep: set<Timer>, woken: set<Timer>)

  const EMPTY := Line([], 0, {}, {})

  /** Position of the first reference whose timer still exists. */
  function FirstAlive(q: seq<Timer>, asleep: set<Timer>): (k: nat)
    ensures k <= |q|
    ensures forall i :: 0 <= i < k ==> q[i] !in asleep
    ensures k < |q| ==> q[k] in asleep
  {
    if q == [] || q[0] in asleep then 0 else 1 + FirstAlive(q[1..], asleep)
  }

  /** The longest sleeping coroutine is woken, if there is one. */
  function CancelOne(l: Line): Line {
    var k := FirstAlive(l.refs, l.asleep);
    if k == |l.refs| then l.(refs := [])
    else l.(refs := l.refs[k + 1..], asleep := l.asleep - {l.refs[k]}, woken := l.woken + {l.refs[k]})
  }

  function CancelMany(l: Line, n: nat): Line
    decreases n
  {
    if n == 0 then l else CancelMany(CancelOne(l), n - 1)
  }

  /** A coroutine goes to sleep on a new timer. */
  function Sleep(l: Line): Line {
    l.(refs := l.refs + [l.next], asleep := l.asleep + {l.next}, next := l.next + 1)
  }

  /** A woken coroutine runs again, or is destroyed. */
  function Unwake(l: Line, t: Timer): Line {
    l.(woken := l.woken - {t})
  }

  /** A sleeping coroutine runs again unwoken, or is destroyed; its reference stays. */
  function Vanish(l: Line, t: Timer): Line {
    l.(asleep := l.asleep - {t})
  }

  /** Every sleeping coroutine is in the queue, once and in the order of arrival. */
  ghost predicate Queued(l: Line) {
    && (forall i, j :: 0 <= i < j < |l.refs| ==> l.refs[i] < l.refs[j])
    && (forall i :: 0 <= i < |l.refs| ==> l.refs[i] < l.next && l.refs[i] !in l.woken)
    && (forall t :: t in l.asleep ==> t in l.refs)
    && (forall t :: t in l.woken ==> t < l.next)
  }

  /** While a coroutine sleeps, each of `free` units has a woken coroutine to take it. */
  ghost predicate Served(l: Line, free: int) {
    l.asleep != {} ==> |l.woken| >= free
  }

  lemma LongestSleeper(l: Line)
    requires Queued(l) && l.asleep != {}
    ensures var k := FirstAlive(l.refs, l.asleep);
            k < |l.refs| && forall u :: u in l.asleep ==> l.refs[k] <= u
  {
    var k := FirstAlive(l.refs, l.asleep);
    forall u | u in l.asleep
      ensures k < |l.refs| && l.refs[k] <= u
    {
      var j :| 0 <= j < |l.refs| && l.refs[j] == u;
    }
  }

  lemma CancelOneQueued(l: Line)
    requires Queued(l)
    ensures Queued(CancelOne(l))
  {
    var k := FirstAlive(l.refs, l.asleep);
    if k < |l.refs| {
      forall t | t in l.asleep && t != l.refs[k]
        ensures t in l.refs[k + 1..]
      {
        var j :| 0 <= j < |l.refs| && l.refs[j] == t;
        assert l.refs[k + 1..][j - k - 1] == t;
      }
    }
  }

  /** Exactly one coroutine moves from asleep to woken, and it is the one that has slept
      longest; no coroutine moves when none sleeps. */
  lemma CancelOneWakes(l: Line)
    requires Queued(l)
    ensures Queued(CancelOne(l))
    ensures CancelOne(l).next == l.next
    ensures l.asleep == {} ==> CancelOne(l) == l.(refs := [])
    ensures l.asleep != {} ==>
              exists t :: t in l.asleep && (forall u :: u in l.asleep ==> t <= u)
                          && CancelOne(l).asleep == l.asleep - {t}
                          && CancelOne(l).woken == l.woken + {t} && t !in l.woken
  {
    CancelOneQueued(l);
    if l.asleep != {} {
      LongestSleeper(l);
    }
  }

  lemma CancelOneServes(l: Line, free: int)
    requires Queued(l) && Served(l, free)
    ensures Queued(CancelOne(l)) && Served(CancelOne(l), free + 1)
  {
    CancelOneWakes(l);
  }

  lemma {:induction false} CancelManyServes(l: Line, free: int, n: nat)
    requires Queued(l) && Served(l, free)
    ensures Queued(CancelMany(l, n)) && Served(CancelMany(l, n), free + n)
    decreases n
  {
    if n > 0 {
      CancelOneServes(l, free);
      CancelManyServes(CancelOne(l), free + 1, n - 1);
    }
  }

  lemma SleepQueued(l: Line)
    requires Queued(l)
    ensures Queued(Sleep(l)) && Sleep(l).woken == l.woken
  {
  }

  /** Pops references until one of them still has its timer, and cancels that one. */
  method CancelOneWaiter(l: Line) returns (r: Line)
    ensures r == CancelOne(l)
  {
    r := l;
    ghost var popped: nat := 0;
    while r.refs != []
      invariant popped <= FirstAlive(l.refs, l.asleep)
      invariant r == l.(refs := l.refs[popped..])
      decreases |r.refs|
    {
      var waiter := r.refs[0];
      r := r.(refs := r.refs[1..]);
      popped := popped + 1;
      if waiter in r.asleep {
        r := r.(asleep := r.asleep - {waiter}, woken := r.woken + {waiter});
        return;
      }
    }
  }
}
