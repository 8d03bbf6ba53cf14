/** asyncx::Semaphore: permits and a line of sleeping coroutines. */
module Semaphores {
  import opened Runs
  import opened TimerQueues

  /** acquired, released: permits taken and given back so far. */
  datatype Semaphore = Semaphore(permits: nat, line: Line, acquired: nat, released: nat)

  datatype Event =
    | Acquire
    | TryAcquire
    | Release(n: nat)
    | Resume(timer: Timer)        // a woken coroutine tries again
    | Stir(timer: Timer)          // a sleeping coroutine resumes unwoken and tries again
    | Abandon(timer: Timer)       // a sleeping coroutine is destroyed
    | AbandonWoken(timer: Timer)  // a woken coroutine is destroyed before it resumes

  function Init(permits: nat): Semaphore {
    Semaphore(permits, EMPTY, 0, 0)
  }

  // ---------------------------------------------------------------------------
  // Atomic sections
  // ---------------------------------------------------------------------------

  function ReleaseMany(s: Semaphore, n: nat): Semaphore {
    Semaphore(s.permits + n, CancelMany(s.line, n), s.acquired, s.released + n)
  }

  /** One pass of the acquire loop. */
  function Attempt(s: Semaphore): Semaphore {
    if s.permits > 0 then s.(permits := s.permits - 1, acquired := s.acquired + 1)
    else s.(line := Sleep(s.line))
  }

  function TryTake(s: Semaphore): Semaphore {
    if s.permits > 0 then s.(permits := s.permits - 1, acquired := s.acquired + 1) else s
  }

  function Next(s: Semaphore, e: Event): Semaphore {
    match e
    case Acquire => Attempt(s)
    case TryAcquire => TryTake(s)
    case Release(n) => ReleaseMany(s, n)
    case Resume(t) => if t in s.line.woken then Attempt(s.(line := Unwake(s.line, t))) else s
    case Stir(t) => if t in s.line.asleep then Attempt(s.(line := Vanish(s.line, t))) else s
    case Abandon(t) => s.(line := Vanish(s.line, t))
    case AbandonWoken(t) => s.(line := Unwake(s.line, t))
  }

  // ---------------------------------------------------------------------------
  // Laws
  // ---------------------------------------------------------------------------

  /** While a coroutine sleeps, every free permit has a woken coroutine to take it. */
  ghost predicate Covered(s: Semaphore) {
    Served(s.line, s.permits)
  }

  ghost predicate Fair(s: Semaphore) {
    Queued(s.line) && Covered(s)
  }

  predicate NoWokenLost(e: Event) {
    !e.AbandonWoken?
  }

  /** A pass of the acquire loop uses up one permit or finds none. */
  lemma AttemptFair(s: Semaphore)
    requires Queued(s.line) && Served(s.line, s.permits - 1)
    ensures Fair(Attempt(s))
  {
    SleepQueued(s.line);
  }

  lemma NextFair(s: Semaphore, e: Event)
    requires Fair(s) && NoWokenLost(e)
    ensures Fair(Next(s, e))
  {
    match e
    case Acquire => AttemptFair(s);
    case TryAcquire =>
    case Release(n) => CancelManyServes(s.line, s.permits, n);
    case Resume(t) => if t in s.line.woken { AttemptFair(s.(line := Unwake(s.line, t))); }
    case Stir(t) => AttemptFair(s.(line := Vanish(s.line, t)));
    case Abandon(t) =>
  }

  lemma FairAlways(initial: nat, es: seq<Event>)
    requires forall i :: 0 <= i < |es| ==> NoWokenLost(es[i])
    ensures Fair(Run(Next, Init(initial), es))
  {
    forall s, e | Fair(s) && NoWokenLost(e)
      ensures Fair(Next(s, e))
    {
      NextFair(s, e);
    }
    AlwaysUnder(Next, Fair, NoWokenLost, Init(initial), es);
  }

  /** In every run: free permits plus permits taken equal the initial ones plus those
      given back. */
  lemma PermitsConserved(initial: nat, es: seq<Event>)
    ensures var s := Run(Next, Init(initial), es); s.permits + s.acquired == initial + s.released
  {
    Always(Next, (s: Semaphore) => s.permits + s.acquired == initial + s.released, Init(initial), es);
  }

  ghost predicate RunUnder(abandonsWoken: bool, es: seq<Event>) {
    forall i :: 0 <= i < |es| ==> abandonsWoken || NoWokenLost(es[i])
  }

  /** Barging included, a sleeping coroutine implies at least as many woken ones as
      there are free permits, exactly when no woken coroutine can be destroyed. */
  lemma NoPermitWastedExactly(abandonsWoken: bool)
    ensures (forall initial: nat, es: seq<Event> ::
               RunUnder(abandonsWoken, es) ==> Covered(Run(Next, Init(initial), es)))
            <==> !abandonsWoken
  {
    if !abandonsWoken {
      forall initial: nat, es: seq<Event> | RunUnder(abandonsWoken, es)
        ensures Covered(Run(Next, Init(initial), es))
      {
        FairAlways(initial, es);
      }
    } else {
      var es := LostPermit();
      assert RunUnder(abandonsWoken, es);
    }
  }

  lemma TwoSleep(both: Line)
    requires Sleep(Sleep(EMPTY)) == both
    ensures Next(Next(Init(0), Acquire), Acquire) == Semaphore(0, both, 0, 0)
  {
  }

  /** Two coroutines sleep, one is woken and destroyed: the permit stays unused. */
  lemma LostPermit() returns (es: seq<Event>)
    ensures !Covered(Run(Next, Init(0), es))
  {
    var both := Line([0, 1], 2, {0, 1}, {});
    var one := Line([1], 2, {1}, {0});
    assert Sleep(Sleep(EMPTY)) == both && CancelOne(both) == one && CancelMany(one, 0) == one;
    assert CancelMany(both, 1) == one;
    var s2, s3 := Semaphore(0, both, 0, 0), Semaphore(1, one, 0, 1);
    var s4 := Next(s3, AbandonWoken(0));
    TwoSleep(both);
    assert s3 == Next(s2, Release(1));
    assert s4.line == Line([1], 2, {1}, {}) && 1 in s4.line.asleep;
    OneStep(Next, s3, AbandonWoken(0), []);
    OneStep(Next, s2, Release(1), [AbandonWoken(0)] + []);
    OneStep(Next, Next(Init(0), Acquire), Acquire, [Release(1)] + ([AbandonWoken(0)] + []));
    OneStep(Next, Init(0), Acquire, [Acquire] + ([Release(1)] + ([AbandonWoken(0)] + [])));
    es := [Acquire] + ([Acquire] + ([Release(1)] + ([AbandonWoken(0)] + [])));
  }

  // ---------------------------------------------------------------------------
  // What each event does, in any state
  // ---------------------------------------------------------------------------

  /** One who asks takes a permit if there is one, and else goes to the end of the line. */
  ghost predicate TookOrSleeps(s: Semaphore, s': Semaphore) {
    if s.permits > 0 then s' == s.(permits := s.permits - 1, acquired := s.acquired + 1)
    else s' == s.(line := Line(s.line.refs + [s.line.next], s.line.next + 1,
                               s.line.asleep + {s.line.next}, s.line.woken))
  }

  lemma SemaphoreMeans(s: Semaphore, e: Event)
    ensures var s' := Next(s, e);
            var l := s.line;
            match e
            case Acquire => TookOrSleeps(s, s')
            case TryAcquire =>
              s' == if s.permits > 0 then s.(permits := s.permits - 1, acquired := s.acquired + 1) else s
            case Release(n) =>
              s'.permits == s.permits + n && s'.released == s.released + n && s'.acquired == s.acquired
            case Resume(t) =>
              if t in l.woken then TookOrSleeps(s.(line := l.(woken := l.woken - {t})), s') else s' == s
            case Stir(t) =>
              if t in l.asleep then TookOrSleeps(s.(line := l.(asleep := l.asleep - {t})), s') else s' == s
            case Abandon(t) => s' == s.(line := l.(asleep := l.asleep - {t}))
            case AbandonWoken(t) => s' == s.(line := l.(woken := l.woken - {t}))
  {
  }

  // ---------------------------------------------------------------------------
  // The semaphore's fields
  // ---------------------------------------------------------------------------

  class SemaphoreFields {
    var permits: nat
    var line: Line
    ghost var acquired: nat
    ghost var released: nat

    ghost function State(): Semaphore
      reads this
    {
      Semaphore(permits, line, acquired, released)
    }

    constructor (permits: nat)
      ensures State() == Init(permits)
    {
      this.permits, line := permits, EMPTY;
      acquired, released := 0, 0;
    }

    method ReleasePermits(n: nat)
      modifies this
      ensures State() == ReleaseMany(old(State()), n)
    {
      permits := permits + n;
      released := released + n;
      var i := 0;
      while i < n
        invariant 0 <= i <= n
        invariant CancelMany(line, n - i) == CancelMany(old(line), n)
        invariant permits == old(permits) + n && released == old(released) + n && acquired == old(acquired)
      {
        line := CancelOneWaiter(line);
        i := i + 1;
      }
    }

    method TryAcquirePermit() returns (ok: bool)
      modifies this
      ensures ok == (old(permits) > 0) && State() == TryTake(old(State()))
    {
      ok := permits > 0;
      if ok {
        permits := permits - 1;
        acquired := acquired + 1;
      }
    }

    /** One pass of acquire: a permit, or a timer at the end of the queue. */
    method AcquireOnce() returns (ok: bool)
      modifies this
      ensures ok == (old(permits) > 0) && State() == Attempt(old(State()))
    {
      ok := permits > 0;
      if ok {
        permits := permits - 1;
        acquired := acquired + 1;
      } else {
        line := line.(refs := line.refs + [line.next], asleep := line.asleep + {line.next}, next := line.next + 1);
      }
    }
  }
}
