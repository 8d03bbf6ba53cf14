/** asyncx::Lock, a semaphore with one permit, used through LockGuard and its moves. */
module LockGuards {
  import opened Runs
  import opened TimerQueues
  import opened Semaphores

  /** holding: guards whose lock pointer is set; guards are numbered as they are made. */
  datatype Locked = Locked(sem: Semaphore, holding: set<nat>, guards: nat)

  datatype LockEvent =
    | Enter                                 // acquire() by a new coroutine
    | Retry(timer: Timer)                   // a woken coroutine tries again
    | Leave(timer: Timer)                   // a sleeping coroutine is destroyed
    | LeaveWoken(timer: Timer)              // a woken coroutine is destroyed before it resumes
    | Move(source: nat)                     // move construction of a new guard
    | Assign(target: nat, source: nat)      // move assignment
    | Drop(guard: nat)                      // release() or destruction

  function Unlocked(): Locked {
    Locked(Init(1), {}, 0)
  }

  /** A pass of the acquire loop; a permit becomes a new guard. */
  function Pass(l: Locked, s: Semaphore): Locked {
    if s.permits > 0 then Locked(Attempt(s), l.holding + {l.guards}, l.guards + 1)
    else l.(sem := Attempt(s))
  }

  function ReleaseGuard(l: Locked, g: nat): Locked {
    if g in l.holding then l.(sem := ReleaseMany(l.sem, 1), holding := l.holding - {g}) else l
  }

  /** The pointer of `source`, set or not, goes to `target`. */
  function HandOver(l: Locked, source: nat, target: nat): Locked {
    if source in l.holding then l.(holding := l.holding - {source} + {target}) else l
  }

  function NextLock(l: Locked, e: LockEvent): Locked {
    match e
    case Enter => Pass(l, l.sem)
    case Retry(t) => if t in l.sem.line.woken then Pass(l, l.sem.(line := Unwake(l.sem.line, t))) else l
    case Leave(t) => l.(sem := l.sem.(line := Vanish(l.sem.line, t)))
    case LeaveWoken(t) => l.(sem := l.sem.(line := Unwake(l.sem.line, t)))
    case Move(g) => if g < l.guards then HandOver(l, g, l.guards).(guards := l.guards + 1) else l
    case Assign(target, source) =>
      if target == source || target >= l.guards || source >= l.guards then l
      else HandOver(ReleaseGuard(l, target), source, target)
    case Drop(g) => ReleaseGuard(l, g)
  }

  ghost predicate OnePermit(l: Locked) {
    && l.sem.permits + |l.holding| == 1
    && Queued(l.sem.line)
    && (forall g :: g in l.holding ==> g < l.guards)
  }

  lemma ReleaseKeeps(l: Locked, g: nat)
    requires OnePermit(l)
    ensures OnePermit(ReleaseGuard(l, g)) && g !in ReleaseGuard(l, g).holding
    ensures Covered(l.sem) ==> Covered(ReleaseGuard(l, g).sem)
  {
    if g in l.holding {
      CancelManyServes(l.sem.line, 0, 1);
      if Covered(l.sem) {
        CancelManyServes(l.sem.line, l.sem.permits, 1);
      }
    }
  }

  lemma HandOverKeeps(l: Locked, source: nat, target: nat, guards: nat)
    requires OnePermit(l) && target !in l.holding && l.guards <= guards && target < guards
    ensures OnePermit(HandOver(l, source, target).(guards := guards)) && HandOver(l, source, target).sem == l.sem
  {
    if source in l.holding {
      assert |l.holding - {source} + {target}| == |l.holding|;
    }
  }

  /** A pass takes the permit or finds none, so it leaves no permit uncovered. */
  lemma PassKeeps(l: Locked, s: Semaphore)
    requires OnePermit(l) && s.permits == l.sem.permits && Queued(s.line)
    ensures OnePermit(Pass(l, s)) && Covered(Pass(l, s).sem)
  {
    AttemptFair(s);
    assert l.guards !in l.holding;
  }

  lemma RetryKeeps(l: Locked, t: Timer)
    requires OnePermit(l)
    ensures var l' := Pass(l, l.sem.(line := Unwake(l.sem.line, t))); OnePermit(l') && Covered(l'.sem)
  {
    PassKeeps(l, l.sem.(line := Unwake(l.sem.line, t)));
  }

  lemma AssignKeeps(l: Locked, target: nat, source: nat)
    requires OnePermit(l) && target < l.guards
    ensures var l' := HandOver(ReleaseGuard(l, target), source, target);
            OnePermit(l') && (Covered(l.sem) ==> Covered(l'.sem))
  {
    ReleaseKeeps(l, target);
    HandOverKeeps(ReleaseGuard(l, target), source, target, l.guards);
  }

  predicate NoWokenLeaves(e: LockEvent) {
    !e.LeaveWoken?
  }

  lemma LeaveKeeps(l: Locked, t: Timer)
    requires OnePermit(l)
    ensures OnePermit(l.(sem := l.sem.(line := Vanish(l.sem.line, t))))
    ensures OnePermit(l.(sem := l.sem.(line := Unwake(l.sem.line, t))))
    ensures Covered(l.sem) ==> Covered(l.sem.(line := Vanish(l.sem.line, t)))
  {
  }

  lemma MoveKeeps(l: Locked, g: nat)
    requires OnePermit(l)
    ensures var l' := HandOver(l, g, l.guards).(guards := l.guards + 1); OnePermit(l') && l'.sem == l.sem
  {
    HandOverKeeps(l, g, l.guards, l.guards + 1);
  }

  /** A coroutine asks for the lock, or sleeps for it no longer. */
  predicate Asks(e: LockEvent) {
    e.Enter? || e.Retry? || e.Leave? || e.LeaveWoken?
  }

  lemma AsksKeeps(l: Locked, e: LockEvent)
    requires OnePermit(l) && Asks(e)
    ensures OnePermit(NextLock(l, e))
    ensures Covered(l.sem) && NoWokenLeaves(e) ==> Covered(NextLock(l, e).sem)
  {
    match e
    case Enter => PassKeeps(l, l.sem);
    case Retry(t) => if t in l.sem.line.woken { RetryKeeps(l, t); }
    case Leave(t) => LeaveKeeps(l, t);
    case LeaveWoken(t) => LeaveKeeps(l, t);
  }

  lemma NextKeeps(l: Locked, e: LockEvent)
    requires OnePermit(l)
    ensures OnePermit(NextLock(l, e))
    ensures Covered(l.sem) && NoWokenLeaves(e) ==> Covered(NextLock(l, e).sem)
  {
    match e
    case Move(g) => if g < l.guards { MoveKeeps(l, g); }
    case Assign(target, source) => if target < l.guards { AssignKeeps(l, target, source); }
    case Drop(g) => ReleaseKeeps(l, g);
    case _ => AsksKeeps(l, e);
  }

  /** In every run at most one guard holds the lock, and the permit is free exactly when
      none does. */
  lemma MutualExclusion(es: seq<LockEvent>)
    ensures var l := Run(NextLock, Unlocked(), es);
            |l.holding| <= 1 && (l.sem.permits == 1 <==> l.holding == {})
  {
    forall l, e | OnePermit(l)
      ensures OnePermit(NextLock(l, e))
    {
      NextKeeps(l, e);
    }
    Always(NextLock, OnePermit, Unlocked(), es);
  }

  /** A coroutine sleeps on a free lock only if a woken one will take it. */
  ghost predicate FreeLockIsTaken(l: Locked) {
    l.holding == {} && l.sem.line.asleep != {} ==> l.sem.line.woken != {}
  }

  ghost predicate LeavesOnlyIf(woken: bool, es: seq<LockEvent>) {
    forall i :: 0 <= i < |es| ==> woken || NoWokenLeaves(es[i])
  }

  lemma FreeLockTakenAlways(es: seq<LockEvent>)
    requires forall i :: 0 <= i < |es| ==> NoWokenLeaves(es[i])
    ensures FreeLockIsTaken(Run(NextLock, Unlocked(), es))
  {
    var inv := (l: Locked) => OnePermit(l) && Covered(l.sem);
    forall l: Locked, e: LockEvent | inv(l) && NoWokenLeaves(e)
      ensures inv(NextLock(l, e))
    {
      NextKeeps(l, e);
    }
    AlwaysUnder(NextLock, inv, NoWokenLeaves, Unlocked(), es);
  }

  /** One coroutine holds the lock and two sleep; the woken one is destroyed. */
  lemma FreeLockForgotten() returns (es: seq<LockEvent>)
    ensures !FreeLockIsTaken(Run(NextLock, Unlocked(), es))
  {
    var both := Line([0, 1], 2, {0, 1}, {});
    var one := Line([1], 2, {1}, {0});
    assert Sleep(Sleep(EMPTY)) == both && CancelOne(both) == one && CancelMany(one, 0) == one;
    var l1 := NextLock(Unlocked(), Enter);
    var l3 := NextLock(NextLock(l1, Enter), Enter);
    assert l1 == Locked(Semaphore(0, EMPTY, 1, 0), {0}, 1);
    assert l3 == Locked(Semaphore(0, both, 1, 0), {0}, 1);
    var l4 := NextLock(l3, Drop(0));
    assert l4 == Locked(Semaphore(1, one, 1, 1), {}, 1);
    var l5 := NextLock(l4, LeaveWoken(0));
    assert l5.sem.line == Line([1], 2, {1}, {}) && 1 in l5.sem.line.asleep;
    OneStep(NextLock, l4, LeaveWoken(0), []);
    OneStep(NextLock, l3, Drop(0), [LeaveWoken(0)] + []);
    OneStep(NextLock, NextLock(l1, Enter), Enter, [Drop(0)] + ([LeaveWoken(0)] + []));
    OneStep(NextLock, l1, Enter, [Enter] + ([Drop(0)] + ([LeaveWoken(0)] + [])));
    OneStep(NextLock, Unlocked(), Enter, [Enter] + ([Enter] + ([Drop(0)] + ([LeaveWoken(0)] + []))));
    es := [Enter] + ([Enter] + ([Enter] + ([Drop(0)] + ([LeaveWoken(0)] + []))));
  }

  /** In all runs a free lock with sleepers has a woken coroutine, if and only if no woken
      coroutine can be destroyed. */
  lemma FreeLockTakenExactly(wokenLeave: bool)
    ensures (forall es: seq<LockEvent> ::
               LeavesOnlyIf(wokenLeave, es) ==> FreeLockIsTaken(Run(NextLock, Unlocked(), es)))
            <==> !wokenLeave
  {
    if wokenLeave {
      var es := FreeLockForgotten();
      assert LeavesOnlyIf(wokenLeave, es);
    } else {
      forall es: seq<LockEvent> | LeavesOnlyIf(wokenLeave, es)
        ensures FreeLockIsTaken(Run(NextLock, Unlocked(), es))
      {
        FreeLockTakenAlways(es);
      }
    }
  }

  // ---------------------------------------------------------------------------
  // What each event does, in any state
  // ---------------------------------------------------------------------------

  /** One who asks gets a new guard if the permit is there, and else sleeps. */
  ghost predicate GotGuard(l: Locked, s: Semaphore, l': Locked) {
    && TookOrSleeps(s, l'.sem)
    && (if s.permits > 0 then l'.holding == l.holding + {l.guards} && l'.guards == l.guards + 1
        else l'.holding == l.holding && l'.guards == l.guards)
  }

  /** The guard lets go: the permit is back exactly if it held the lock. */
  ghost predicate LetGo(l: Locked, g: nat, l': Locked) {
    && l'.holding == l.holding - {g} && l'.guards == l.guards
    && l'.sem.permits == l.sem.permits + (if g in l.holding then 1 else 0)
    && (g !in l.holding ==> l'.sem == l.sem)
  }

  /** What a guard holds goes to another, which held nothing. */
  ghost function Moved(holding: set<nat>, source: nat, target: nat): set<nat> {
    if source in holding then holding - {source} + {target} else holding
  }

  lemma LockMeans(l: Locked, e: LockEvent)
    ensures var l' := NextLock(l, e);
            var line := l.sem.line;
            match e
            case Enter => GotGuard(l, l.sem, l')
            case Retry(t) =>
              if t in line.woken then GotGuard(l, l.sem.(line := line.(woken := line.woken - {t})), l') else l' == l
            case Leave(t) => l' == l.(sem := l.sem.(line := line.(asleep := line.asleep - {t})))
            case LeaveWoken(t) => l' == l.(sem := l.sem.(line := line.(woken := line.woken - {t})))
            case Move(g) =>
              l' == if g < l.guards then l.(holding := Moved(l.holding, g, l.guards), guards := l.guards + 1) else l
            case Assign(target, source) =>
              if target == source || target >= l.guards || source >= l.guards then l' == l
              else LetGo(l, target, l'.(holding := l.holding - {target}))
                   && l'.holding == Moved(l.holding - {target}, source, target)
            case Drop(g) => LetGo(l, g, l')
  {
  }
}
