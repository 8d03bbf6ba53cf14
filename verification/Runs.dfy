/** Runs of a state machine.  `next` gives the state after an event; an event that is
    not possible in a state leaves it as it is. */
module Runs {

  function Run<S, E>(next: (S, E) -> S, s: S, es: seq<E>): S
    decreases |es|
  {
    if es == [] then s else Run(next, next(s, es[0]), es[1..])
  }

  /** What holds at the start and survives every event holds after every run. */
  lemma {:induction false} Always<S(!new), E(!new)>(next: (S, E) -> S, inv: S -> bool, s: S, es: seq<E>)
    requires inv(s)
    requires forall t: S, e: E :: inv(t) ==> inv(next(t, e))
    ensures inv(Run(next, s, es))
    decreases |es|
  {
    if es != [] {
      Always(next, inv, next(s, es[0]), es[1..]);
    }
  }

  /** The same for runs of permitted events. */
  lemma {:induction false} AlwaysUnder<S(!new), E(!new)>(next: (S, E) -> S, inv: S -> bool, permitted: E -> bool,
                                                       s: S, es: seq<E>)
    requires inv(s)
    requires forall t: S, e: E :: inv(t) && permitted(e) ==> inv(next(t, e))
    requires forall i :: 0 <= i < |es| ==> permitted(es[i])
    ensures inv(Run(next, s, es))
    decreases |es|
  {
    if es != [] {
      assert permitted(es[0]);
      AlwaysUnder(next, inv, permitted, next(s, es[0]), es[1..]);
    }
  }

  /** Every event of the run is permitted in the state in which it happens. */
  ghost predicate Allowed<S(!new), E(!new)>(next: (S, E) -> S, permitted: (S, E) -> bool, s: S, es: seq<E>)
    decreases |es|
  {
    es != [] ==> permitted(s, es[0]) && Allowed(next, permitted, next(s, es[0]), es[1..])
  }

  lemma {:induction false} AlwaysAllowed<S(!new), E(!new)>(next: (S, E) -> S, inv: S -> bool,
                                                         permitted: (S, E) -> bool, s: S, es: seq<E>)
    requires inv(s) && Allowed(next, permitted, s, es)
    requires forall t: S, e: E :: inv(t) && permitted(t, e) ==> inv(next(t, e))
    ensures inv(Run(next, s, es))
    decreases |es|
  {
    if es != [] {
      AlwaysAllowed(next, inv, permitted, next(s, es[0]), es[1..]);
    }
  }

  /** A permitted run and one more permitted event. */
  lemma {:induction false} AllowedThen<S(!new), E(!new)>(next: (S, E) -> S, permitted: (S, E) -> bool,
                                                       s: S, es: seq<E>, e: E)
    requires Allowed(next, permitted, s, es) && permitted(Run(next, s, es), e)
    ensures Allowed(next, permitted, s, es + [e])
    ensures Run(next, s, es + [e]) == next(Run(next, s, es), e)
    decreases |es|
  {
    if es == [] {
      assert (es + [e])[1..] == [] && Run(next, next(s, e), []) == next(s, e);
    } else {
      assert (es + [e])[1..] == es[1..] + [e];
      AllowedThen(next, permitted, next(s, es[0]), es[1..], e);
    }
  }

  lemma OneStep<S, E>(next: (S, E) -> S, s: S, e: E, es: seq<E>)
    ensures Run(next, s, [e] + es) == Run(next, next(s, e), es)
  {
    assert ([e] + es)[1..] == es;
  }

  /** Some event of the given kind keeps the invariant and brings the rank down by one. */
  ghost predicate Descends<S, E(!new)>(next: (S, E) -> S, inv: S -> bool, rank: S -> nat, kind: E -> bool, s: S) {
    exists e :: kind(e) && inv(next(s, e)) && rank(next(s, e)) == rank(s) - 1
  }

  lemma {:induction false} Descend<S(!new), E(!new)>(next: (S, E) -> S, inv: S -> bool, rank: S -> nat,
                                                     kind: E -> bool, s: S)
    returns (es: seq<E>)
    requires inv(s)
    requires forall t: S :: inv(t) && rank(t) > 0 ==> Descends(next, inv, rank, kind, t)
    ensures |es| == rank(s) && forall i :: 0 <= i < |es| ==> kind(es[i])
    ensures inv(Run(next, s, es)) && rank(Run(next, s, es)) == 0
    decreases rank(s)
  {
    if rank(s) == 0 {
      es := [];
    } else {
      assert Descends(next, inv, rank, kind, s);
      var e :| kind(e) && inv(next(s, e)) && rank(next(s, e)) == rank(s) - 1;
      var rest := Descend(next, inv, rank, kind, next(s, e));
      es := [e] + rest;
      OneStep(next, s, e, rest);
    }
  }

  lemma {:induction false} RunSplit<S, E>(next: (S, E) -> S, s: S, es: seq<E>, fs: seq<E>)
    ensures Run(next, s, es + fs) == Run(next, Run(next, s, es), fs)
    decreases |es|
  {
    if es == [] {
      assert es + fs == fs;
    } else {
      assert (es + fs)[1..] == es[1..] + fs;
      RunSplit(next, next(s, es[0]), es[1..], fs);
    }
  }
}
