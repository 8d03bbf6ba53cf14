/** asyncx::for_each_limited and asyncx::gather_limited: a caller sleeps on a wake-up timer
    while at most `limit` calls of a function of an index are in flight.  All code between
    two suspension points runs as one step; spawned coroutines start after the spawner has
    suspended. */
module FanOut {
  import opened Optional

  datatype Outcome<V> = Done(value: V) | Failed(error: nat)

  /** The coroutine that called for_each_limited or gather_limited.  Gone: destroyed. */
  datatype Caller<V> = Waiting | Woken | Returned(out: seq<V>) | Threw(error: nat) | Gone

  /** total, limit: number of indices and the clamped concurrency;
      next, completed, stop, wakeOnce, firstError, values: the shared group state;
      unstarted: workers spawned that have not run yet (for_each_limited);
      running:   indices claimed whose call has not finished;
      claims:    all indices claimed, in order;
      results:   index and value of every call that succeeded, in order of completion;
      failures:  index and error of every call that failed, in order. */
  datatype Group<V> = Group(
    total: nat,
    limit: nat,
    next: nat,
    completed: nat,
    stop: bool,
    wakeOnce: bool,
    firstError: Option<nat>,
    values: seq<Option<V>>,
    caller: Caller<V>,
    unstarted: nat,
    running: set<nat>,
    claims: seq<nat>,
    results: seq<(nat, V)>,
    failures: seq<(nat, nat)>)

  datatype Event<V> =
    | StartWorker                           // a spawned worker reaches its loop
    | Finish(index: nat, outcome: Outcome<V>)
    | Resume                                // the woken caller runs
    | Stir                                  // the sleeping caller runs unwoken
    | Abandon                               // the caller is destroyed

  // ---------------------------------------------------------------------------
  // Shared pieces
  // ---------------------------------------------------------------------------

  /** The number of calls allowed in flight. */
  function Clamp(total: nat, concurrency: nat): nat {
    var c := if concurrency == 0 then 1 else concurrency;
    if c > total then total else c
  }

  function Blank<V>(total: nat, limit: nat): Group<V> {
    Group(total, limit, 0, 0, false, false, None, seq(total, _ => None), Waiting, 0, {}, [], [], [])
  }

  /** An index is claimed unless the group stops or the indices are used up. */
  function Claim<V>(g: Group<V>): Group<V> {
    if g.stop then g
    else if g.next >= g.total then g.(next := g.next + 1)
    else g.(next := g.next + 1, running := g.running + {g.next}, claims := g.claims + [g.next])
  }

  /** Cancelling the timer only reaches a caller that sleeps on it. */
  function Wake<V>(g: Group<V>): Group<V> {
    if g.wakeOnce then g
    else g.(wakeOnce := true, caller := if g.caller.Waiting? then Woken else g.caller)
  }

  function CountCompletion<V>(g: Group<V>): Group<V> {
    var g' := g.(completed := g.completed + 1);
    if g'.completed == g.total then Wake(g') else g'
  }

  function RecordError<V>(g: Group<V>, index: nat, error: nat): Group<V> {
    var g' := g.(stop := true, failures := g.failures + [(index, error)]);
    if g.firstError.None? then Wake(g'.(firstError := Some(error))) else g'
  }

  function RecordValue<V>(g: Group<V>, index: nat, v: V): Group<V> {
    g.(results := g.results + [(index, v)],
       values := if index < |g.values| then g.values[index := Some(v)] else g.values)
  }

  function Leave<V>(g: Group<V>, index: nat): Group<V> {
    g.(running := g.running - {index})
  }

  predicate Exited<V>(c: Caller<V>) {
    c.Returned? || c.Threw? || c.Gone?
  }

  // ---------------------------------------------------------------------------
  // for_each_limited
  // ---------------------------------------------------------------------------

  function StartForEach<V>(total: nat, concurrency: nat): Group<V> {
    if total == 0 then Blank(0, 0).(caller := Returned([]))
    else
      var limit := Clamp(total, concurrency);
      Blank(total, limit).(unstarted := limit)
  }

  /** A worker's call finishes, and the worker goes round its loop. */
  function FinishForEach<V>(g: Group<V>, index: nat, o: Outcome<V>): Group<V> {
    match o
    case Done(v) => Claim(CountCompletion(RecordValue(Leave(g, index), index, v)))
    case Failed(error) => Claim(CountCompletion(RecordError(Leave(g, index), index, error)))
  }

  function ResumeForEach<V>(g: Group<V>): Group<V> {
    if g.firstError.Some? then g.(caller := Threw(g.firstError.value))
    else if g.completed < g.total then g.(wakeOnce := false, caller := Waiting)
    else g.(caller := Returned([]))
  }

  function NextForEach<V>(g: Group<V>, e: Event<V>): Group<V> {
    match e
    case StartWorker => if g.unstarted > 0 then Claim(g.(unstarted := g.unstarted - 1)) else g
    case Finish(i, o) => if i in g.running then FinishForEach(g, i, o) else g
    case Resume => if g.caller.Woken? then ResumeForEach(g) else g
    case Stir => if g.caller.Waiting? then ResumeForEach(g) else g
    case Abandon => if Exited(g.caller) then g else g.(caller := Gone)
  }

  // ---------------------------------------------------------------------------
  // gather_limited
  // ---------------------------------------------------------------------------

  function ClaimMany<V>(g: Group<V>, n: nat): Group<V>
    decreases n
  {
    if n == 0 then g else ClaimMany(Claim(g), n - 1)
  }

  function StartGather<V>(total: nat, concurrency: nat): Group<V> {
    if total == 0 then Blank(0, 0).(caller := Returned([]))
    else
      var limit := Clamp(total, concurrency);
      ClaimMany(Blank(total, limit), limit)
  }

  /** The launcher lives as long as the caller's frame. */
  function Launch<V>(g: Group<V>): Group<V> {
    if Exited(g.caller) then g else Claim(g)
  }

  function FinishGather<V>(g: Group<V>, index: nat, o: Outcome<V>): Group<V> {
    match o
    case Done(v) => CountCompletion(Launch(RecordValue(Leave(g, index), index, v)))
    case Failed(error) => CountCompletion(RecordError(Leave(g, index), index, error))
  }

  /** The values in index order; a missing one would be undefined behaviour in the
      source, and ends the list here. */
  function Collect<V>(values: seq<Option<V>>): seq<V> {
    if values == [] || values[0].None? then [] else [values[0].value] + Collect(values[1..])
  }

  function ResumeGather<V>(g: Group<V>): Group<V> {
    if g.firstError.Some? then g.(caller := Threw(g.firstError.value))
    else if g.completed >= g.total then g.(caller := Returned(Collect(g.values)))
    else if !g.stop then g.(wakeOnce := false, caller := Waiting)
    else g.(caller := Waiting)
  }

  function NextGather<V>(g: Group<V>, e: Event<V>): Group<V> {
    match e
    case StartWorker => g
    case Finish(i, o) => if i in g.running then FinishGather(g, i, o) else g
    case Resume => if g.caller.Woken? then ResumeGather(g) else g
    case Stir => if g.caller.Waiting? then ResumeGather(g) else g
    case Abandon => if Exited(g.caller) then g else g.(caller := Gone)
  }

  // ---------------------------------------------------------------------------
  // The group's fields
  // ---------------------------------------------------------------------------

  class GroupFields<V> {
    const total: nat
    var next: nat
    var completed: nat
    var stop: bool
    var wakeOnce: bool
    var firstError: Option<nat>
    var values: array<Option<V>>
    var caller: Caller<V>
    ghost var g: Group<V>

    /** The fields are those of the group value `g`. */
    ghost predicate Valid()
      reads this, values
    {
      && g.total == total == values.Length
      && g.next == next && g.completed == completed && g.stop == stop && g.wakeOnce == wakeOnce
      && g.firstError == firstError && g.values == values[..] && g.caller == caller
    }

    constructor (total: nat, limit: nat)
      ensures Valid() && g == Blank(total, limit)
    {
      this.total := total;
      next, completed, stop, wakeOnce, firstError, caller := 0, 0, false, false, None, Waiting;
      values := new Option<V>[total](_ => None);
      g := Blank(total, limit);
    }

    /** The test and increment at the head of a worker's loop and in launch_one. */
    method ClaimIndex() returns (claimed: Option<nat>)
      requires Valid()
      modifies this
      ensures Valid() && values == old(values) && g == Claim(old(g))
      ensures claimed == (if !old(stop) && old(next) < total then Some(old(next)) else None)
    {
      if stop {
        return None;
      }
      g := Claim(g);
      var index := next;
      next := next + 1;
      if index >= total {
        return None;
      }
      return Some(index);
    }

    method CancelWake()
      requires Valid()
      modifies this
      ensures Valid() && values == old(values) && g == Wake(old(g))
    {
      g := Wake(g);
      if !wakeOnce {
        wakeOnce := true;
        if caller.Waiting? {
          caller := Woken;
        }
      }
    }

    method Complete()
      requires Valid()
      modifies this
      ensures Valid() && values == old(values) && g == CountCompletion(old(g))
    {
      g := g.(completed := g.completed + 1);
      completed := completed + 1;
      if completed == total {
        CancelWake();
      }
    }

    method Fail(index: nat, error: nat)
      requires Valid()
      modifies this
      ensures Valid() && values == old(values) && g == RecordError(old(g), index, error)
    {
      var shouldWake := firstError.None?;
      if shouldWake {
        firstError := Some(error);
        g := g.(firstError := Some(error));
      }
      stop := true;
      g := g.(stop := true, failures := g.failures + [(index, error)]);
      if shouldWake {
        CancelWake();
      }
    }

    method Succeed(index: nat, v: V)
      requires Valid() && index < total
      modifies this, values
      ensures Valid() && values == old(values) && g == RecordValue(old(g), index, v)
    {
      g := RecordValue(g, index, v);
      values[index] := Some(v);
    }

    /** The launches before the caller first sleeps. */
    method LaunchAll(concurrency: nat)
      requires Valid()
      modifies this
      ensures Valid() && values == old(values) && g == ClaimMany(old(g), concurrency)
    {
      var i := 0;
      while i < concurrency
        invariant 0 <= i <= concurrency && Valid() && values == old(values)
        invariant ClaimMany(g, concurrency - i) == ClaimMany(old(g), concurrency)
      {
        var _ := ClaimIndex();
        i := i + 1;
      }
    }
  }

  /** The loop that moves the values out, in index order. */
  method Output<V>(values: seq<Option<V>>) returns (out: seq<V>)
    requires forall i :: 0 <= i < |values| ==> values[i].Some?
    ensures out == Collect(values)
    ensures |out| == |values| && forall i :: 0 <= i < |values| ==> values[i] == Some(out[i])
  {
    out := [];
    var i := 0;
    while i < |values|
      invariant 0 <= i <= |values| && |out| == i
      invariant forall k :: 0 <= k < i ==> values[k] == Some(out[k])
      invariant out + Collect(values[i..]) == Collect(values)
    {
      assert values[i..][1..] == values[i + 1..];
      out := out + [values[i].value];
      i := i + 1;
    }
  }
}
