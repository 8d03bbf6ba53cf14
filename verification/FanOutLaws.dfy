/** What every run of for_each_limited and gather_limited keeps. */
module FanOutLaws {
  import opened Optional
  import opened Runs
  import opened Sequences
  import opened FanOut

  // ---------------------------------------------------------------------------
  // The invariant
  // ---------------------------------------------------------------------------

  /** How many indices have been claimed. */
  function Claimed<V>(g: Group<V>): nat {
    if g.next < g.total then g.next else g.total
  }

  ghost predicate HasResult<V>(results: seq<(nat, V)>, i: nat) {
    exists k :: 0 <= k < |results| && results[k].0 == i
  }

  /** Every claimed index is in flight, has its value, or has failed. */
  ghost predicate Accounted<V>(g: Group<V>, i: nat) {
    i in g.running || HasResult(g.results, i) || HasResult(g.failures, i)
  }

  /** `uncounted` calls have their outcome recorded and are not yet in `completed`. */
  ghost predicate Bookkeeping<V>(g: Group<V>, uncounted: nat) {
    && |g.claims| == Claimed(g)
    && |g.running| + |g.results| + |g.failures| == Claimed(g)
    && g.completed + uncounted == |g.results| + |g.failures|
    && (g.stop <==> g.failures != [])
    && g.firstError == (if g.failures == [] then None else Some(g.failures[0].1))
    && (g.total > 0 ==> g.limit > 0)
    && |g.values| == g.total
  }

  /** Indices are claimed in increasing order, so each at most once. */
  ghost predicate ClaimedInOrder<V>(g: Group<V>) {
    && (forall i :: 0 <= i < |g.claims| ==> g.claims[i] == i)
    && (forall i :: i in g.running ==> i < Claimed(g))
  }

  ghost predicate AllAccounted<V>(g: Group<V>) {
    forall i: nat :: i < Claimed(g) ==> Accounted(g, i)
  }

  /** Each result belongs to one index, which has left `running`, and is stored there. */
  ghost predicate Single<V>(g: Group<V>) {
    && |g.values| == g.total
    && (forall j, k :: 0 <= j < k < |g.results| ==> g.results[j].0 != g.results[k].0)
    && (forall k :: 0 <= k < |g.results| ==>
          && g.results[k].0 !in g.running && g.results[k].0 < Claimed(g)
          && g.values[g.results[k].0] == Some(g.results[k].1))
  }

  /** The sleeping caller has neither a failure nor completion to learn of, and the next
      one will wake it. */
  ghost predicate Attentive<V>(g: Group<V>) {
    && (g.caller.Waiting? ==> !g.wakeOnce && g.firstError.None? && g.completed < g.total)
    && (g.caller.Woken? ==> g.firstError.Some? || g.completed >= g.total)
  }

  /** Until the indices are used up or a call fails, all coroutines are busy, except
      `idle` ones that are between two calls. */
  ghost predicate Busy<V>(g: Group<V>, idle: nat) {
    && |g.running| + g.unstarted + idle <= g.limit
    && (!g.stop && g.next < g.total && !Exited(g.caller) ==> |g.running| + g.unstarted + idle == g.limit)
  }

  /** Where the caller has ended, why. */
  ghost predicate Justified<V>(g: Group<V>, gather: bool) {
    && (g.caller.Returned? ==> g.firstError.None? && g.completed >= g.total)
    && (g.caller.Returned? && gather ==> g.caller.out == Collect(g.values))
    && (g.caller.Threw? ==> g.firstError == Some(g.caller.error))
  }

  ghost predicate Inv<V>(g: Group<V>, gather: bool, uncounted: nat, idle: nat) {
    && Bookkeeping(g, uncounted) && ClaimedInOrder(g) && AllAccounted(g) && Single(g)
    && Attentive(g) && Busy(g, idle) && Justified(g, gather)
  }

  // ---------------------------------------------------------------------------
  // Each piece of a step keeps it
  // ---------------------------------------------------------------------------

  lemma Appended<V>(results: seq<(nat, V)>, r: (nat, V), i: nat)
    ensures HasResult(results, i) ==> HasResult(results + [r], i)
    ensures HasResult(results + [r], r.0)
  {
    var more := results + [r];
    assert more[|results|] == r;
    if HasResult(results, i) {
      var k :| 0 <= k < |results| && results[k].0 == i;
      assert more[k].0 == i;
    }
  }

  lemma ValueKeeps<V>(g: Group<V>, gather: bool, index: nat, v: V)
    requires Inv(g, gather, 0, 0) && index in g.running
    ensures Inv(RecordValue(Leave(g, index), index, v), gather, 1, 1)
  {
    var g' := RecordValue(Leave(g, index), index, v);
    forall i: nat | i < Claimed(g')
      ensures Accounted(g', i)
    {
      assert Accounted(g, i);
      Appended(g.results, (index, v), i);
    }
  }

  lemma ErrorKeeps<V>(g: Group<V>, gather: bool, index: nat, error: nat)
    requires Inv(g, gather, 0, 0) && index in g.running
    ensures Inv(RecordError(Leave(g, index), index, error), gather, 1, 1)
    ensures RecordError(Leave(g, index), index, error).stop
  {
    var g' := RecordError(Leave(g, index), index, error);
    assert g'.results == g.results && g'.failures == g.failures + [(index, error)];
    forall i: nat | i < Claimed(g')
      ensures Accounted(g', i)
    {
      assert Accounted(g, i);
      Appended(g.failures, (index, error), i);
    }
  }

  lemma CountKeeps<V>(g: Group<V>, gather: bool, idle: nat)
    requires Inv(g, gather, 1, idle)
    ensures Inv(CountCompletion(g), gather, 0, idle)
  {
    var g' := CountCompletion(g);
    forall i: nat | i < Claimed(g')
      ensures Accounted(g', i)
    {
      assert Accounted(g, i);
    }
  }

  lemma ClaimKeeps<V>(g: Group<V>, gather: bool, uncounted: nat, idle: nat)
    requires Inv(g, gather, uncounted, idle + 1)
    ensures Inv(Claim(g), gather, uncounted, idle)
  {
    var g' := Claim(g);
    forall i: nat | i < Claimed(g')
      ensures Accounted(g', i)
    {
      assert i < Claimed(g) ==> Accounted(g, i);
    }
    assert g.next !in g.running;
  }

  lemma {:induction false} ClaimManyKeeps<V>(g: Group<V>, gather: bool, n: nat)
    requires Inv(g, gather, 0, n)
    ensures Inv(ClaimMany(g, n), gather, 0, 0)
    decreases n
  {
    if n > 0 {
      ClaimKeeps(g, gather, 0, n - 1);
      ClaimManyKeeps(Claim(g), gather, n - 1);
    }
  }

  /** Only the caller and the wake-up flag change. */
  lemma CallerKeeps<V>(g: Group<V>, gather: bool, wakeOnce: bool, caller: Caller<V>)
    requires Inv(g, gather, 0, 0)
    requires Exited(g.caller) ==> Exited(caller)
    requires var g' := g.(wakeOnce := wakeOnce, caller := caller); Attentive(g') && Justified(g', gather)
    ensures Inv(g.(wakeOnce := wakeOnce, caller := caller), gather, 0, 0)
  {
    var g' := g.(wakeOnce := wakeOnce, caller := caller);
    forall i: nat | i < Claimed(g')
      ensures Accounted(g', i)
    {
      assert Accounted(g, i);
    }
  }

  lemma AbandonKeeps<V>(g: Group<V>, gather: bool)
    requires Inv(g, gather, 0, 0) && !Exited(g.caller)
    ensures Inv(g.(caller := Gone), gather, 0, 0)
  {
    CallerKeeps(g, gather, g.wakeOnce, Gone);
  }

  // ---------------------------------------------------------------------------
  // for_each_limited
  // ---------------------------------------------------------------------------

  lemma StartForEachKeeps<V>(total: nat, concurrency: nat)
    ensures Inv<V>(StartForEach(total, concurrency), false, 0, 0)
  {
  }

  lemma FinishForEachKeeps<V>(g: Group<V>, index: nat, o: Outcome<V>)
    requires Inv(g, false, 0, 0) && index in g.running
    ensures Inv(FinishForEach(g, index, o), false, 0, 0)
  {
    match o
    case Done(v) =>
      var r := RecordValue(Leave(g, index), index, v);
      ValueKeeps(g, false, index, v);
      CountKeeps(r, false, 1);
      ClaimKeeps(CountCompletion(r), false, 0, 0);
    case Failed(error) =>
      var r := RecordError(Leave(g, index), index, error);
      ErrorKeeps(g, false, index, error);
      CountKeeps(r, false, 1);
      ClaimKeeps(CountCompletion(r), false, 0, 0);
  }

  lemma WorkerReady<V>(g: Group<V>)
    requires Inv(g, false, 0, 0) && g.unstarted > 0
    ensures Inv(g.(unstarted := g.unstarted - 1), false, 0, 1)
  {
    var g' := g.(unstarted := g.unstarted - 1);
    forall i: nat | i < Claimed(g')
      ensures Accounted(g', i)
    {
      assert Accounted(g, i);
    }
  }

  lemma ResumeForEachKeeps<V>(g: Group<V>)
    requires Inv(g, false, 0, 0) && !Exited(g.caller)
    ensures Inv(ResumeForEach(g), false, 0, 0)
  {
    CallerKeeps(g, false, ResumeForEach(g).wakeOnce, ResumeForEach(g).caller);
  }

  lemma NextForEachKeeps<V>(g: Group<V>, e: Event<V>)
    requires Inv(g, false, 0, 0)
    ensures Inv(NextForEach(g, e), false, 0, 0)
  {
    match e
    case StartWorker =>
      if g.unstarted > 0 {
        WorkerReady(g);
        ClaimKeeps(g.(unstarted := g.unstarted - 1), false, 0, 0);
      }
    case Finish(i, o) =>
      if i in g.running {
        FinishForEachKeeps(g, i, o);
      }
    case Resume => if g.caller.Woken? { ResumeForEachKeeps(g); }
    case Stir => if g.caller.Waiting? { ResumeForEachKeeps(g); }
    case Abandon => if !Exited(g.caller) { AbandonKeeps(g, false); }
  }

  // ---------------------------------------------------------------------------
  // gather_limited
  // ---------------------------------------------------------------------------

  lemma StartGatherKeeps<V>(total: nat, concurrency: nat)
    ensures Inv<V>(StartGather(total, concurrency), true, 0, 0)
  {
    if total > 0 {
      ClaimManyKeeps<V>(Blank(total, Clamp(total, concurrency)), true, Clamp(total, concurrency));
    }
  }

  /** A coroutine that ends without a successor. */
  lemma IdleGone<V>(g: Group<V>, gather: bool, uncounted: nat)
    requires Inv(g, gather, uncounted, 1) && (g.stop || Exited(g.caller))
    ensures Inv(g, gather, uncounted, 0)
  {
  }

  lemma FinishGatherKeeps<V>(g: Group<V>, index: nat, o: Outcome<V>)
    requires Inv(g, true, 0, 0) && index in g.running
    ensures Inv(FinishGather(g, index, o), true, 0, 0)
  {
    match o
    case Done(v) =>
      var r := RecordValue(Leave(g, index), index, v);
      ValueKeeps(g, true, index, v);
      if Exited(r.caller) {
        IdleGone(r, true, 1);
      } else {
        ClaimKeeps(r, true, 1, 0);
      }
      CountKeeps(Launch(r), true, 0);
    case Failed(error) =>
      var r := RecordError(Leave(g, index), index, error);
      ErrorKeeps(g, true, index, error);
      IdleGone(r, true, 1);
      CountKeeps(r, true, 0);
  }

  lemma ResumeGatherKeeps<V>(g: Group<V>)
    requires Inv(g, true, 0, 0) && !Exited(g.caller)
    ensures Inv(ResumeGather(g), true, 0, 0)
  {
    CallerKeeps(g, true, ResumeGather(g).wakeOnce, ResumeGather(g).caller);
  }

  lemma NextGatherKeeps<V>(g: Group<V>, e: Event<V>)
    requires Inv(g, true, 0, 0)
    ensures Inv(NextGather(g, e), true, 0, 0)
  {
    match e
    case StartWorker =>
    case Finish(i, o) =>
      if i in g.running {
        FinishGatherKeeps(g, i, o);
      }
    case Resume => if g.caller.Woken? { ResumeGatherKeeps(g); }
    case Stir => if g.caller.Waiting? { ResumeGatherKeeps(g); }
    case Abandon => if !Exited(g.caller) { AbandonKeeps(g, true); }
  }

  // ---------------------------------------------------------------------------
  // Every run
  // ---------------------------------------------------------------------------

  ghost predicate Good<V>(g: Group<V>, gather: bool, total: nat, concurrency: nat) {
    Inv(g, gather, 0, 0) && g.total == total && g.limit == Clamp(total, concurrency)
  }

  lemma {:induction false} ClaimManySized<V>(g: Group<V>, n: nat)
    ensures ClaimMany(g, n).total == g.total && ClaimMany(g, n).limit == g.limit
    decreases n
  {
    if n > 0 {
      ClaimManySized(Claim(g), n - 1);
    }
  }

  ghost predicate SameSize<V>(g: Group<V>, h: Group<V>) {
    h.total == g.total && h.limit == g.limit
  }

  lemma PiecesSized<V>(g: Group<V>, index: nat, o: Outcome<V>)
    ensures SameSize(g, FinishForEach(g, index, o)) && SameSize(g, FinishGather(g, index, o))
  {
  }

  lemma NextForEachSized<V>(g: Group<V>, e: Event<V>)
    ensures SameSize(g, NextForEach(g, e))
  {
    if e.Finish? {
      PiecesSized(g, e.index, e.outcome);
    }
  }

  lemma NextGatherSized<V>(g: Group<V>, e: Event<V>)
    ensures SameSize(g, NextGather(g, e))
  {
    if e.Finish? {
      PiecesSized(g, e.index, e.outcome);
    }
  }

  lemma NextForEachGood<V>(g: Group<V>, e: Event<V>, total: nat, concurrency: nat)
    requires Good(g, false, total, concurrency)
    ensures Good(NextForEach(g, e), false, total, concurrency)
  {
    NextForEachKeeps(g, e);
    NextForEachSized(g, e);
  }

  lemma NextGatherGood<V>(g: Group<V>, e: Event<V>, total: nat, concurrency: nat)
    requires Good(g, true, total, concurrency)
    ensures Good(NextGather(g, e), true, total, concurrency)
  {
    NextGatherKeeps(g, e);
    NextGatherSized(g, e);
  }

  lemma StartGood<V>(total: nat, concurrency: nat)
    ensures Good<V>(StartForEach(total, concurrency), false, total, concurrency)
    ensures Good<V>(StartGather(total, concurrency), true, total, concurrency)
  {
    StartForEachKeeps<V>(total, concurrency);
    StartGatherKeeps<V>(total, concurrency);
    ClaimManySized<V>(Blank(total, Clamp(total, concurrency)), Clamp(total, concurrency));
  }

  lemma ForEachAlways<V(!new)>(total: nat, concurrency: nat, es: seq<Event<V>>)
    ensures Good(Run(NextForEach, StartForEach(total, concurrency), es), false, total, concurrency)
  {
    StartGood<V>(total, concurrency);
    forall g: Group<V>, e: Event<V> | Good(g, false, total, concurrency)
      ensures Good(NextForEach(g, e), false, total, concurrency)
    {
      NextForEachGood(g, e, total, concurrency);
    }
    Always(NextForEach, (g: Group<V>) => Good(g, false, total, concurrency), StartForEach(total, concurrency), es);
  }

  lemma GatherAlways<V(!new)>(total: nat, concurrency: nat, es: seq<Event<V>>)
    ensures Good(Run(NextGather, StartGather(total, concurrency), es), true, total, concurrency)
  {
    StartGood<V>(total, concurrency);
    forall g: Group<V>, e: Event<V> | Good(g, true, total, concurrency)
      ensures Good(NextGather(g, e), true, total, concurrency)
    {
      NextGatherGood(g, e, total, concurrency);
    }
    Always(NextGather, (g: Group<V>) => Good(g, true, total, concurrency), StartGather(total, concurrency), es);
  }

  // ---------------------------------------------------------------------------
  // What the invariant means
  // ---------------------------------------------------------------------------

  /** Each index has exactly one result. */
  ghost predicate EachOnce<V>(results: seq<(nat, V)>, total: nat) {
    && |results| == total
    && (forall i: nat :: i < total ==> HasResult(results, i))
    && (forall j, k :: 0 <= j < k < |results| ==> results[j].0 != results[k].0)
  }

  /** `out` lists the results by index. */
  ghost predicate ByIndex<V>(out: seq<V>, results: seq<(nat, V)>) {
    && |out| == |results|
    && (forall k :: 0 <= k < |results| ==> results[k].0 < |out| && out[results[k].0] == results[k].1)
  }

  lemma AllDone<V>(g: Group<V>, gather: bool)
    requires Inv(g, gather, 0, 0) && g.completed >= g.total && g.firstError.None?
    ensures EachOnce(g.results, g.total) && g.running == {} && g.failures == []
  {
    forall i: nat | i < g.total
      ensures HasResult(g.results, i)
    {
      assert Accounted(g, i);
    }
  }

  lemma {:induction false} CollectAll<V>(values: seq<Option<V>>)
    requires forall i :: 0 <= i < |values| ==> values[i].Some?
    ensures |Collect(values)| == |values|
    ensures forall i :: 0 <= i < |values| ==> values[i] == Some(Collect(values)[i])
    decreases |values|
  {
    if values != [] {
      CollectAll(values[1..]);
    }
  }

  lemma OutByIndex<V>(g: Group<V>)
    requires Inv(g, true, 0, 0) && g.completed >= g.total && g.firstError.None?
    ensures ByIndex(Collect(g.values), g.results)
  {
    AllDone(g, true);
    forall i | 0 <= i < |g.values|
      ensures g.values[i].Some?
    {
      assert HasResult(g.results, i);
      var k :| 0 <= k < |g.results| && g.results[k].0 == i;
      assert g.values[g.results[k].0] == Some(g.results[k].1);
    }
    CollectAll(g.values);
  }

  function Least(a: nat, b: nat): nat {
    if a < b then a else b
  }

  lemma NotStranded<V>(g: Group<V>, gather: bool)
    requires Inv(g, gather, 0, 0) && g.caller.Waiting?
    ensures g.running != {} || g.unstarted > 0
  {
    if g.running == {} {
      assert |g.running| == 0;
    }
  }

  /** Under every interleaving of for_each_limited: no index is claimed twice, at most
      max(1, concurrency) calls are in flight, and no fewer while there are indices left and
      no call has failed, a normal return means that every index
      has succeeded exactly once, an exception is that of the first call to fail, and a
      sleeping caller always has a call or a worker to wait for. */
  lemma ForEachLimited<V(!new)>(total: nat, concurrency: nat, es: seq<Event<V>>)
    ensures var g := Run(NextForEach, StartForEach(total, concurrency), es);
            && NoRepeats(g.claims) && (forall i :: i in g.claims ==> i < total)
            && |g.running| <= (if concurrency == 0 then 1 else concurrency)
            && (g.failures == [] && |g.claims| < total && !Exited(g.caller) ==>
                  |g.running| + g.unstarted == Least(if concurrency == 0 then 1 else concurrency, total))
            && (g.caller.Returned? ==> EachOnce(g.results, total) && g.running == {} && g.failures == [])
            && (g.caller.Threw? ==> g.failures != [] && g.caller.error == g.failures[0].1)
            && (g.caller.Waiting? ==> g.running != {} || g.unstarted > 0)
  {
    ForEachAlways(total, concurrency, es);
    var g := Run(NextForEach, StartForEach(total, concurrency), es);
    if g.caller.Returned? {
      AllDone(g, false);
    } else if g.caller.Waiting? {
      NotStranded(g, false);
    }
  }

  /** The same for gather_limited, which returns the values in index order. */
  lemma GatherLimited<V(!new)>(total: nat, concurrency: nat, es: seq<Event<V>>)
    ensures var g := Run(NextGather, StartGather(total, concurrency), es);
            && NoRepeats(g.claims) && (forall i :: i in g.claims ==> i < total)
            && |g.running| <= (if concurrency == 0 then 1 else concurrency)
            && (g.failures == [] && |g.claims| < total && !Exited(g.caller) ==>
                  |g.running| + g.unstarted == Least(if concurrency == 0 then 1 else concurrency, total))
            && (g.caller.Returned? ==> EachOnce(g.results, total) && ByIndex(g.caller.out, g.results))
            && (g.caller.Threw? ==> g.failures != [] && g.caller.error == g.failures[0].1)
            && (g.caller.Waiting? ==> g.running != {} || g.unstarted > 0)
  {
    GatherAlways(total, concurrency, es);
    var g := Run(NextGather, StartGather(total, concurrency), es);
    if g.caller.Returned? {
      AllDone(g, true);
      OutByIndex(g);
    } else if g.caller.Waiting? {
      NotStranded(g, true);
    }
  }

  // ---------------------------------------------------------------------------
  // Progress and stopping
  // ---------------------------------------------------------------------------

  /** Starts and completions still to come. */
  function Remaining<V>(g: Group<V>): int {
    g.total - g.completed + g.unstarted
  }

  /** The starts and completions among the events of a run. */
  function ForEachMoves<V>(g: Group<V>, es: seq<Event<V>>): nat
    decreases |es|
  {
    if es == [] then 0
    else
      (if (es[0].StartWorker? && g.unstarted > 0) || (es[0].Finish? && es[0].index in g.running) then 1 else 0)
      + ForEachMoves(NextForEach(g, es[0]), es[1..])
  }

  function GatherMoves<V>(g: Group<V>, es: seq<Event<V>>): nat
    decreases |es|
  {
    if es == [] then 0
    else (if es[0].Finish? && es[0].index in g.running then 1 else 0) + GatherMoves(NextGather(g, es[0]), es[1..])
  }

  lemma ForEachCounts<V>(g: Group<V>, e: Event<V>)
    ensures Remaining(NextForEach(g, e)) == Remaining(g) -
              (if (e.StartWorker? && g.unstarted > 0) || (e.Finish? && e.index in g.running) then 1 else 0)
  {
    if e.Finish? {
      FinishCounts(g, e.index, e.outcome);
    }
  }

  lemma GatherCounts<V>(g: Group<V>, e: Event<V>)
    ensures NextGather(g, e).unstarted == g.unstarted
    ensures Remaining(NextGather(g, e)) == Remaining(g) - (if e.Finish? && e.index in g.running then 1 else 0)
  {
    if e.Finish? {
      FinishCounts(g, e.index, e.outcome);
    }
  }

  lemma FinishCounts<V>(g: Group<V>, index: nat, o: Outcome<V>)
    ensures var h := FinishGather(g, index, o);
            h.completed == g.completed + 1 && h.unstarted == g.unstarted && h.total == g.total
    ensures var h := FinishForEach(g, index, o);
            h.completed == g.completed + 1 && h.unstarted == g.unstarted && h.total == g.total
  {
  }

  lemma {:induction false} ForEachRunCounts<V>(g: Group<V>, es: seq<Event<V>>)
    ensures Remaining(Run(NextForEach, g, es)) == Remaining(g) - ForEachMoves(g, es)
    decreases |es|
  {
    if es != [] {
      ForEachCounts(g, es[0]);
      ForEachRunCounts(NextForEach(g, es[0]), es[1..]);
    }
  }

  lemma {:induction false} GatherRunCounts<V>(g: Group<V>, es: seq<Event<V>>)
    ensures Remaining(Run(NextGather, g, es)) == Remaining(g) - GatherMoves(g, es)
    ensures Run(NextGather, g, es).unstarted == g.unstarted
    decreases |es|
  {
    if es != [] {
      GatherCounts(g, es[0]);
      GatherRunCounts(NextGather(g, es[0]), es[1..]);
    }
  }

  lemma NothingRemains<V>(g: Group<V>, gather: bool)
    requires Inv(g, gather, 0, 0)
    ensures Remaining(g) >= 0 && (Remaining(g) == 0 ==> !g.caller.Waiting?)
  {
  }

  /** From any state of any run: after as many starts and completions as remain the caller
      sleeps no longer, and there can be no more of them than that. */
  lemma ForEachCallerIsWoken<V(!new)>(total: nat, concurrency: nat, es: seq<Event<V>>, fs: seq<Event<V>>)
    ensures var g := Run(NextForEach, StartForEach(total, concurrency), es);
            && ForEachMoves(g, fs) <= Remaining(g)
            && (ForEachMoves(g, fs) == Remaining(g) ==> !Run(NextForEach, g, fs).caller.Waiting?)
  {
    var g := Run(NextForEach, StartForEach<V>(total, concurrency), es);
    ForEachRunCounts(g, fs);
    RunSplit(NextForEach, StartForEach<V>(total, concurrency), es, fs);
    ForEachAlways(total, concurrency, es + fs);
    NothingRemains(Run(NextForEach, g, fs), false);
  }

  lemma GatherCallerIsWoken<V(!new)>(total: nat, concurrency: nat, es: seq<Event<V>>, fs: seq<Event<V>>)
    ensures var g := Run(NextGather, StartGather(total, concurrency), es);
            && GatherMoves(g, fs) <= Remaining(g)
            && (GatherMoves(g, fs) == Remaining(g) ==> !Run(NextGather, g, fs).caller.Waiting?)
  {
    var g := Run(NextGather, StartGather<V>(total, concurrency), es);
    GatherRunCounts(g, fs);
    RunSplit(NextGather, StartGather<V>(total, concurrency), es, fs);
    GatherAlways(total, concurrency, es + fs);
    NothingRemains(Run(NextGather, g, fs), true);
  }

  ghost predicate Stopped<V>(g: Group<V>, claims: seq<nat>) {
    g.stop && g.claims == claims
  }

  lemma NextStopped<V>(g: Group<V>, e: Event<V>, claims: seq<nat>)
    requires Stopped(g, claims)
    ensures Stopped(NextForEach(g, e), claims) && Stopped(NextGather(g, e), claims)
  {
  }

  /** Once a call has failed no further index is claimed, whatever happens next. */
  lemma NoClaimAfterFailure<V(!new)>(g: Group<V>, gather: bool, es: seq<Event<V>>)
    requires Inv(g, gather, 0, 0) && g.failures != []
    ensures Run(NextForEach, g, es).claims == g.claims
    ensures Run(NextGather, g, es).claims == g.claims
  {
    forall h: Group<V>, e: Event<V> | Stopped(h, g.claims)
      ensures Stopped(NextForEach(h, e), g.claims) && Stopped(NextGather(h, e), g.claims)
    {
      NextStopped(h, e, g.claims);
    }
    Always(NextForEach, (h: Group<V>) => Stopped(h, g.claims), g, es);
    Always(NextGather, (h: Group<V>) => Stopped(h, g.claims), g, es);
  }

  /** In any state: every try counts up the next index, and past the end or after a failure it
      claims none; the first wake-up since the caller last slept is the only one that counts. */
  lemma PiecesMean<V>(g: Group<V>)
    ensures var g' := Claim(g);
            if g.stop then g' == g
            else if g.next < g.total then
              g' == g.(next := g.next + 1, running := g.running + {g.next}, claims := g.claims + [g.next])
            else g' == g.(next := g.next + 1)
    ensures Wake(g) == if g.wakeOnce then g
                       else if g.caller == Waiting then g.(wakeOnce := true, caller := Woken)
                       else g.(wakeOnce := true)
    ensures g.firstError.None? && g.completed < g.total ==>
              && ResumeForEach(g) == g.(wakeOnce := false, caller := Waiting)
              && ResumeGather(g) == g.(wakeOnce := g.wakeOnce && g.stop, caller := Waiting)
    ensures g.caller.Waiting? ==> NextForEach(g, Stir) == ResumeForEach(g) && NextGather(g, Stir) == ResumeGather(g)
  {
  }

  // ---------------------------------------------------------------------------
  // How the caller ends
  // ---------------------------------------------------------------------------

  /** A woken caller of for_each_limited that runs ends: with the error of the first call to
      fail, or normally. */
  lemma ForEachResumes<V>(g: Group<V>)
    requires Inv(g, false, 0, 0) && g.caller.Woken?
    ensures NextForEach(g, Resume) == g.(caller := if g.failures != [] then Threw(g.failures[0].1) else Returned([]))
  {
  }

  /** The same for gather_limited, whose values are those of the calls by index. */
  lemma GatherResumes<V>(g: Group<V>)
    requires Inv(g, true, 0, 0) && g.caller.Woken?
    ensures NextGather(g, Resume) == g.(caller := NextGather(g, Resume).caller)
    ensures var c := NextGather(g, Resume).caller;
            if g.failures != [] then c == Threw(g.failures[0].1)
            else c.Returned? && EachOnce(g.results, g.total) && ByIndex(c.out, g.results)
  {
    if g.failures == [] {
      AllDone(g, true);
      OutByIndex(g);
    }
  }

  /** A sleeping caller that runs unwoken sleeps on, and a destroyed one is gone. */
  lemma OtherwiseSleeps<V>(g: Group<V>, gather: bool)
    requires Inv(g, gather, 0, 0) && g.caller.Waiting?
    ensures NextForEach(g, Stir) == g && NextGather(g, Stir) == g
    ensures NextForEach(g, Abandon) == g.(caller := Gone) && NextGather(g, Abandon) == g.(caller := Gone)
  {
  }

  /** The end of a caller is final. */
  lemma NextEnded<V>(g: Group<V>, e: Event<V>)
    requires Exited(g.caller)
    ensures NextForEach(g, e).caller == g.caller && NextGather(g, e).caller == g.caller
  {
  }

  lemma EndIsFinal<V(!new)>(g: Group<V>, es: seq<Event<V>>)
    requires Exited(g.caller)
    ensures Run(NextForEach, g, es).caller == g.caller && Run(NextGather, g, es).caller == g.caller
  {
    forall h: Group<V>, e: Event<V> | Exited(h.caller) && h.caller == g.caller
      ensures NextForEach(h, e).caller == g.caller && NextGather(h, e).caller == g.caller
    {
      NextEnded(h, e);
    }
    Always(NextForEach, (h: Group<V>) => Exited(h.caller) && h.caller == g.caller, g, es);
    Always(NextGather, (h: Group<V>) => Exited(h.caller) && h.caller == g.caller, g, es);
  }

  lemma OneMoreEvent<V>(g: Group<V>, es: seq<Event<V>>, e: Event<V>)
    ensures Run(NextForEach, g, es + [e]) == NextForEach(Run(NextForEach, g, es), e)
    ensures Run(NextGather, g, es + [e]) == NextGather(Run(NextGather, g, es), e)
  {
    RunSplit(NextForEach, g, es, [e]);
    RunSplit(NextGather, g, es, [e]);
    OneStep(NextForEach, Run(NextForEach, g, es), e, []);
    OneStep(NextGather, Run(NextGather, g, es), e, []);
    assert [e] + [] == [e];
  }

  /** From any state of any run, after the starts and completions that remain and one turn
      of the caller, the call has ended. */
  lemma ForEachEnds<V(!new)>(total: nat, concurrency: nat, es: seq<Event<V>>, fs: seq<Event<V>>)
    requires var g := Run(NextForEach, StartForEach<V>(total, concurrency), es); ForEachMoves(g, fs) == Remaining(g)
    ensures var g := Run(NextForEach, StartForEach<V>(total, concurrency), es);
            Exited(Run(NextForEach, g, fs + [Resume]).caller)
  {
    var g := Run(NextForEach, StartForEach<V>(total, concurrency), es);
    var h := Run(NextForEach, g, fs);
    ForEachCallerIsWoken(total, concurrency, es, fs);
    RunSplit(NextForEach, StartForEach<V>(total, concurrency), es, fs);
    ForEachAlways(total, concurrency, es + fs);
    OneMoreEvent(g, fs, Resume);
    if h.caller.Woken? {
      ForEachResumes(h);
    } else {
      NextEnded(h, Resume);
    }
  }

  lemma GatherEnds<V(!new)>(total: nat, concurrency: nat, es: seq<Event<V>>, fs: seq<Event<V>>)
    requires var g := Run(NextGather, StartGather<V>(total, concurrency), es); GatherMoves(g, fs) == Remaining(g)
    ensures var g := Run(NextGather, StartGather<V>(total, concurrency), es);
            Exited(Run(NextGather, g, fs + [Resume]).caller)
  {
    var g := Run(NextGather, StartGather<V>(total, concurrency), es);
    var h := Run(NextGather, g, fs);
    GatherCallerIsWoken(total, concurrency, es, fs);
    RunSplit(NextGather, StartGather<V>(total, concurrency), es, fs);
    GatherAlways(total, concurrency, es + fs);
    OneMoreEvent(g, fs, Resume);
    if h.caller.Woken? {
      GatherResumes(h);
    } else {
      NextEnded(h, Resume);
    }
  }
}
