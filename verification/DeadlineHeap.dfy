/** The deadline heap: a vector kept in heap order by deadline, as std::push_heap and
    std::pop_heap with std::greater keep it. */
module DeadlineHeaps {
  import opened StreamTables

  datatype HeapEntry = HeapEntry(deadline: int, id: Id, kind: Kind)

  function Parent(i: nat): nat
    requires i > 0
  {
    (i - 1) / 2
  }

  ghost predicate Under(h: seq<HeapEntry>, i: nat)
    requires 0 < i < |h|
  {
    h[Parent(i)].deadline <= h[i].deadline
  }

  ghost predicate HeapOrdered(h: seq<HeapEntry>) {
    forall i :: 0 < i < |h| ==> Under(h, i)
  }

  lemma {:induction false} FrontIsLeast(h: seq<HeapEntry>, i: nat)
    requires HeapOrdered(h) && i < |h|
    ensures h[0].deadline <= h[i].deadline
    decreases i
  {
    if i > 0 {
      assert Under(h, i);
      FrontIsLeast(h, Parent(i));
    }
  }

  lemma FrontBelowAll(h: seq<HeapEntry>, e: HeapEntry)
    requires HeapOrdered(h) && e in multiset(h)
    ensures h != [] && h[0].deadline <= e.deadline
  {
    assert e in h;
    var i :| 0 <= i < |h| && h[i] == e;
    FrontIsLeast(h, i);
  }

  lemma SwapKeepsMultiset(h: seq<HeapEntry>, i: nat, j: nat)
    requires i < |h| && j < |h|
    ensures multiset(h[i := h[j]][j := h[i]]) == multiset(h)
  {
  }

  ghost predicate Bridged(h: seq<HeapEntry>, i: nat, j: nat)
    requires 0 < i < |h| && 0 < j < |h|
  {
    Parent(j) == i ==> h[Parent(i)].deadline <= h[j].deadline
  }

  /** In heap order but for position i, which may be smaller than its parent. */
  ghost predicate RisingAt(h: seq<HeapEntry>, i: nat) {
    && i < |h|
    && (forall j :: 0 < j < |h| && j != i ==> Under(h, j))
    && (i > 0 ==> forall j :: 0 < j < |h| ==> Bridged(h, i, j))
  }

  lemma Rises(h: seq<HeapEntry>, i: nat)
    requires RisingAt(h, i) && i > 0 && h[Parent(i)].deadline > h[i].deadline
    ensures RisingAt(h[i := h[Parent(i)]][Parent(i) := h[i]], Parent(i))
  {
    var p := Parent(i);
    var r := h[i := h[p]][p := h[i]];
    forall j | 0 < j < |r| && j != p
      ensures Under(r, j)
    {
      assert Bridged(h, i, j);
      assert j != i ==> Under(h, j);
    }
    if p > 0 {
      assert Under(h, p);
      forall j | 0 < j < |r|
        ensures Bridged(r, p, j)
      {
        assert j != i ==> Under(h, j);
      }
    }
  }

  /** Appends an entry and moves it up while it is smaller than its parent. */
  method PushHeap(h: seq<HeapEntry>, e: HeapEntry) returns (r: seq<HeapEntry>)
    requires HeapOrdered(h)
    ensures HeapOrdered(r)
    ensures multiset(r) == multiset(h) + multiset{e}
  {
    r := h + [e];
    var i: nat := |h|;
    forall j | 0 < j < |h|
      ensures Under(r, j)
    {
      assert Under(h, j);
    }
    while i > 0 && r[Parent(i)].deadline > r[i].deadline
      invariant RisingAt(r, i)
      invariant multiset(r) == multiset(h) + multiset{e}
    {
      Rises(r, i);
      SwapKeepsMultiset(r, i, Parent(i));
      r, i := r[i := r[Parent(i)]][Parent(i) := r[i]], Parent(i);
    }
  }

  /** In heap order but for position i, which may be larger than its children. */
  ghost predicate SinkingAt(h: seq<HeapEntry>, i: nat) {
    && i < |h|
    && (forall j :: 0 < j < |h| && Parent(j) != i ==> Under(h, j))
    && (i > 0 ==> forall j :: 0 < j < |h| ==> Bridged(h, i, j))
  }

  function SmallerChild(h: seq<HeapEntry>, i: nat): (c: nat)
    requires 2 * i + 1 < |h|
    ensures c < |h| && c > i && Parent(c) == i
    ensures forall j :: 0 < j < |h| && Parent(j) == i ==> h[c].deadline <= h[j].deadline
  {
    if 2 * i + 2 < |h| && h[2 * i + 2].deadline < h[2 * i + 1].deadline then 2 * i + 2 else 2 * i + 1
  }

  lemma Sinks(h: seq<HeapEntry>, i: nat)
    requires SinkingAt(h, i) && 2 * i + 1 < |h|
    requires h[i].deadline > h[SmallerChild(h, i)].deadline
    ensures var c := SmallerChild(h, i); SinkingAt(h[i := h[c]][c := h[i]], c)
  {
    var c := SmallerChild(h, i);
    var r := h[i := h[c]][c := h[i]];
    forall j | 0 < j < |r| && Parent(j) != c
      ensures Under(r, j)
    {
      assert Parent(j) != i ==> Under(h, j);
      if j == i {
        assert Bridged(h, i, c);
      }
    }
    forall j | 0 < j < |r|
      ensures Bridged(r, c, j)
    {
      assert Parent(j) != i ==> Under(h, j);
    }
  }

  lemma Sunk(h: seq<HeapEntry>, i: nat)
    requires SinkingAt(h, i)
    requires 2 * i + 1 < |h| ==> h[i].deadline <= h[SmallerChild(h, i)].deadline
    ensures HeapOrdered(h)
  {
    forall j | 0 < j < |h|
      ensures Under(h, j)
    {
      if Parent(j) == i {
        assert 2 * i + 1 <= j;
      }
    }
  }

  /** Removes the front: the last entry takes its place and moves down. */
  method PopHeap(h: seq<HeapEntry>) returns (r: seq<HeapEntry>)
    requires HeapOrdered(h) && h != []
    ensures HeapOrdered(r)
    ensures multiset(r) == multiset(h) - multiset{h[0]}
  {
    var n := |h| - 1;
    if n == 0 {
      assert h == [h[0]];
      return [];
    }
    r := MoveLastToFront(h);
    MoveKeepsOthers(h);
    MoveSinks(h);
    var i := 0;
    while 2 * i + 1 < n && r[i].deadline > r[SmallerChild(r, i)].deadline
      invariant |r| == n && SinkingAt(r, i)
      invariant multiset(r) == multiset(h) - multiset{h[0]}
      decreases n - i
    {
      var c := SmallerChild(r, i);
      Sinks(r, i);
      SwapKeepsMultiset(r, i, c);
      r, i := r[i := r[c]][c := r[i]], c;
    }
    Sunk(r, i);
  }

  function MoveLastToFront(h: seq<HeapEntry>): seq<HeapEntry>
    requires |h| > 1
  {
    [h[|h| - 1]] + h[1..|h| - 1]
  }

  lemma MoveKeepsOthers(h: seq<HeapEntry>)
    requires |h| > 1
    ensures multiset(MoveLastToFront(h)) == multiset(h) - multiset{h[0]}
  {
    var n := |h| - 1;
    assert h == [h[0]] + h[1..n] + [h[n]];
  }

  lemma MoveSinks(h: seq<HeapEntry>)
    requires |h| > 1 && HeapOrdered(h)
    ensures SinkingAt(MoveLastToFront(h), 0)
  {
    var r := MoveLastToFront(h);
    forall j | 0 < j < |r| && Parent(j) != 0
      ensures Under(r, j)
    {
      assert Under(h, j) && r[j] == h[j] && r[Parent(j)] == h[Parent(j)];
    }
  }
}
