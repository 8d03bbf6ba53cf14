/** Sequences without repeats, and queues of numbered tickets. */
module Sequences {

  ghost predicate NoRepeats<T(!new)>(s: seq<T>) {
    forall i, j :: 0 <= i < j < |s| ==> s[i] != s[j]
  }

  lemma HeadOnce<T(!new)>(s: seq<T>)
    requires NoRepeats(s) && s != []
    ensures s[0] !in s[1..] && NoRepeats(s[1..])
  {
  }

  ghost predicate Increasing(q: seq<nat>) {
    forall i, j :: 0 <= i < j < |q| ==> q[i] < q[j]
  }

  function Without(q: seq<nat>, t: nat): (r: seq<nat>)
    ensures t !in r
    ensures forall u :: u in r <==> u in q && u != t
  {
    if q == [] then []
    else if q[0] == t then Without(q[1..], t)
    else [q[0]] + Without(q[1..], t)
  }

  lemma {:induction false} WithoutKeepsOrder(q: seq<nat>, t: nat)
    requires Increasing(q)
    ensures Increasing(Without(q, t))
  {
    if q != [] {
      WithoutKeepsOrder(q[1..], t);
      var r := Without(q[1..], t);
      forall i | 0 <= i < |r|
        ensures q[0] < r[i]
      {
        assert r[i] in q[1..];
      }
    }
  }
}
