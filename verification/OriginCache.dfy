/** The client's cache of origins: a map, a list of its keys from most to least recently
    used, and a generation that counts evictions. */
module OriginCaches {
  import opened Runs
  import opened OriginGates

  /** Scheme, host and port. */
  datatype Key = Key(text: string)

  type GateId = nat

  datatype Origin = Origin(gate: GateId, protocol: Protocol, lastUsed: int)

  /** blocked: gates whose eviction_blocked flag is set;
      now:     the steady clock. */
  datatype Cache = Cache(
    origins: map<Key, Origin>,
    lru: seq<Key>,
    generation: nat,
    gates: GateId,
    blocked: set<GateId>,
    now: int)

  /** maxOrigins zero turns eviction off; a ttl that is not positive turns expiry off. */
  datatype Limits = Limits(maxOrigins: nat, ttl: int)

  datatype Event =
    | Tick(elapsed: nat)
    | GetGate(key: Key)
    | RememberedRoute(key: Key)
    | RememberRoute(key: Key, protocol: Protocol)
    | Block(gate: GateId)       // a gate begins to detect
    | Unblock(gate: GateId)     // a gate's protocol is set

  const EMPTY_CACHE := Cache(map[], [], 1, 0, {}, 0)

  // ---------------------------------------------------------------------------
  // Steps
  // ---------------------------------------------------------------------------

  /** The list without the node at `i`. */
  function RemoveAt(s: seq<Key>, i: nat): (r: seq<Key>)
    requires i < |s|
  {
    s[..i] + s[i + 1..]
  }

  function Place(s: seq<Key>, key: Key): (i: nat)
    ensures i <= |s| && (i < |s| ==> s[i] == key)
    ensures key in s <==> i < |s|
  {
    if s == [] || s[0] == key then 0 else 1 + Place(s[1..], key)
  }

  /** The nodes that a touch of `key` leaves where they are. */
  function Others(s: seq<Key>, key: Key): seq<Key> {
    var i := Place(s, key);
    if i < |s| then RemoveAt(s, i) else s
  }

  /** The key's node is linked or moved to the front, and its time of use noted. */
  function Touch(c: Cache, key: Key): Cache
    requires key in c.origins
  {
    c.(origins := c.origins[key := c.origins[key].(lastUsed := c.now)], lru := [key] + Others(c.lru, key))
  }

  predicate Idle(c: Cache, o: Origin) {
    o.gate !in c.blocked
  }

  predicate Expired(c: Cache, l: Limits, o: Origin) {
    l.ttl > 0 && c.now - o.lastUsed >= l.ttl
  }

  predicate Evictable(c: Cache, l: Limits, o: Origin) {
    Idle(c, o) && (Expired(c, l, o) || |c.origins| > l.maxOrigins)
  }

  function Erase(c: Cache, i: nat): Cache
    requires i < |c.lru|
  {
    c.(origins := c.origins - {c.lru[i]}, lru := RemoveAt(c.lru, i), generation := c.generation + 1)
  }

  /** The eviction loop from the node before position `i` to the front. */
  function EvictFrom(c: Cache, l: Limits, i: nat): Cache
    requires i <= |c.lru|
    decreases i
  {
    if i == 0 then c
    else if c.lru[i - 1] !in c.origins then EvictFrom(c.(lru := RemoveAt(c.lru, i - 1)), l, i - 1)
    else if Evictable(c, l, c.origins[c.lru[i - 1]]) then EvictFrom(Erase(c, i - 1), l, i - 1)
    else if |c.origins| <= l.maxOrigins then c
    else EvictFrom(c, l, i - 1)
  }

  function Evict(c: Cache, l: Limits): Cache {
    if l.maxOrigins == 0 then c else EvictFrom(c, l, |c.lru|)
  }

  function Insert(c: Cache, key: Key): Cache {
    c.(origins := c.origins[key := Origin(c.gates, Unknown, 0)], gates := c.gates + 1)
  }

  function Remember(c: Cache, key: Key, p: Protocol): Cache {
    var c' := if key in c.origins then c else Insert(c, key);
    Touch(c'.(origins := c'.origins[key := c'.origins[key].(protocol := p)]), key)
  }

  function Step(c: Cache, l: Limits, e: Event): Cache {
    match e
    case Tick(d) => c.(now := c.now + d)
    case GetGate(key) => if key in c.origins then Touch(c, key) else Touch(Insert(Evict(c, l), key), key)
    case RememberedRoute(key) => if key in c.origins then Touch(c, key) else c
    case RememberRoute(key, p) => if p.H1Only? || p.H2Available? then Remember(Evict(c, l), key, p) else c
    case Block(g) => c.(blocked := c.blocked + {g})
    case Unblock(g) => c.(blocked := c.blocked - {g})
  }

  function NextCache(l: Limits): (Cache, Event) -> Cache {
    (c: Cache, e: Event) => Step(c, l, e)
  }

  // ---------------------------------------------------------------------------
  // The list and the map agree
  // ---------------------------------------------------------------------------

  /** One node for each cached origin, and no other. */
  ghost predicate OneToOne(c: Cache) {
    multiset(c.lru) == multiset(c.origins.Keys)
  }

  ghost predicate UsedAfter(m: map<Key, Origin>, j: Key, k: Key) {
    j in m && k in m && m[j].lastUsed >= m[k].lastUsed
  }

  /** The list runs from the most to the least recently used. */
  ghost predicate Descending(s: seq<Key>, m: map<Key, Origin>) {
    forall i, j {:trigger UsedAfter(m, s[i], s[j])} :: 0 <= i < j < |s| ==> UsedAfter(m, s[i], s[j])
  }

  /** No origin was used in the future. */
  ghost predicate InThePast(m: map<Key, Origin>, now: int) {
    forall k :: k in m ==> m[k].lastUsed <= now
  }

  ghost predicate CacheInv(c: Cache) {
    OneToOne(c) && Descending(c.lru, c.origins) && InThePast(c.origins, c.now)
  }

  lemma CountedTwice(s: seq<Key>, i: nat, j: nat)
    requires i < j < |s| && s[i] == s[j]
    ensures multiset(s)[s[i]] >= 2
  {
    assert s == s[..i + 1] + s[i + 1..];
    assert s[..i + 1][i] == s[i] && s[i] in multiset(s[..i + 1]);
    assert s[i + 1..][j - i - 1] == s[j] && s[j] in multiset(s[i + 1..]);
  }

  /** What the agreement means: every node's key is cached, and only once in the list. */
  lemma Agreement(c: Cache)
    requires OneToOne(c)
    ensures |c.lru| == |c.origins|
    ensures forall k :: k in c.lru <==> k in c.origins
    ensures forall i, j :: 0 <= i < j < |c.lru| ==> c.lru[i] != c.lru[j]
  {
    assert |multiset(c.lru)| == |multiset(c.origins.Keys)|;
    forall k
      ensures k in c.lru <==> k in c.origins
    {
      assert k in multiset(c.lru) <==> k in multiset(c.origins.Keys);
    }
    forall i, j | 0 <= i < j < |c.lru|
      ensures c.lru[i] != c.lru[j]
    {
      assert multiset(c.origins.Keys)[c.lru[i]] <= 1;
      if c.lru[i] == c.lru[j] {
        CountedTwice(c.lru, i, j);
      }
    }
  }

  lemma RemoveCounts(s: seq<Key>, i: nat)
    requires i < |s|
    ensures multiset(RemoveAt(s, i)) == multiset(s) - multiset{s[i]}
  {
    assert s == s[..i] + [s[i]] + s[i + 1..];
  }

  lemma RemoveDescending(s: seq<Key>, i: nat, m: map<Key, Origin>)
    requires i < |s| && Descending(s, m)
    ensures Descending(RemoveAt(s, i), m)
  {
    var r := RemoveAt(s, i);
    forall a, b | 0 <= a < b < |r|
      ensures UsedAfter(m, r[a], r[b])
    {
      var a0 := if a < i then a else a + 1;
      var b0 := if b < i then b else b + 1;
      assert r[a] == s[a0] && r[b] == s[b0];
      assert UsedAfter(m, s[a0], s[b0]);
    }
  }

  /** The order concerns only the keys in the list. */
  lemma DescendingElsewhere(s: seq<Key>, m: map<Key, Origin>, n: map<Key, Origin>)
    requires Descending(s, m)
    requires forall k :: k in s && k in m ==> k in n && n[k].lastUsed == m[k].lastUsed
    ensures Descending(s, n)
  {
    forall a, b | 0 <= a < b < |s|
      ensures UsedAfter(n, s[a], s[b])
    {
      assert UsedAfter(m, s[a], s[b]);
      assert s[a] in s && s[b] in s;
    }
  }

  lemma PushFront(s: seq<Key>, key: Key, m: map<Key, Origin>)
    requires Descending(s, m) && key in m
    requires forall k :: k in s ==> k in m && m[k].lastUsed <= m[key].lastUsed
    ensures Descending([key] + s, m)
  {
    var r := [key] + s;
    forall a, b | 0 <= a < b < |r|
      ensures UsedAfter(m, r[a], r[b])
    {
      assert r[b] == s[b - 1] && r[b] in s;
      if a > 0 {
        assert r[a] == s[a - 1];
        assert UsedAfter(m, s[a - 1], s[b - 1]);
      }
    }
  }

  lemma EraseKeeps(c: Cache, i: nat)
    requires CacheInv(c) && i < |c.lru|
    ensures CacheInv(Erase(c, i))
    ensures |Erase(c, i).lru| == |c.lru| - 1 && |Erase(c, i).origins| == |c.origins| - 1
  {
    var key := c.lru[i];
    var r := RemoveAt(c.lru, i);
    var left := c.origins - {key};
    assert key in multiset(c.lru);
    RemoveCounts(c.lru, i);
    assert left.Keys == c.origins.Keys - {key};
    assert multiset(left.Keys) == multiset(c.origins.Keys) - multiset{key};
    assert |multiset(left.Keys)| == |multiset(c.origins.Keys)| - 1;
    assert key !in multiset(r);
    RemoveDescending(c.lru, i, c.origins);
    DescendingElsewhere(r, c.origins, left);
  }

  /** The keys in the list are those of the map but for `key`, which may be new. */
  ghost predicate Touchable(c: Cache, key: Key) {
    && key in c.origins
    && multiset(Others(c.lru, key)) == multiset(c.origins.Keys) - multiset{key}
    && Descending(Others(c.lru, key), c.origins)
    && InThePast(c.origins - {key}, c.now)
  }

  lemma TouchOneToOne(c: Cache, key: Key)
    requires Touchable(c, key)
    ensures OneToOne(Touch(c, key)) && Touch(c, key).origins.Keys == c.origins.Keys
  {
    var others := Others(c.lru, key);
    assert Touch(c, key).origins.Keys == c.origins.Keys;
    assert multiset([key] + others) == multiset{key} + multiset(others);
  }

  lemma OthersOlder(c: Cache, key: Key, k: Key)
    requires Touchable(c, key) && k in Others(c.lru, key)
    ensures k != key && k in c.origins && c.origins[k].lastUsed <= c.now
  {
    assert k in multiset(Others(c.lru, key));
    assert multiset(c.origins.Keys)[key] == 1;
    assert k in c.origins - {key};
  }

  lemma TouchDescending(c: Cache, key: Key)
    requires Touchable(c, key)
    ensures Descending(Touch(c, key).lru, Touch(c, key).origins)
  {
    var m := Touch(c, key).origins;
    forall k | k in Others(c.lru, key)
      ensures k != key && k in c.origins && c.origins[k].lastUsed <= c.now
    {
      OthersOlder(c, key, k);
    }
    DescendingElsewhere(Others(c.lru, key), c.origins, m);
    PushFront(Others(c.lru, key), key, m);
  }

  lemma TouchInThePast(c: Cache, key: Key)
    requires Touchable(c, key)
    ensures InThePast(Touch(c, key).origins, c.now)
  {
    assert forall k :: k in c.origins && k != key ==> k in c.origins - {key};
  }

  lemma TouchKeeps(c: Cache, key: Key)
    requires Touchable(c, key)
    ensures CacheInv(Touch(c, key)) && Touch(c, key).origins.Keys == c.origins.Keys
  {
    TouchOneToOne(c, key);
    TouchDescending(c, key);
    TouchInThePast(c, key);
  }

  lemma OthersCounts(s: seq<Key>, key: Key)
    ensures multiset(Others(s, key)) == multiset(s) - multiset{key}
  {
    if Place(s, key) < |s| {
      RemoveCounts(s, Place(s, key));
    } else {
      assert key !in multiset(s);
    }
  }

  lemma OthersDescending(s: seq<Key>, key: Key, m: map<Key, Origin>)
    requires Descending(s, m)
    ensures Descending(Others(s, key), m)
  {
    if Place(s, key) < |s| {
      RemoveDescending(s, Place(s, key), m);
    }
  }

  /** Touching a cached origin, whatever else of it has changed. */
  lemma TouchCached(c: Cache, key: Key, o: Origin)
    requires CacheInv(c) && key in c.origins
    ensures CacheInv(Touch(c.(origins := c.origins[key := o]), key))
    ensures Touch(c.(origins := c.origins[key := o]), key).origins.Keys == c.origins.Keys
  {
    var c' := c.(origins := c.origins[key := o]);
    assert c'.origins.Keys == c.origins.Keys;
    OthersDescending(c.lru, key, c.origins);
    OthersCounts(c.lru, key);
    assert key !in multiset(Others(c.lru, key));
    DescendingElsewhere(Others(c.lru, key), c.origins, c'.origins);
    TouchKeeps(c', key);
  }

  lemma NewKeyCounts(m: map<Key, Origin>, key: Key, o: Origin)
    requires key !in m
    ensures multiset(m[key := o].Keys) - multiset{key} == multiset(m.Keys)
    ensures m[key := o] - {key} == m
  {
    assert m[key := o].Keys == m.Keys + {key};
  }

  /** Touching an origin that has just been inserted. */
  lemma TouchNew(c: Cache, key: Key, o: Origin)
    requires CacheInv(c) && key !in c.origins
    ensures CacheInv(Touch(c.(origins := c.origins[key := o]), key))
    ensures Touch(c.(origins := c.origins[key := o]), key).origins.Keys == c.origins.Keys + {key}
  {
    var c' := c.(origins := c.origins[key := o]);
    assert c'.origins.Keys == c.origins.Keys + {key};
    assert key !in multiset(c.lru);
    assert Others(c.lru, key) == c.lru;
    NewKeyCounts(c.origins, key, o);
    DescendingElsewhere(c.lru, c.origins, c'.origins);
    TouchKeeps(c', key);
  }

  /** What one pass leaves: a part of the cache, from which only idle origins are gone,
      one for each step of the generation. */
  ghost predicate Remainder(c: Cache, r: Cache) {
    && r.blocked == c.blocked && r.now == c.now && r.gates == c.gates
    && (forall k :: k in r.origins ==> k in c.origins && r.origins[k] == c.origins[k])
    && (forall k :: k in c.origins && k !in r.origins ==> Idle(c, c.origins[k]))
    && r.generation + |r.origins| == c.generation + |c.origins|
  }

  lemma ListedIsCached(c: Cache, i: nat)
    requires OneToOne(c) && i < |c.lru|
    ensures c.lru[i] in c.origins
  {
    assert c.lru[i] in multiset(c.lru);
  }

  /** Node `j` may be erased. */
  predicate Erasable(c: Cache, l: Limits, j: nat) {
    j < |c.lru| && c.lru[j] in c.origins && Evictable(c, l, c.origins[c.lru[j]])
  }

  /** What every permitted erasure keeps, the loop keeps. */
  lemma {:induction false} EvictionKeeps(inv: Cache -> bool, c: Cache, l: Limits, i: nat)
    requires inv(c) && i <= |c.lru|
    requires forall d: Cache, j: nat :: inv(d) && j < |d.lru| ==> d.lru[j] in d.origins
    requires forall d: Cache, j: nat :: inv(d) && Erasable(d, l, j) ==> inv(Erase(d, j))
    ensures inv(EvictFrom(c, l, i))
    decreases i
  {
    if i > 0 {
      assert c.lru[i - 1] in c.origins;
      if Evictable(c, l, c.origins[c.lru[i - 1]]) {
        assert Erasable(c, l, i - 1);
        EvictionKeeps(inv, Erase(c, i - 1), l, i - 1);
      } else if |c.origins| > l.maxOrigins {
        EvictionKeeps(inv, c, l, i - 1);
      }
    }
  }

  lemma EraseLeaves(c: Cache, d: Cache, l: Limits, j: nat)
    requires CacheInv(d) && Remainder(c, d) && Erasable(d, l, j)
    ensures Remainder(c, Erase(d, j))
  {
    EraseKeeps(d, j);
  }

  lemma EvictKeeps(c: Cache, l: Limits)
    requires CacheInv(c)
    ensures CacheInv(Evict(c, l)) && Remainder(c, Evict(c, l))
  {
    forall d: Cache, j: nat | CacheInv(d) && j < |d.lru|
      ensures d.lru[j] in d.origins
    {
      ListedIsCached(d, j);
    }
    forall d: Cache, j: nat | CacheInv(d) && Remainder(c, d) && Erasable(d, l, j)
      ensures CacheInv(Erase(d, j)) && Remainder(c, Erase(d, j))
    {
      EraseKeeps(d, j);
      EraseLeaves(c, d, l, j);
    }
    EvictionKeeps((d: Cache) => CacheInv(d) && Remainder(c, d), c, l, |c.lru|);
  }

  lemma RememberKeeps(c: Cache, key: Key, p: Protocol)
    requires CacheInv(c)
    ensures CacheInv(Remember(c, key, p))
    ensures Remember(c, key, p).origins.Keys == c.origins.Keys + {key}
  {
    if key in c.origins {
      TouchCached(c, key, c.origins[key].(protocol := p));
    } else {
      var o := Origin(c.gates, p, 0);
      TouchNew(c.(gates := c.gates + 1), key, o);
      assert c.origins[key := Origin(c.gates, Unknown, 0)][key := o] == c.origins[key := o];
    }
  }

  lemma UseKeeps(c: Cache, key: Key)
    requires CacheInv(c) && key in c.origins
    ensures CacheInv(Touch(c, key))
  {
    assert c.origins[key := c.origins[key]] == c.origins;
    TouchCached(c, key, c.origins[key]);
  }

  lemma InsertKeeps(c: Cache, key: Key)
    requires CacheInv(c) && key !in c.origins
    ensures CacheInv(Touch(Insert(c, key), key))
    ensures Touch(Insert(c, key), key).origins.Keys == c.origins.Keys + {key}
  {
    TouchNew(c.(gates := c.gates + 1), key, Origin(c.gates, Unknown, 0));
  }

  lemma GetGateKeeps(c: Cache, l: Limits, key: Key)
    requires CacheInv(c)
    ensures CacheInv(Step(c, l, GetGate(key)))
  {
    if key in c.origins {
      UseKeeps(c, key);
    } else {
      EvictKeeps(c, l);
      InsertKeeps(Evict(c, l), key);
    }
  }

  lemma RememberRouteKeeps(c: Cache, l: Limits, key: Key, p: Protocol)
    requires CacheInv(c)
    ensures CacheInv(Step(c, l, RememberRoute(key, p)))
  {
    EvictKeeps(c, l);
    RememberKeeps(Evict(c, l), key, p);
  }

  lemma StepKeeps(c: Cache, l: Limits, e: Event)
    requires CacheInv(c)
    ensures CacheInv(Step(c, l, e))
  {
    match e
    case GetGate(key) => GetGateKeeps(c, l, key);
    case RememberedRoute(key) => if key in c.origins { UseKeeps(c, key); }
    case RememberRoute(key, p) => RememberRouteKeeps(c, l, key, p);
    case _ =>
  }

  /** In every run the list and the map agree one to one and the list is ordered by last use. */
  lemma ListMatchesMap(l: Limits, es: seq<Event>)
    ensures CacheInv(Run(NextCache(l), EMPTY_CACHE, es))
  {
    forall c, e | CacheInv(c)
      ensures CacheInv(NextCache(l)(c, e))
    {
      StepKeeps(c, l, e);
    }
    Always(NextCache(l), CacheInv, EMPTY_CACHE, es);
  }

  // ---------------------------------------------------------------------------
  // What an eviction pass achieves
  // ---------------------------------------------------------------------------

  predicate BusyAt(c: Cache, j: nat) {
    j < |c.lru| && c.lru[j] in c.origins && !Idle(c, c.origins[c.lru[j]])
  }

  predicate FreshAt(c: Cache, l: Limits, j: nat) {
    j < |c.lru| && c.lru[j] in c.origins && !Expired(c, l, c.origins[c.lru[j]])
  }

  ghost predicate BusyFrom(c: Cache, i: nat) {
    forall j: nat :: i <= j < |c.lru| ==> BusyAt(c, j)
  }

  ghost predicate FreshFrom(c: Cache, l: Limits, i: nat) {
    forall j: nat :: i <= j < |c.lru| ==> FreshAt(c, l, j)
  }

  /** Behind the erased node everything moves up by one. */
  lemma EraseShifts(c: Cache, l: Limits, i: nat, j: nat)
    requires CacheInv(c) && i <= j < |c.lru| - 1
    ensures BusyAt(Erase(c, i), j) == BusyAt(c, j + 1)
    ensures FreshAt(Erase(c, i), l, j) == FreshAt(c, l, j + 1)
  {
    var d := Erase(c, i);
    EraseKeeps(c, i);
    assert d.lru[j] == c.lru[j + 1];
    ListedIsCached(d, j);
  }

  lemma EraseFrom(c: Cache, l: Limits, i: nat)
    requires CacheInv(c) && i < |c.lru|
    ensures BusyFrom(c, i + 1) ==> BusyFrom(Erase(c, i), i)
    ensures FreshFrom(c, l, i + 1) ==> FreshFrom(Erase(c, i), l, i)
  {
    var d := Erase(c, i);
    forall j: nat | i <= j < |d.lru|
      ensures BusyAt(d, j) == BusyAt(c, j + 1) && FreshAt(d, l, j) == FreshAt(c, l, j + 1)
    {
      EraseShifts(c, l, i, j);
    }
  }

  lemma {:induction false} EvictFromBound(c: Cache, l: Limits, i: nat)
    requires CacheInv(c) && i <= |c.lru|
    requires |c.origins| > l.maxOrigins ==> BusyFrom(c, i)
    ensures |EvictFrom(c, l, i).origins| <= l.maxOrigins || BusyFrom(EvictFrom(c, l, i), 0)
    decreases i
  {
    if i > 0 {
      ListedIsCached(c, i - 1);
      if Evictable(c, l, c.origins[c.lru[i - 1]]) {
        EraseKeeps(c, i - 1);
        EraseFrom(c, l, i - 1);
        EvictFromBound(Erase(c, i - 1), l, i - 1);
      } else if |c.origins| > l.maxOrigins {
        assert BusyAt(c, i - 1);
        EvictFromBound(c, l, i - 1);
      }
    }
  }

  /** After a pass the cache is within its limit, or every origin left is busy. */
  lemma WithinLimitOrBusy(c: Cache, l: Limits)
    requires CacheInv(c) && l.maxOrigins > 0
    ensures var r := Evict(c, l);
            |r.origins| <= l.maxOrigins || forall k :: k in r.origins ==> !Idle(r, r.origins[k])
  {
    var r := Evict(c, l);
    EvictFromBound(c, l, |c.lru|);
    EvictKeeps(c, l);
    Agreement(r);
    forall k | |r.origins| > l.maxOrigins && k in r.origins
      ensures !Idle(r, r.origins[k])
    {
      var j :| 0 <= j < |r.lru| && r.lru[j] == k;
      assert BusyAt(r, j);
    }
  }

  ghost predicate NoBusyExpired(c: Cache, l: Limits) {
    forall k :: k in c.origins ==> Idle(c, c.origins[k]) || !Expired(c, l, c.origins[k])
  }

  lemma FrontIsFresher(c: Cache, l: Limits, i: nat, j: nat)
    requires CacheInv(c) && j <= i && FreshAt(c, l, i)
    ensures FreshAt(c, l, j)
  {
    ListedIsCached(c, j);
    if j < i {
      assert UsedAfter(c.origins, c.lru[j], c.lru[i]);
    }
  }

  lemma AllFresh(c: Cache, l: Limits, i: nat)
    requires CacheInv(c) && FreshAt(c, l, i) && FreshFrom(c, l, i + 1)
    ensures FreshFrom(c, l, 0)
  {
    forall j: nat | j < |c.lru|
      ensures FreshAt(c, l, j)
    {
      if j <= i {
        FrontIsFresher(c, l, i, j);
      }
    }
  }

  lemma {:induction false} EvictFromFresh(c: Cache, l: Limits, i: nat)
    requires CacheInv(c) && i <= |c.lru| && NoBusyExpired(c, l) && FreshFrom(c, l, i)
    ensures FreshFrom(EvictFrom(c, l, i), l, 0)
    decreases i
  {
    if i > 0 {
      ListedIsCached(c, i - 1);
      if Evictable(c, l, c.origins[c.lru[i - 1]]) {
        EraseKeeps(c, i - 1);
        EraseFrom(c, l, i - 1);
        EvictFromFresh(Erase(c, i - 1), l, i - 1);
      } else {
        assert FreshAt(c, l, i - 1);
        AllFresh(c, l, i - 1);
        if |c.origins| > l.maxOrigins {
          EvictFromFresh(c, l, i - 1);
        }
      }
    }
  }

  /** With no busy origin past its time to live, no origin past it survives a pass. */
  lemma NothingExpiredSurvives(c: Cache, l: Limits)
    requires CacheInv(c) && l.maxOrigins > 0 && NoBusyExpired(c, l)
    ensures var r := Evict(c, l); forall k :: k in r.origins ==> !Expired(r, l, r.origins[k])
  {
    var r := Evict(c, l);
    EvictFromFresh(c, l, |c.lru|);
    EvictKeeps(c, l);
    Agreement(r);
    forall k | k in r.origins
      ensures !Expired(r, l, r.origins[k])
    {
      var j :| 0 <= j < |r.lru| && r.lru[j] == k;
      assert FreshAt(r, l, j);
    }
  }

  /** Nothing past its time to live survives a pass if and only if nothing past it is busy. */
  lemma NothingExpiredSurvivesExactly(c: Cache, l: Limits)
    requires CacheInv(c) && l.maxOrigins > 0
    ensures (forall k :: k in Evict(c, l).origins ==> !Expired(c, l, Evict(c, l).origins[k])) <==> NoBusyExpired(c, l)
  {
    var r := Evict(c, l);
    EvictKeeps(c, l);
    if NoBusyExpired(c, l) {
      NothingExpiredSurvives(c, l);
      assert forall o :: Expired(r, l, o) == Expired(c, l, o);
    } else {
      var k :| k in c.origins && !Idle(c, c.origins[k]) && Expired(c, l, c.origins[k]);
      assert k in r.origins;
    }
  }

  /** A busy origin at the end of the list stops the pass, whatever has expired before it. */
  lemma BusyOriginShields(c: Cache, l: Limits)
    requires c.lru != [] && |c.origins| <= l.maxOrigins && BusyAt(c, |c.lru| - 1)
    ensures Evict(c, l) == c
  {
  }

  /** Two origins are used, the gate of the first begins to detect, and both expire. */
  function ShieldingRun(a: Key, b: Key, ttl: nat): seq<Event> {
    [GetGate(a), GetGate(b), Block(0), Tick(ttl)]
  }

  lemma TwoOrigins(l: Limits, a: Key, b: Key)
    requires l.maxOrigins >= 2 && a != b
    ensures Step(Step(EMPTY_CACHE, l, GetGate(a)), l, GetGate(b)) ==
              Cache(map[a := Origin(0, Unknown, 0), b := Origin(1, Unknown, 0)], [b, a], 1, 2, {}, 0)
  {
    var one := Cache(map[a := Origin(0, Unknown, 0)], [a], 1, 1, {}, 0);
    assert Touch(Insert(EMPTY_CACHE, a), a) == one;
    assert Evict(one, l) == one || Expired(one, l, one.origins[a]);
    assert Others([a], b) == [a] by { assert [a][1..] == []; }
  }

  /** After that run a pass keeps an idle origin past its time to live. */
  lemma ExpiredOriginIsShielded(l: Limits, a: Key, b: Key)
    requires l.maxOrigins >= 2 && l.ttl > 0 && a != b
    ensures var c := Run(NextCache(l), EMPTY_CACHE, ShieldingRun(a, b, l.ttl));
            && Evict(c, l) == c && b in c.origins
            && Idle(c, c.origins[b]) && Expired(c, l, c.origins[b])
  {
    TwoOrigins(l, a, b);
    var next := NextCache(l);
    var c1 := Step(EMPTY_CACHE, l, GetGate(a));
    var c2 := Step(c1, l, GetGate(b));
    var c3 := Step(c2, l, Block(0));
    var c4 := Step(c3, l, Tick(l.ttl));
    OneStep(next, EMPTY_CACHE, GetGate(a), [GetGate(b)] + ([Block(0)] + ([Tick(l.ttl)] + [])));
    OneStep(next, c1, GetGate(b), [Block(0)] + ([Tick(l.ttl)] + []));
    OneStep(next, c2, Block(0), [Tick(l.ttl)] + []);
    OneStep(next, c3, Tick(l.ttl), []);
    assert ShieldingRun(a, b, l.ttl) == [GetGate(a)] + ([GetGate(b)] + ([Block(0)] + ([Tick(l.ttl)] + [])));
    assert BusyAt(c4, 1);
    BusyOriginShields(c4, l);
  }

  /** `n` is the length of the longest prefix of unexpired origins within the limit. */
  ghost predicate Longest(c: Cache, l: Limits, n: nat) {
    && n <= |c.lru| && n <= l.maxOrigins
    && (forall j: nat :: j < n ==> FreshAt(c, l, j))
    && (n == |c.lru| || n == l.maxOrigins || !FreshAt(c, l, n))
  }

  lemma LongestOfRest(c: Cache, l: Limits, n: nat)
    requires CacheInv(c) && c.lru != [] && Longest(Erase(c, |c.lru| - 1), l, n)
    requires !FreshAt(c, l, |c.lru| - 1) || |c.lru| > l.maxOrigins
    ensures Longest(c, l, n) && Erase(c, |c.lru| - 1).lru[..n] == c.lru[..n]
  {
    var last := |c.lru| - 1;
    var d := Erase(c, last);
    EraseKeeps(c, last);
    assert d.lru == c.lru[..last];
    forall j: nat | j < last
      ensures FreshAt(c, l, j) == FreshAt(d, l, j)
    {
      ListedIsCached(d, j);
    }
  }

  /** The first step of a pass, when no origin is busy. */
  lemma PassBegins(c: Cache, l: Limits)
    requires CacheInv(c) && l.maxOrigins > 0 && c.lru != []
    requires forall k :: k in c.origins ==> Idle(c, c.origins[k])
    ensures var last := |c.lru| - 1;
            if FreshAt(c, l, last) && |c.lru| <= l.maxOrigins then Evict(c, l) == c
            else Evict(c, l) == Evict(Erase(c, last), l)
  {
    Agreement(c);
    ListedIsCached(c, |c.lru| - 1);
    EraseKeeps(c, |c.lru| - 1);
  }

  /** Without busy origins a pass keeps exactly the most recently used unexpired origins,
      as many as the limit allows. */
  lemma {:induction false} PassKeepsLongestPrefix(c: Cache, l: Limits) returns (n: nat)
    requires CacheInv(c) && l.maxOrigins > 0
    requires forall k :: k in c.origins ==> Idle(c, c.origins[k])
    ensures Longest(c, l, n) && Evict(c, l).lru == c.lru[..n]
    decreases |c.lru|
  {
    n := |c.lru|;
    if n > 0 {
      PassBegins(c, l);
      if FreshAt(c, l, n - 1) && n <= l.maxOrigins {
        AllFresh(c, l, n - 1);
      } else {
        EraseKeeps(c, n - 1);
        n := PassKeepsLongestPrefix(Erase(c, n - 1), l);
        LongestOfRest(c, l, n);
      }
    }
  }

  // ---------------------------------------------------------------------------
  // What each operation gives
  // ---------------------------------------------------------------------------

  /** `key` was used last, now. */
  ghost predicate UsedNow(c: Cache, c': Cache, key: Key) {
    && key in c'.origins && c'.origins[key].lastUsed == c.now == c'.now
    && c'.lru != [] && c'.lru[0] == key && c'.blocked == c.blocked
  }

  /** A cached origin keeps its gate and protocol, and nothing is evicted for it. */
  lemma CachedGateFound(c: Cache, l: Limits, key: Key)
    requires key in c.origins
    ensures var c' := Step(c, l, GetGate(key));
            && UsedNow(c, c', key) && c' == Step(c, l, RememberedRoute(key))
            && c'.origins == c.origins[key := c.origins[key].(lastUsed := c.now)]
            && c'.generation == c.generation && c'.gates == c.gates
  {
  }

  /** An origin that is not cached gets a new gate of unknown protocol after a pass of
      eviction; asking for its remembered route changes nothing. */
  lemma NewGateMade(c: Cache, l: Limits, key: Key)
    requires CacheInv(c) && key !in c.origins
    ensures var c' := Step(c, l, GetGate(key));
            && UsedNow(c, c', key) && c'.origins == Evict(c, l).origins[key := Origin(c.gates, Unknown, c.now)]
            && c'.gates == c.gates + 1 && c'.generation == Evict(c, l).generation
    ensures Step(c, l, RememberedRoute(key)) == c
  {
    EvictKeeps(c, l);
  }

  /** A route is remembered for both usable protocols, with the gate that the origin has or a
      new one, and for no other state. */
  lemma RouteRemembered(c: Cache, l: Limits, key: Key, p: Protocol)
    requires CacheInv(c)
    ensures var c' := Step(c, l, RememberRoute(key, p));
            if !p.H1Only? && !p.H2Available? then c' == c
            else
              var e := Evict(c, l);
              && UsedNow(c, c', key) && c'.generation == e.generation
              && (key in e.origins ==> c'.origins == e.origins[key := Origin(e.origins[key].gate, p, c.now)]
                                       && c'.gates == c.gates)
              && (key !in e.origins ==> c'.origins == e.origins[key := Origin(c.gates, p, c.now)]
                                        && c'.gates == c.gates + 1)
  {
    EvictKeeps(c, l);
  }

  lemma ClockAndGates(c: Cache, l: Limits, d: nat, g: GateId)
    ensures Step(c, l, Tick(d)) == c.(now := c.now + d)
    ensures Step(c, l, Block(g)) == c.(blocked := c.blocked + {g})
    ensures Step(c, l, Unblock(g)) == c.(blocked := c.blocked - {g})
  {
  }

  /** On any cache a pass drops nodes of the list that have no origin. */
  lemma {:induction false} StrangersGo(c: Cache, l: Limits, i: nat)
    requires i <= |c.lru| && forall k :: 0 <= k < i ==> c.lru[k] !in c.origins
    ensures EvictFrom(c, l, i) == c.(lru := c.lru[i..])
    decreases i
  {
    if i > 0 {
      var rest := RemoveAt(c.lru, i - 1);
      assert rest[..i - 1] == c.lru[..i - 1] && rest[i - 1..] == c.lru[i..];
      forall k | 0 <= k < i - 1
        ensures rest[k] !in c.origins
      {
        assert rest[k] == c.lru[k];
      }
      StrangersGo(c.(lru := rest), l, i - 1);
    }
  }
}
