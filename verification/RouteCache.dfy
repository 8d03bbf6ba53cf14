/** The thread-local cache of routes: 64 slots, filled in rotation, each stamped with the
    generation of the origin cache of the client that filled it. */
module RouteCaches {
  import opened FiniteSets
  import opened Runs
  import opened OriginGates
  import C = OriginCaches

  const SLOTS := 64

  /** `origins` is not a field of the source: it is the set of origins that were cached
      when the slot was filled. */
  datatype Route = Route(
    owner: nat,
    url: string,
    origin: C.Key,
    protocol: Protocol,
    lastUsed: int,
    generation: nat,
    origins: set<C.Key>)

  datatype Slot = Free | Filled(route: Route)

  datatype Routes = Routes(slots: seq<Slot>, cursor: nat)

  const NO_ROUTES := Routes(seq(SLOTS, _ => Free), 0)

  // ---------------------------------------------------------------------------
  // Lookup and store
  // ---------------------------------------------------------------------------

  predicate Matches(s: Slot, owner: nat, url: string) {
    s.Filled? && s.route.owner == owner && s.route.url != "" && s.route.url == url
  }

  /** The first slot that matches. */
  function Match(slots: seq<Slot>, owner: nat, url: string): (i: nat)
    ensures i <= |slots| && (i < |slots| ==> Matches(slots[i], owner, url))
    ensures forall j :: 0 <= j < i ==> !Matches(slots[j], owner, url)
  {
    if slots == [] || Matches(slots[0], owner, url) then 0 else 1 + Match(slots[1..], owner, url)
  }

  predicate Stale(r: Route, ttl: int, generation: nat, now: int) {
    r.generation != generation || (ttl > 0 && now - r.lastUsed >= ttl)
  }

  datatype Answer = Miss | Hit(route: Route)

  function Lookup(r: Routes, owner: nat, url: string, ttl: int, generation: nat, now: int): (Routes, Answer) {
    var i := Match(r.slots, owner, url);
    if i == |r.slots| then (r, Miss)
    else
      var route := r.slots[i].route;
      if Stale(route, ttl, generation, now) then (r.(slots := r.slots[i := Free]), Miss)
      else
        var used := route.(lastUsed := now);
        (r.(slots := r.slots[i := Filled(used)]), Hit(used))
  }

  function Store(r: Routes, route: Route): Routes {
    if r.slots == [] then r
    else r.(slots := r.slots[r.cursor % |r.slots| := Filled(route)], cursor := r.cursor + 1)
  }

  // ---------------------------------------------------------------------------
  // One client's origin cache and one thread's routes
  // ---------------------------------------------------------------------------

  /** The client under study owns its routes as `ME`; others share the slots. */
  const ME: nat := 0

  datatype World = World(cache: C.Cache, routes: Routes)

  datatype Event =
    | Cache(e: C.Event)
    | StoreMine(url: string, origin: C.Key, protocol: Protocol)
    | StoreOther(route: Route)
    | LookupAny(owner: nat, url: string, generation: nat)
    | LookupMine(url: string)

  function Step(w: World, l: C.Limits, e: Event): World {
    match e
    case Cache(ce) => w.(cache := C.Step(w.cache, l, ce))
    case StoreMine(url, origin, protocol) =>
      w.(routes := Store(w.routes,
           Route(ME, url, origin, protocol, w.cache.now, w.cache.generation, w.cache.origins.Keys)))
    case StoreOther(route) => if route.owner == ME then w else w.(routes := Store(w.routes, route))
    case LookupAny(owner, url, generation) =>
      if owner == ME then w else w.(routes := Lookup(w.routes, owner, url, l.ttl, generation, w.cache.now).0)
    case LookupMine(url) => w.(routes := Lookup(w.routes, ME, url, l.ttl, w.cache.generation, w.cache.now).0)
  }

  function NextWorld(l: C.Limits): (World, Event) -> World {
    (w: World, e: Event) => Step(w, l, e)
  }

  const NEW_WORLD := World(C.EMPTY_CACHE, NO_ROUTES)

  // ---------------------------------------------------------------------------
  // A hit means that nothing has been evicted since
  // ---------------------------------------------------------------------------

  /** A route of mine is no newer than the cache, and while no eviction has happened since
      it was stored every origin that was cached then still is. */
  ghost predicate SlotHonest(s: Slot, c: C.Cache) {
    s.Filled? && s.route.owner == ME ==>
      && s.route.generation <= c.generation
      && (s.route.generation == c.generation ==> s.route.origins <= c.origins.Keys)
  }

  ghost predicate Honest(slots: seq<Slot>, c: C.Cache) {
    forall i :: 0 <= i < |slots| ==> SlotHonest(slots[i], c)
  }

  ghost predicate WorldInv(w: World) {
    C.CacheInv(w.cache) && |w.routes.slots| == SLOTS && Honest(w.routes.slots, w.cache)
  }

  /** The generation grows with every eviction and only then; otherwise origins stay. */
  ghost predicate Ahead(c: C.Cache, d: C.Cache) {
    && c.generation <= d.generation
    && (c.generation == d.generation ==> c.origins.Keys <= d.origins.Keys)
  }

  lemma RemainderAhead(c: C.Cache, r: C.Cache)
    requires C.Remainder(c, r)
    ensures Ahead(c, r)
  {
    assert r.origins.Keys <= c.origins.Keys;
    SubsetCount(r.origins.Keys, c.origins.Keys);
    if c.generation == r.generation {
      assert |r.origins.Keys| == |c.origins.Keys|;
      SubsetSize(r.origins.Keys, c.origins.Keys);
    }
  }

  lemma EvictAhead(c: C.Cache, l: C.Limits, d: C.Cache, key: C.Key)
    requires C.CacheInv(c)
    requires d.origins.Keys == C.Evict(c, l).origins.Keys + {key} && d.generation == C.Evict(c, l).generation
    ensures Ahead(c, d)
  {
    C.EvictKeeps(c, l);
    RemainderAhead(c, C.Evict(c, l));
  }

  lemma GetGateAhead(c: C.Cache, l: C.Limits, key: C.Key)
    requires C.CacheInv(c)
    ensures Ahead(c, C.Step(c, l, C.GetGate(key)))
  {
    if key !in c.origins {
      C.EvictKeeps(c, l);
      C.InsertKeeps(C.Evict(c, l), key);
      EvictAhead(c, l, C.Step(c, l, C.GetGate(key)), key);
    }
  }

  lemma RememberAhead(c: C.Cache, l: C.Limits, key: C.Key, p: Protocol)
    requires C.CacheInv(c)
    ensures Ahead(c, C.Step(c, l, C.RememberRoute(key, p)))
  {
    if p.H1Only? || p.H2Available? {
      C.EvictKeeps(c, l);
      C.RememberKeeps(C.Evict(c, l), key, p);
      EvictAhead(c, l, C.Step(c, l, C.RememberRoute(key, p)), key);
    }
  }

  lemma StepAhead(c: C.Cache, l: C.Limits, e: C.Event)
    requires C.CacheInv(c)
    ensures Ahead(c, C.Step(c, l, e))
  {
    match e
    case GetGate(key) => GetGateAhead(c, l, key);
    case RememberRoute(key, p) => RememberAhead(c, l, key, p);
    case _ =>
  }

  lemma HonestAhead(slots: seq<Slot>, c: C.Cache, d: C.Cache)
    requires Honest(slots, c) && Ahead(c, d)
    ensures Honest(slots, d)
  {
    forall i | 0 <= i < |slots|
      ensures SlotHonest(slots[i], d)
    {
      assert SlotHonest(slots[i], c);
    }
  }

  lemma LookupHonest(r: Routes, c: C.Cache, owner: nat, url: string, ttl: int, generation: nat)
    requires Honest(r.slots, c)
    ensures Honest(Lookup(r, owner, url, ttl, generation, c.now).0.slots, c)
  {
    var i := Match(r.slots, owner, url);
    assert i < |r.slots| ==> SlotHonest(r.slots[i], c);
  }

  lemma StepHonest(w: World, l: C.Limits, e: Event)
    requires WorldInv(w)
    ensures WorldInv(Step(w, l, e))
  {
    match e
    case Cache(ce) =>
      C.StepKeeps(w.cache, l, ce);
      StepAhead(w.cache, l, ce);
      HonestAhead(w.routes.slots, w.cache, C.Step(w.cache, l, ce));
    case LookupAny(owner, url, generation) => LookupHonest(w.routes, w.cache, owner, url, l.ttl, generation);
    case LookupMine(url) => LookupHonest(w.routes, w.cache, ME, url, l.ttl, w.cache.generation);
    case _ =>
  }

  lemma WorldAlways(l: C.Limits, es: seq<Event>)
    ensures WorldInv(Run(NextWorld(l), NEW_WORLD, es))
  {
    forall w, e | WorldInv(w)
      ensures WorldInv(NextWorld(l)(w, e))
    {
      StepHonest(w, l, e);
    }
    Always(NextWorld(l), WorldInv, NEW_WORLD, es);
  }

  /** After any run of cache operations, stores and lookups, a hit is a route stored in
      the present generation and not expired: no origin has been evicted since, and every
      origin cached when it was stored is cached still. */
  lemma HitMeansNoEviction(l: C.Limits, es: seq<Event>, url: string)
    ensures var w := Run(NextWorld(l), NEW_WORLD, es);
            var a := Lookup(w.routes, ME, url, l.ttl, w.cache.generation, w.cache.now).1;
            a.Hit? ==>
              && a.route.owner == ME && a.route.url == url && a.route.generation == w.cache.generation
              && a.route.origins <= w.cache.origins.Keys
              && (exists i :: 0 <= i < |w.routes.slots| && w.routes.slots[i].Filled?
                              && w.routes.slots[i].route == a.route.(lastUsed := w.routes.slots[i].route.lastUsed)
                              && (l.ttl > 0 ==> w.cache.now - w.routes.slots[i].route.lastUsed < l.ttl))
  {
    WorldAlways(l, es);
    var w := Run(NextWorld(l), NEW_WORLD, es);
    var i := Match(w.routes.slots, ME, url);
    if i < SLOTS {
      assert SlotHonest(w.routes.slots[i], w.cache);
    }
  }

  /** A stored route is found at once if and only if no match sits in an earlier slot, or
      the first one there is neither stale nor different. */
  lemma StoredIsFoundExactly(r: Routes, route: Route, ttl: int)
    requires r.slots != [] && route.url != ""
    ensures var i := Match(r.slots, route.owner, route.url);
            Lookup(Store(r, route), route.owner, route.url, ttl, route.generation, route.lastUsed).1 == Hit(route)
            <==>
            || i >= r.cursor % |r.slots|
            || (!Stale(r.slots[i].route, ttl, route.generation, route.lastUsed)
                && r.slots[i].route.(lastUsed := route.lastUsed) == route)
  {
    var k := r.cursor % |r.slots|;
    var s := Store(r, route).slots;
    var i := Match(r.slots, route.owner, route.url);
    var j := Match(s, route.owner, route.url);
    assert Matches(s[k], route.owner, route.url);
    if i < k {
      assert Matches(s[i], route.owner, route.url);
      assert j == i;
    } else {
      assert j == k;
    }
  }

  /** A hit renews its route: a look-up of the same address before the time to live has gone
      by since, with the generation unchanged, is a hit on the same route again. */
  lemma HitRenews(r: Routes, owner: nat, url: string, ttl: int, generation: nat, now: int, later: int)
    requires Lookup(r, owner, url, ttl, generation, now).1.Hit? && (ttl > 0 ==> later - now < ttl)
    ensures var first := Lookup(r, owner, url, ttl, generation, now);
            Lookup(first.0, owner, url, ttl, generation, later).1 == Hit(first.1.route.(lastUsed := later))
  {
    var i := Match(r.slots, owner, url);
    var slots := Lookup(r, owner, url, ttl, generation, now).0.slots;
    assert Matches(slots[i], owner, url);
    assert Match(slots, owner, url) == i;
  }

  /** A look-up changes at most the slot of the first match: it notes a hit there and frees a
      stale one, after which the route is not found any more in that slot. */
  lemma LookupTouchesOne(r: Routes, owner: nat, url: string, ttl: int, generation: nat, now: int, j: nat)
    requires j < |r.slots|
    ensures var (r', a) := Lookup(r, owner, url, ttl, generation, now);
            var i := Match(r.slots, owner, url);
            && |r'.slots| == |r.slots| && r'.cursor == r.cursor
            && (j != i ==> r'.slots[j] == r.slots[j])
            && (j == i && a.Hit? ==> r'.slots[j] == Filled(r.slots[j].route.(lastUsed := now)))
            && (j == i && a.Miss? ==> r'.slots[j] == Free)
            && (a.Hit? <==> i < |r.slots| && r.slots[i].route.generation == generation
                            && (ttl > 0 ==> now - r.slots[i].route.lastUsed < ttl))
  {
  }

  function StoreAll(r: Routes, routes: seq<Route>): Routes
    decreases |routes|
  {
    if routes == [] then r else StoreAll(Store(r, routes[0]), routes[1..])
  }

  lemma {:induction false} SpareSlot(r: Routes, routes: seq<Route>, base: nat, done: nat)
    requires |r.slots| == SLOTS && r.cursor == base + 1 + done && done + |routes| < SLOTS
    ensures var r' := StoreAll(r, routes);
            |r'.slots| == SLOTS && r'.slots[base % SLOTS] == r.slots[base % SLOTS]
    decreases |routes|
  {
    if routes != [] {
      assert (base + 1 + done) % SLOTS != base % SLOTS;
      SpareSlot(Store(r, routes[0]), routes[1..], base, done + 1);
    }
  }

  /** A stored route stays in its slot until as many others have been stored as there are
      slots: 64 of them. */
  lemma StoredStays(r: Routes, route: Route, others: seq<Route>)
    requires |r.slots| == SLOTS && |others| < SLOTS
    ensures var r' := StoreAll(Store(r, route), others);
            |r'.slots| == SLOTS && r'.slots[r.cursor % SLOTS] == Filled(route)
  {
    SpareSlot(Store(r, route), others, r.cursor, 0);
  }

  /** Routes of other clients share the slots, and each event touches the cache or the routes
      and not both. */
  lemma WorldMeans(w: World, l: C.Limits, e: Event)
    ensures var w' := Step(w, l, e);
            match e
            case Cache(ce) => w' == w.(cache := C.Step(w.cache, l, ce))
            case StoreMine(url, origin, protocol) =>
              w' == w.(routes := Store(w.routes, Route(ME, url, origin, protocol, w.cache.now, w.cache.generation,
                                                       w.cache.origins.Keys)))
            case StoreOther(route) => route.owner != ME ==> w' == w.(routes := Store(w.routes, route))
            case LookupAny(owner, url, generation) =>
              owner != ME ==> w' == w.(routes := Lookup(w.routes, owner, url, l.ttl, generation, w.cache.now).0)
            case LookupMine(url) =>
              w' == w.(routes := Lookup(w.routes, ME, url, l.ttl, w.cache.generation, w.cache.now).0)
  {
  }

  /** One origin remembered for a protocol, as the client does on each answer: the origin
      cache first, and then the thread's routes. */
  function Remembered(url: string, origin: C.Key, protocol: Protocol): seq<Event> {
    [Cache(C.RememberRoute(origin, protocol))] + [StoreMine(url, origin, protocol)]
  }

  lemma RunRemembered(l: C.Limits, w: World, url: string, origin: C.Key, protocol: Protocol)
    ensures Run(NextWorld(l), w, Remembered(url, origin, protocol))
            == Step(Step(w, l, Cache(C.RememberRoute(origin, protocol))), l, StoreMine(url, origin, protocol))
  {
    var e, f := Cache(C.RememberRoute(origin, protocol)), StoreMine(url, origin, protocol);
    OneStep(NextWorld(l), w, e, [f]);
    OneStep(NextWorld(l), Step(w, l, e), f, []);
    assert [f] + [] == [f];
  }

  /** Nothing is evicted by remembering the only origin again at once. */
  lemma AloneStays(l: C.Limits, origin: C.Key)
    ensures var c := C.Step(C.EMPTY_CACHE, l, C.RememberRoute(origin, H2Available));
            && c.now == C.EMPTY_CACHE.now && c.generation == C.EMPTY_CACHE.generation
            && C.Step(c, l, C.RememberRoute(origin, H1Only)).generation == c.generation
            && C.Step(c, l, C.RememberRoute(origin, H1Only)).now == c.now
  {
    var c := C.Step(C.EMPTY_CACHE, l, C.RememberRoute(origin, H2Available));
    assert c.lru == [origin] && c.origins.Keys == {origin} && c.origins[origin].lastUsed == c.now;
    assert |c.origins| == 1;
    assert C.Evict(c, l) == c;
  }

  lemma FirstSlotAnswers(l: C.Limits, w: World, route: Route, later: Route)
    requires w.routes == Store(Store(NO_ROUTES, route), later)
    requires route.url != "" && route.owner == ME
    requires route.generation == w.cache.generation && route.lastUsed == w.cache.now
    ensures Lookup(w.routes, ME, route.url, l.ttl, w.cache.generation, w.cache.now).1 == Hit(route)
  {
    assert w.routes.slots[0] == Filled(route);
    assert Matches(w.routes.slots[0], ME, route.url);
    assert Match(w.routes.slots, ME, route.url) == 0;
  }

  /** The same route remembered twice, with another protocol the second time: the look-up
      answers with the first, while the origin cache holds the second. */
  lemma OlderRouteWins(l: C.Limits, url: string, origin: C.Key)
    requires url != ""
    ensures var w := Run(NextWorld(l), NEW_WORLD,
                         Remembered(url, origin, H2Available) + Remembered(url, origin, H1Only));
            var a := Lookup(w.routes, ME, url, l.ttl, w.cache.generation, w.cache.now).1;
            && a.Hit? && a.route.protocol == H2Available
            && origin in w.cache.origins && w.cache.origins[origin].protocol == H1Only
  {
    RunSplit(NextWorld(l), NEW_WORLD, Remembered(url, origin, H2Available), Remembered(url, origin, H1Only));
    RunRemembered(l, NEW_WORLD, url, origin, H2Available);
    var w1 := Run(NextWorld(l), NEW_WORLD, Remembered(url, origin, H2Available));
    RunRemembered(l, w1, url, origin, H1Only);
    AloneStays(l, origin);
    var c1 := w1.cache;
    var c2 := C.Step(c1, l, C.RememberRoute(origin, H1Only));
    var older := Route(ME, url, origin, H2Available, c1.now, c1.generation, c1.origins.Keys);
    var newer := Route(ME, url, origin, H1Only, c2.now, c2.generation, c2.origins.Keys);
    FirstSlotAnswers(l, World(c2, Store(w1.routes, newer)), older, newer);
  }

  // ---------------------------------------------------------------------------
  // The slots as an array
  // ---------------------------------------------------------------------------

  class RouteSlots {
    var slots: array<Slot>
    var cursor: nat

    ghost predicate Valid()
      reads this
    {
      slots.Length == SLOTS
    }

    ghost function State(): Routes
      reads this, slots
    {
      Routes(slots[..], cursor)
    }

    constructor ()
      ensures Valid() && State() == NO_ROUTES
    {
      slots := new Slot[SLOTS](_ => Free);
      cursor := 0;
      new;
      assert slots[..] == NO_ROUTES.slots;
    }

    method LookupRoute(owner: nat, url: string, ttl: int, generation: nat, now: int) returns (a: Answer)
      requires Valid()
      modifies slots
      ensures Valid()
      ensures (State(), a) == Lookup(old(State()), owner, url, ttl, generation, now)
    {
      var i := 0;
      while i < slots.Length
        invariant 0 <= i <= slots.Length
        invariant slots[..] == old(slots[..])
        invariant forall j :: 0 <= j < i ==> !Matches(slots[j], owner, url)
      {
        if Matches(slots[i], owner, url) {
          var route := slots[i].route;
          if Stale(route, ttl, generation, now) {
            slots[i] := Free;
            return Miss;
          }
          slots[i] := Filled(route.(lastUsed := now));
          return Hit(route.(lastUsed := now));
        }
        i := i + 1;
      }
      return Miss;
    }

    method StoreRoute(route: Route)
      requires Valid()
      modifies this, slots
      ensures Valid() && slots == old(slots) && State() == Store(old(State()), route)
    {
      slots[cursor % slots.Length] := Filled(route);
      cursor := cursor + 1;
    }
  }
}
