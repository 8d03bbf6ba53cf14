/** The Cookie header holds exactly the unexpired cookies that match the request. */
module CookieHeaders {
  import opened Runs
  import opened Sequences
  import opened CookieMatching
  import opened CookieJars
  import opened CookieJarLaws

  /** What the request is entitled to, cookie by cookie and without regard to jars. */
  predicate Entitled(c: Cookie, url: Url, now: int) {
    && (if c.hostOnly then Lower(url.host) == c.domain else DomainMatch(url.host, c.domain))
    && PathMatch(url.path, c.path)
    && (c.expires.Until? ==> now < c.expires.time)
  }

  /** `c` is a cookie of the store with its use noted. */
  ghost predicate NotedFrom(jars: Jars, c: Cookie, url: Url, now: int) {
    exists d, x :: d in jars && x in jars[d] && Entitled(x, url, now) && c == x.(lastUsed := now)
  }

  /** No two cookies have the same domain, name and path. */
  ghost predicate Separate(cookies: seq<Cookie>) {
    cookies != [] ==> Apart(cookies[1..], cookies[0]) && Separate(cookies[1..])
  }

  ghost predicate Apart(cookies: seq<Cookie>, c: Cookie) {
    forall x :: x in cookies ==> x.domain != c.domain || !Same(x, c)
  }

  // ---------------------------------------------------------------------------
  // One jar
  // ---------------------------------------------------------------------------

  lemma ChosenExactly(jar: Jar, url: Url, now: int, c: Cookie)
    ensures c in Chosen(jar, url, now) <==>
              exists x :: x in jar && Sent(x, url, now) && c == x.(lastUsed := now)
  {
    var noted := Noted(jar, url, now);
    NotedTidy(jar, url, now);
    KeepTidy(noted, (c: Cookie) => Sent(c, url, now));
    if c in noted && Sent(c, url, now) {
      var i :| 0 <= i < |noted| && noted[i] == c;
      assert jar[i] in jar && Sent(jar[i], url, now);
    }
    if x :| x in jar && Sent(x, url, now) && c == x.(lastUsed := now) {
      var i :| 0 <= i < |jar| && jar[i] == x;
      assert noted[i] == c;
    }
  }

  lemma {:induction false} UniqueSeparate(cookies: seq<Cookie>)
    requires Unique(cookies)
    ensures Separate(cookies)
  {
    if cookies != [] {
      UniqueSeparate(cookies[1..]);
    }
  }

  lemma ChosenSeparate(jar: Jar, url: Url, now: int)
    requires Unique(jar)
    ensures Separate(Chosen(jar, url, now))
  {
    NotedUnique(jar, url, now);
    KeepTidy(Noted(jar, url, now), (c: Cookie) => Sent(c, url, now));
    UniqueSeparate(Chosen(jar, url, now));
  }

  // ---------------------------------------------------------------------------
  // All jars
  // ---------------------------------------------------------------------------

  lemma {:induction false} ChosenAllExactly(jars: Jars, order: seq<string>, url: Url, now: int, c: Cookie)
    ensures c in ChosenAll(jars, order, url, now) <==>
              exists d :: d in order && DomainMatch(url.host, d) && c in Chosen(JarOf(jars, d), url, now)
    decreases |order|
  {
    if order != [] {
      ChosenAllExactly(jars, order[1..], url, now, c);
      assert order == [order[0]] + order[1..];
    }
  }

  lemma {:induction false} ConcatSeparate(a: seq<Cookie>, b: seq<Cookie>)
    requires Separate(a) && Separate(b) && forall x :: x in a ==> Apart(b, x)
    ensures Separate(a + b)
    decreases |a|
  {
    if a == [] {
      assert a + b == b;
    } else {
      assert (a + b)[1..] == a[1..] + b;
      assert a[0] in a;
      ConcatSeparate(a[1..], b);
    }
  }

  lemma ListedOnce(order: seq<string>, jars: Jars)
    requires Lists(order, jars)
    ensures NoRepeats(order)
  {
    forall i, j | 0 <= i < j < |order|
      ensures order[i] != order[j]
    {
      assert order == order[..i] + [order[i]] + order[i + 1..j] + [order[j]] + order[j + 1..];
      assert multiset(jars.Keys)[order[i]] <= 1;
    }
  }

  /** Every cookie that goes out for the domains in `order` has one of them as its domain. */
  lemma ChosenDomain(jars: Jars, order: seq<string>, url: Url, now: int, limit: nat, c: Cookie)
    requires JarsOk(jars, now, limit) && c in ChosenAll(jars, order, url, now)
    ensures c.domain in order
  {
    ChosenAllExactly(jars, order, url, now, c);
    var d :| d in order && DomainMatch(url.host, d) && c in Chosen(JarOf(jars, d), url, now);
    ChosenOwn(jars, d, url, now, limit, c);
  }

  lemma ChosenOwn(jars: Jars, d: string, url: Url, now: int, limit: nat, c: Cookie)
    requires JarsOk(jars, now, limit) && c in Chosen(JarOf(jars, d), url, now)
    ensures c.domain == d
  {
    ChosenExactly(JarOf(jars, d), url, now, c);
    var x :| x in JarOf(jars, d) && Sent(x, url, now) && c == x.(lastUsed := now);
    assert JarOk(jars[d], d, now, limit);
    assert Own(x, d, now);
  }

  lemma {:induction false} ChosenAllSeparate(jars: Jars, order: seq<string>, url: Url, now: int, limit: nat)
    requires JarsOk(jars, now, limit) && NoRepeats(order)
    ensures Separate(ChosenAll(jars, order, url, now))
    decreases |order|
  {
    if order != [] {
      var rest := ChosenAll(jars, order[1..], url, now);
      HeadOnce(order);
      ChosenAllSeparate(jars, order[1..], url, now, limit);
      if DomainMatch(url.host, order[0]) {
        var first := Chosen(JarOf(jars, order[0]), url, now);
        assert order[0] in jars ==> JarOk(jars[order[0]], order[0], now, limit);
        ChosenSeparate(JarOf(jars, order[0]), url, now);
        forall x | x in first
          ensures Apart(rest, x)
        {
          ChosenOwn(jars, order[0], url, now, limit, x);
          forall y | y in rest
            ensures y.domain != x.domain
          {
            ChosenDomain(jars, order[1..], url, now, limit, y);
          }
        }
        ConcatSeparate(first, rest);
      } else {
        assert [] + rest == rest;
      }
    }
  }

  /** A cookie in its own jar passes the two tests of the header loop exactly when the
      request is entitled to it. */
  lemma JarTestIsEntitlement(x: Cookie, url: Url, now: int)
    ensures DomainMatch(url.host, x.domain) && Sent(x, url, now) <==> Entitled(x, url, now)
  {
    if x.hostOnly && Lower(url.host) == x.domain {
      OwnDomainMatches(url.host, x.domain);
    }
  }

  lemma SentIsEntitled(jars: Jars, order: seq<string>, url: Url, now: int, limit: nat, c: Cookie)
    requires JarsOk(jars, now, limit) && Covers(order, jars)
    ensures c in ChosenAll(jars, order, url, now) <==> NotedFrom(jars, c, url, now)
  {
    ChosenAllExactly(jars, order, url, now, c);
    if c in ChosenAll(jars, order, url, now) {
      var d :| d in order && DomainMatch(url.host, d) && c in Chosen(JarOf(jars, d), url, now);
      ChosenExactly(JarOf(jars, d), url, now, c);
      var x :| x in JarOf(jars, d) && Sent(x, url, now) && c == x.(lastUsed := now);
      assert JarOk(jars[d], d, now, limit) && Own(x, d, now);
      JarTestIsEntitlement(x, url, now);
    }
    if NotedFrom(jars, c, url, now) {
      var d, x :| d in jars && x in jars[d] && Entitled(x, url, now) && c == x.(lastUsed := now);
      assert JarOk(jars[d], d, now, limit) && Own(x, d, now);
      JarTestIsEntitlement(x, url, now);
      ChosenExactly(JarOf(jars, d), url, now, c);
    }
  }

  /** Pruning takes nothing that a request is entitled to. */
  lemma PruneKeepsEntitled(jars: Jars, url: Url, now: int, c: Cookie)
    ensures NotedFrom(Prune(jars, now), c, url, now) <==> NotedFrom(jars, c, url, now)
  {
    if NotedFrom(jars, c, url, now) {
      var d, x :| d in jars && x in jars[d] && Entitled(x, url, now) && c == x.(lastUsed := now);
      LiveTidy(jars[d], now);
      assert x in Prune(jars, now)[d];
    }
    if NotedFrom(Prune(jars, now), c, url, now) {
      var d, x :| d in Prune(jars, now) && x in Prune(jars, now)[d] && Entitled(x, url, now) && c == x.(lastUsed := now);
      LiveTidy(jars[d], now);
    }
  }

  lemma HeaderFrom(s: Store, l: Limits, url: Url, now: int, order: seq<string>)
    requires StoreInv(s, l) && s.now <= now && Lists(order, Prune(s.jars, now))
    ensures var sent := ChosenAll(Prune(s.jars, now), order, url, now);
            && (forall c :: c in sent <==> NotedFrom(s.jars, c, url, now))
            && Separate(sent)
  {
    var pruned := Prune(s.jars, now);
    var sent := ChosenAll(pruned, order, url, now);
    PruneOk(s.jars, s.now, now, l.perDomain);
    ListsCovers(order, pruned);
    forall c
      ensures c in sent <==> NotedFrom(s.jars, c, url, now)
    {
      SentIsEntitled(pruned, order, url, now, l.perDomain, c);
      PruneKeepsEntitled(s.jars, url, now, c);
    }
    ListedOnce(order, pruned);
    ChosenAllSeparate(pruned, order, url, now, l.perDomain);
  }

  /** After every sequence of calls, and whatever the order in which the jars are walked,
      the cookies in the header are exactly those that the request is entitled to, each
      once. */
  lemma HeaderIsExact(l: Limits, es: seq<Event>, url: Url, elapsed: nat, order: seq<string>)
    requires var s := Run(NextStore(l), EMPTY_STORE, es); Lists(order, Prune(s.jars, s.now + elapsed))
    ensures var s := Run(NextStore(l), EMPTY_STORE, es);
            var now := s.now + elapsed;
            var sent := ChosenAll(Prune(s.jars, now), order, url, now);
            && (forall c :: c in sent <==> NotedFrom(s.jars, c, url, now))
            && Separate(sent)
  {
    StoreAlways(l, es);
    var s := Run(NextStore(l), EMPTY_STORE, es);
    HeaderFrom(s, l, url, s.now + elapsed, order);
  }

  lemma Stored(jars: Jars, d: string, x: Cookie, url: Url, now: int)
    requires d in jars && x in jars[d] && Entitled(x, url, now)
    ensures NotedFrom(jars, x.(lastUsed := now), url, now)
  {
  }

  lemma SetSingle(jars: Jars, line: Line, url: Url, limit: nat, now: int)
    requires line.name != ""
    ensures SetAll(jars, [line], url, limit, now) == SetOne(jars, DraftOf(line, url, now), limit)
  {
    var set1 := SetOne(jars, DraftOf(line, url, now), limit);
    assert [line][1..] == [] && SetAll(set1, [], url, limit, now) == set1;
  }

  lemma Added(s: Store, l: Limits, url: Url, lines: seq<Line>, order: seq<string>, elapsed: nat, jars: Jars)
    requires jars == BeforeTrim(s, l, url, lines, s.now + elapsed) && Lists(order, jars)
    ensures Step(s, l, Add(url, lines, order, elapsed)).jars == TrimDomains(jars, l.domains, order)
  {
  }

  lemma SetBeforeTrim(s: Store, l: Limits, url: Url, line: Line, now: int)
    requires line.name != ""
    ensures BeforeTrim(s, l, url, [line], now) == SetOne(Prune(s.jars, now), DraftOf(line, url, now), l.perDomain)
  {
    SetSingle(Prune(s.jars, now), line, url, l.perDomain, now);
  }

  // ---------------------------------------------------------------------------
  // How long a cookie is sent
  // ---------------------------------------------------------------------------

  /** The last attribute that gives the cookie a life. */
  function LifeOf(line: Line): int {
    Last(line.attributes, IsLife)
  }

  /** The cookie belongs to host and path. */
  predicate Reaches(c: Cookie, url: Url) {
    && (if c.hostOnly then Lower(url.host) == c.domain else DomainMatch(url.host, c.domain))
    && PathMatch(url.path, c.path)
  }

  lemma {:induction false} UniqueOne(jar: Jar, a: Cookie, b: Cookie)
    requires Unique(jar) && a in jar && b in jar && Same(a, b)
    ensures a == b
  {
    assert jar == [jar[0]] + jar[1..];
    if a in jar[1..] && b in jar[1..] {
      UniqueOne(jar[1..], a, b);
    }
  }

  /** A cookie that the store holds is among those sent exactly if the request is entitled
      to it. */
  lemma StoredIsSentExactly(s: Store, l: Limits, c: Cookie, url: Url, now: int, sent: seq<Cookie>)
    requires StoreInv(s, l) && c.domain in s.jars && c in s.jars[c.domain]
    requires forall x :: x in sent <==> NotedFrom(s.jars, x, url, now)
    ensures Entitled(c, url, now) ==> c.(lastUsed := now) in sent
    ensures (exists x :: x in sent && x.domain == c.domain && Same(x, c)) <==> Entitled(c, url, now)
  {
    if Entitled(c, url, now) {
      Stored(s.jars, c.domain, c, url, now);
      assert c.(lastUsed := now) in sent;
    }
    if x :| x in sent && x.domain == c.domain && Same(x, c) {
      var d, y :| d in s.jars && y in s.jars[d] && Entitled(y, url, now) && x == y.(lastUsed := now);
      assert JarOk(s.jars[d], d, s.now, l.perDomain) && Own(y, d, s.now);
      UniqueOne(s.jars[d], y, c);
    }
  }

  /** The store after one line, when its jar outlasts the cut to the number of domains. */
  lemma SetIsThere(s: Store, l: Limits, url: Url, line: Line, order: seq<string>, elapsed: nat, jars: Jars, d: Draft)
    requires StoreInv(s, l) && l.perDomain > 0 && line.name != ""
    requires d == DraftOf(line, url, s.now + elapsed) && !d.delete
    requires jars == BeforeTrim(s, l, url, [line], s.now + elapsed) && Lists(order, jars)
    requires d.cookie.domain in TrimDomains(jars, l.domains, order)
    ensures var s' := Step(s, l, Add(url, [line], order, elapsed));
            && StoreInv(s', l) && s'.now == s.now + elapsed
            && d.cookie.domain in s'.jars && d.cookie in s'.jars[d.cookie.domain]
  {
    var t := s.now + elapsed;
    AddOk(s, l, url, [line], order, elapsed);
    Added(s, l, url, [line], order, elapsed, jars);
    SetBeforeTrim(s, l, url, line, t);
    PruneOk(s.jars, s.now, t, l.perDomain);
    DraftSound(line, url, t);
    SetOneOk(Prune(s.jars, t), d, t, l.perDomain);
    ListsCovers(order, jars);
    TrimDomainsOk(jars, l.domains, order);
  }

  /** A cookie that has just been set, and whose jar is not one of those that the number of
      domains costs, is in the store: any request entitled to it gets it.  `jars` is the
      store before it is cut to that number. */
  lemma SetThenSent(s: Store, l: Limits, url: Url, line: Line, order: seq<string>, elapsed: nat,
                    jars: Jars, d: Draft, later: Url, now: int)
    requires StoreInv(s, l) && l.perDomain > 0 && line.name != ""
    requires d == DraftOf(line, url, s.now + elapsed) && !d.delete && Entitled(d.cookie, later, now)
    requires jars == BeforeTrim(s, l, url, [line], s.now + elapsed) && Lists(order, jars)
    requires d.cookie.domain in TrimDomains(jars, l.domains, order)
    ensures NotedFrom(Step(s, l, Add(url, [line], order, elapsed)).jars, d.cookie.(lastUsed := now), later, now)
  {
    SetIsThere(s, l, url, line, order, elapsed, jars, d);
    Stored(Step(s, l, Add(url, [line], order, elapsed)).jars, d.cookie.domain, d.cookie, later, now);
  }

  /** The cookie is alive at `now` if it has no end, or not yet reached it. */
  lemma SentWhileAlive(s: Store, l: Limits, c: Cookie, later: Url, now: int, order: seq<string>)
    requires StoreInv(s, l) && c.domain in s.jars && c in s.jars[c.domain] && Reaches(c, later)
    requires s.now <= now && Lists(order, Prune(s.jars, now))
    ensures var sent := ChosenAll(Prune(s.jars, now), order, later, now);
            var alive := c.expires.Until? ==> now < c.expires.time;
            && ((exists x :: x in sent && x.domain == c.domain && Same(x, c)) <==> alive)
            && (alive ==> c.(lastUsed := now) in sent)
  {
    HeaderFrom(s, l, later, now, order);
    StoredIsSentExactly(s, l, c, later, now, ChosenAll(Prune(s.jars, now), order, later, now));
  }

  /** The line was added to s at time t, giving s', and its jar outlasted the cut to the
      number of domains. */
  ghost predicate JustSet(s: Store, l: Limits, url: Url, line: Line, order: seq<string>, t: int, d: Draft, s': Store) {
    && StoreInv(s, l) && l.perDomain > 0 && line.name != "" && s.now <= t
    && d == DraftOf(line, url, t) && !d.delete
    && Lists(order, BeforeTrim(s, l, url, [line], t))
    && d.cookie.domain in TrimDomains(BeforeTrim(s, l, url, [line], t), l.domains, order)
    && s' == Step(s, l, Add(url, [line], order, t - s.now))
  }

  lemma JustSetHolds(s: Store, l: Limits, url: Url, line: Line, order: seq<string>, t: int, d: Draft, s': Store)
    requires JustSet(s, l, url, line, order, t, d, s')
    ensures StoreInv(s', l) && s'.now == t && d.cookie.domain in s'.jars && d.cookie in s'.jars[d.cookie.domain]
    ensures d == DraftOf(line, url, t)
  {
    SetIsThere(s, l, url, line, order, t - s.now, BeforeTrim(s, l, url, [line], t), d);
  }

  /** A cookie set at time t goes to a request that it reaches, with its value, exactly until
      t plus its last positive Max-Age, and for good without one. */
  lemma SentUntilMaxAge(s: Store, l: Limits, url: Url, line: Line, order: seq<string>, t: int, d: Draft, s': Store,
                        later: Url, now: int, order': seq<string>)
    requires JustSet(s, l, url, line, order, t, d, s') && Reaches(d.cookie, later)
    requires t <= now && Lists(order', Prune(s'.jars, now))
    ensures var sent := ChosenAll(Prune(s'.jars, now), order', later, now);
            var k := LifeOf(line);
            var alive := k >= 0 ==> now < t + line.attributes[k].seconds.value;
            && ((exists x :: x in sent && x.domain == d.cookie.domain && Same(x, d.cookie)) <==> alive)
            && (alive ==> d.cookie.(lastUsed := now) in sent)
            && d.cookie.name == line.name && d.cookie.value == line.value
  {
    JustSetHolds(s, l, url, line, order, t, d, s');
    LifeCarried(line, url, t, d);
    SentWhileAlive(s', l, d.cookie, later, now, order');
  }

  lemma LifeCarried(line: Line, url: Url, t: int, d: Draft)
    requires d == DraftOf(line, url, t)
    ensures d.cookie.name == line.name && d.cookie.value == line.value
    ensures var k := LifeOf(line);
            d.cookie.expires == if k >= 0 then Until(t + line.attributes[k].seconds.value) else Session
  {
    DraftCarries(line, url, t);
  }

  /** A call of cookie_header notes the use of exactly the cookies that it sends. */
  lemma UseNotedExactly(jars: Jars, url: Url, now: int, limit: nat, d: string, i: nat)
    requires JarsOk(jars, now, limit) && d in jars && i < |jars[d]|
    ensures |NotedAll(jars, url, now)[d]| == |jars[d]|
    ensures NotedAll(jars, url, now)[d][i] ==
            if Entitled(jars[d][i], url, now) then jars[d][i].(lastUsed := now) else jars[d][i]
  {
    var x := jars[d][i];
    assert JarOk(jars[d], d, now, limit) && x in jars[d];
    assert Own(x, d, now);
    JarTestIsEntitlement(x, url, now);
    NotedTidy(jars[d], url, now);
  }

  /** Every call first drops exactly the cookies whose end has come, and jars left empty. */
  lemma PrunedExactly(jars: Jars, now: int, d: string, x: Cookie)
    ensures d in Prune(jars, now) && x in Prune(jars, now)[d] <==>
              d in jars && x in jars[d] && (x.expires.Until? ==> now < x.expires.time)
  {
    if d in jars {
      LiveTidy(jars[d], now);
    }
  }
}
