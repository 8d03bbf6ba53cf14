/** What every sequence of calls keeps in the cookie store, and what is sent. */
module CookieJarLaws {
  import opened Ascii
  import opened FiniteSets
  import opened Runs
  import opened CookieMatching
  import opened CookieJars

  // ---------------------------------------------------------------------------
  // One jar
  // ---------------------------------------------------------------------------

  /** A cookie in the jar of its own domain, used no later than now. */
  ghost predicate Own(c: Cookie, domain: string, now: int) {
    c.domain == domain && Lower(domain) == domain && c.lastUsed <= now
  }

  /** No cookie of the jar has the name and path of `c`. */
  ghost predicate Absent(jar: Jar, c: Cookie) {
    forall x :: x in jar ==> !Same(x, c)
  }

  /** No two cookies have the same name and path. */
  ghost predicate Unique(jar: Jar) {
    jar != [] ==> Absent(jar[1..], jar[0]) && Unique(jar[1..])
  }

  ghost predicate AllOwn(jar: Jar, domain: string, now: int) {
    forall c :: c in jar ==> Own(c, domain, now)
  }

  /** Only the limit is missing. */
  ghost predicate Tidy(jar: Jar, domain: string, now: int) {
    Unique(jar) && AllOwn(jar, domain, now)
  }

  lemma {:induction false} KeepTidy(jar: Jar, keep: Cookie -> bool)
    ensures forall c :: c in Keep(jar, keep) <==> c in jar && keep(c)
    ensures Unique(jar) ==> Unique(Keep(jar, keep))
    ensures |Keep(jar, keep)| <= |jar|
  {
    if jar != [] {
      KeepTidy(jar[1..], keep);
      assert jar == [jar[0]] + jar[1..];
      assert ([jar[0]] + Keep(jar[1..], keep))[1..] == Keep(jar[1..], keep);
    }
  }

  lemma LiveTidy(jar: Jar, now: int)
    ensures forall c :: c in Live(jar, now) <==> c in jar && !Expired(c, now)
    ensures Unique(jar) ==> Unique(Live(jar, now))
    ensures |Live(jar, now)| <= |jar|
  {
    KeepTidy(jar, (c: Cookie) => !Expired(c, now));
  }

  lemma WithoutTidy(jar: Jar, c: Cookie)
    ensures forall x :: x in Without(jar, c) <==> x in jar && !Same(x, c)
    ensures Unique(jar) ==> Unique(Without(jar, c))
    ensures |Without(jar, c)| <= |jar|
  {
    KeepTidy(jar, (x: Cookie) => !Same(x, c));
  }

  lemma {:induction false} AppendUnique(jar: Jar, c: Cookie)
    requires Unique(jar) && Absent(jar, c)
    ensures Unique(jar + [c])
    decreases |jar|
  {
    if jar != [] {
      assert (jar + [c])[1..] == jar[1..] + [c];
      AppendUnique(jar[1..], c);
      assert jar[0] in jar;
    }
  }

  lemma {:induction false} DropUnique(jar: Jar, k: nat)
    requires Unique(jar) && k < |jar|
    ensures Unique(Drop(jar, k))
    decreases |jar|
  {
    if k > 0 {
      assert Drop(jar, k)[1..] == Drop(jar[1..], k - 1);
      DropUnique(jar[1..], k - 1);
    } else {
      assert Drop(jar, 0) == jar[1..];
    }
  }

  lemma {:induction false} TrimTidy(jar: Jar, limit: nat)
    ensures forall c :: c in Trim(jar, limit) ==> c in jar
    ensures Unique(jar) ==> Unique(Trim(jar, limit))
    ensures |Trim(jar, limit)| <= limit
    decreases |jar|
  {
    if limit > 0 && |jar| > limit {
      if Unique(jar) {
        DropUnique(jar, Oldest(jar));
      }
      TrimTidy(Drop(jar, Oldest(jar)), limit);
    }
  }

  /** The last cookie of a jar is not the one to go if no other was used later. */
  lemma {:induction false} LastSurvives(jar: Jar, c: Cookie, limit: nat)
    requires limit > 0 && forall x :: x in jar ==> x.lastUsed <= c.lastUsed
    ensures c in Trim(jar + [c], limit)
    decreases |jar|
  {
    var all := jar + [c];
    if |all| > limit {
      var k := Oldest(all);
      assert all[0] in jar && k < |jar|;
      assert Drop(all, k) == Drop(jar, k) + [c];
      LastSurvives(Drop(jar, k), c, limit);
    } else {
      assert all[|jar|] == c;
    }
  }

  /** Setting a cookie replaces the one of the same name and path, keeps the jar tidy and
      within its limit, and never drops the cookie just set. */
  lemma JustSetStays(jar: Jar, c: Cookie, limit: nat, now: int)
    requires Tidy(jar, c.domain, now) && Own(c, c.domain, now) && c.lastUsed == now && limit > 0
    ensures var r := Trim(Without(jar, c) + [c], limit);
            Tidy(r, c.domain, now) && |r| <= limit && c in r && forall x :: x in r && Same(x, c) ==> x == c
  {
    var rest := Without(jar, c);
    WithoutTidy(jar, c);
    AppendUnique(rest, c);
    TrimTidy(rest + [c], limit);
    LastSurvives(rest, c, limit);
  }

  lemma {:induction false} NotedTidy(jar: Jar, url: Url, now: int)
    ensures |Noted(jar, url, now)| == |jar|
    ensures forall i :: 0 <= i < |jar| ==>
              Noted(jar, url, now)[i] == (if Sent(jar[i], url, now) then jar[i].(lastUsed := now) else jar[i])
  {
    if jar != [] {
      NotedTidy(jar[1..], url, now);
    }
  }

  lemma {:induction false} NotedUnique(jar: Jar, url: Url, now: int)
    requires Unique(jar)
    ensures Unique(Noted(jar, url, now))
  {
    if jar != [] {
      var rest := Noted(jar[1..], url, now);
      NotedUnique(jar[1..], url, now);
      assert Noted(jar, url, now)[1..] == rest;
      NotedTidy(jar[1..], url, now);
      forall x | x in rest
        ensures !Same(x, jar[0])
      {
        var i :| 0 <= i < |rest| && rest[i] == x;
        assert jar[1..][i] in jar[1..];
      }
    }
  }

  // ---------------------------------------------------------------------------
  // All jars
  // ---------------------------------------------------------------------------

  ghost predicate JarOk(jar: Jar, domain: string, now: int, limit: nat) {
    Tidy(jar, domain, now) && |jar| <= limit
  }

  ghost predicate JarsOk(jars: Jars, now: int, limit: nat) {
    forall d :: d in jars ==> JarOk(jars[d], d, now, limit)
  }

  function NonEmpty(jars: Jars): set<string> {
    set d | d in jars && jars[d] != []
  }

  ghost predicate StoreInv(s: Store, l: Limits) {
    JarsOk(s.jars, s.now, l.perDomain) && |NonEmpty(s.jars)| <= l.domains
  }

  lemma PruneOk(jars: Jars, before: int, now: int, limit: nat)
    requires JarsOk(jars, before, limit) && before <= now
    ensures JarsOk(Prune(jars, now), now, limit)
    ensures NonEmpty(Prune(jars, now)) <= NonEmpty(jars)
  {
    forall d | d in jars
      ensures JarOk(Live(jars[d], now), d, now, limit)
    {
      assert JarOk(jars[d], d, before, limit);
      LiveTidy(jars[d], now);
    }
  }

  /** A draft has a lower-case domain and is used now. */
  ghost predicate Sound(d: Draft, now: int) {
    Own(d.cookie, d.cookie.domain, now) && d.cookie.lastUsed == now
  }

  lemma {:induction false} ApplyAllSound(d: Draft, attributes: seq<Attribute>, url: Url, now: int)
    requires Sound(d, now)
    ensures Sound(ApplyAll(d, attributes, url, now), now)
    ensures ApplyAll(d, attributes, url, now).cookie.name == d.cookie.name
    decreases |attributes|
  {
    if attributes != [] {
      if attributes[0].Domain? {
        LowerTwice(attributes[0].value);
        UndottedLower(Lower(attributes[0].value));
      }
      ApplyAllSound(Apply(d, attributes[0], url, now), attributes[1..], url, now);
    }
  }

  lemma UndottedLower(d: string)
    requires Lower(d) == d
    ensures Lower(Undotted(d)) == Undotted(d)
  {
    if d != "" && d[0] == '.' {
      forall i | 0 <= i < |d| - 1
        ensures LowerChar(d[1..][i]) == d[1..][i]
      {
        assert d[1..][i] == d[i + 1] == Lower(d)[i + 1];
      }
    }
  }

  lemma DraftSound(line: Line, url: Url, now: int)
    ensures Sound(DraftOf(line, url, now), now)
    ensures DraftOf(line, url, now).cookie.name == line.name
  {
    LowerTwice(url.host);
    var c := Cookie(line.name, line.value, Lower(url.host), DefaultPath(url.path), true, Session, now);
    ApplyAllSound(Draft(c, false), line.attributes, url, now);
  }

  // ---------------------------------------------------------------------------
  // What a line says
  // ---------------------------------------------------------------------------

  /** The host may set cookies for this domain. */
  predicate AcceptsDomain(url: Url, a: Attribute) {
    a.Domain? && a.value != "" && DomainMatch(url.host, a.value)
  }

  predicate IsAbsolutePath(a: Attribute) {
    a.Path? && a.value != "" && a.value[0] == '/'
  }

  predicate IsLife(a: Attribute) {
    a.MaxAge? && a.seconds.Number? && a.seconds.value > 0
  }

  predicate IsDeath(a: Attribute) {
    a.MaxAge? && a.seconds.Number? && a.seconds.value <= 0
  }

  /** The last attribute that passes the test, or -1. */
  function Last(attributes: seq<Attribute>, test: Attribute -> bool): (i: int)
    ensures -1 <= i < |attributes|
    ensures i >= 0 ==> test(attributes[i])
    ensures forall j :: i < j < |attributes| ==> !test(attributes[j])
  {
    if attributes == [] then -1
    else if test(attributes[|attributes| - 1]) then |attributes| - 1
    else Last(attributes[..|attributes| - 1], test)
  }

  lemma LastOfMore(front: seq<Attribute>, a: Attribute, test: Attribute -> bool)
    ensures Last(front + [a], test) == if test(a) then |front| else Last(front, test)
    ensures Last(front, test) >= 0 ==> (front + [a])[Last(front, test)] == front[Last(front, test)]
  {
    var all := front + [a];
    assert all[..|all| - 1] == front && all[|all| - 1] == a;
  }

  function DomainTest(url: Url): Attribute -> bool {
    (a: Attribute) => AcceptsDomain(url, a)
  }

  lemma {:induction false} ApplyLast(d: Draft, attributes: seq<Attribute>, a: Attribute, url: Url, now: int)
    ensures ApplyAll(d, attributes + [a], url, now) == Apply(ApplyAll(d, attributes, url, now), a, url, now)
    decreases |attributes|
  {
    if attributes == [] {
      assert [a][1..] == [] && attributes + [a] == [a];
    } else {
      assert (attributes + [a])[1..] == attributes[1..] + [a];
      ApplyLast(Apply(d, attributes[0], url, now), attributes[1..], a, url, now);
    }
  }

  ghost predicate SaidDomain(attributes: seq<Attribute>, url: Url, before: Cookie, c: Cookie) {
    var i := Last(attributes, DomainTest(url));
    && c.hostOnly == (before.hostOnly && i < 0)
    && c.domain == (if i < 0 then before.domain else Undotted(Lower(attributes[i].value)))
  }

  ghost predicate SaidPath(attributes: seq<Attribute>, before: Cookie, c: Cookie) {
    var i := Last(attributes, IsAbsolutePath);
    c.path == if i < 0 then before.path else attributes[i].value
  }

  ghost predicate SaidLife(attributes: seq<Attribute>, now: int, before: Cookie, c: Cookie) {
    var i := Last(attributes, IsLife);
    c.expires == if i < 0 then before.expires else Until(now + attributes[i].seconds.value)
  }

  predicate Kept(before: Cookie, c: Cookie) {
    c.name == before.name && c.value == before.value && c.lastUsed == before.lastUsed
  }

  /** Domain, path and life come from the last attribute of each kind that counts. */
  ghost predicate SaidBy(attributes: seq<Attribute>, url: Url, now: int, before: Draft, d: Draft) {
    && Kept(before.cookie, d.cookie)
    && SaidDomain(attributes, url, before.cookie, d.cookie)
    && SaidPath(attributes, before.cookie, d.cookie)
    && SaidLife(attributes, now, before.cookie, d.cookie)
    && (d.delete <==> before.delete || Last(attributes, IsDeath) >= 0)
  }

  lemma DomainOneMore(front: seq<Attribute>, a: Attribute, url: Url, now: int, before: Cookie, d: Draft)
    requires SaidDomain(front, url, before, d.cookie)
    ensures SaidDomain(front + [a], url, before, Apply(d, a, url, now).cookie)
  {
    LastOfMore(front, a, DomainTest(url));
    if AcceptsDomain(url, a) {
      AppliedDomain(d, a, url, now);
    } else {
      KeptDomain(d, a, url, now);
    }
  }

  lemma AppliedDomain(d: Draft, a: Attribute, url: Url, now: int)
    requires AcceptsDomain(url, a)
    ensures var c := Apply(d, a, url, now).cookie; c.domain == Undotted(Lower(a.value)) && !c.hostOnly
  {
  }

  lemma KeptDomain(d: Draft, a: Attribute, url: Url, now: int)
    requires !AcceptsDomain(url, a)
    ensures var c := Apply(d, a, url, now).cookie; c.domain == d.cookie.domain && c.hostOnly == d.cookie.hostOnly
  {
  }

  lemma PathOneMore(front: seq<Attribute>, a: Attribute, url: Url, now: int, before: Cookie, d: Draft)
    requires SaidPath(front, before, d.cookie)
    ensures SaidPath(front + [a], before, Apply(d, a, url, now).cookie)
  {
    LastOfMore(front, a, IsAbsolutePath);
  }

  lemma LifeOneMore(front: seq<Attribute>, a: Attribute, url: Url, now: int, before: Cookie, d: Draft)
    requires SaidLife(front, now, before, d.cookie)
    ensures SaidLife(front + [a], now, before, Apply(d, a, url, now).cookie)
  {
    LastOfMore(front, a, IsLife);
  }

  lemma SaidByOneMore(front: seq<Attribute>, a: Attribute, url: Url, now: int, before: Draft, d: Draft)
    requires SaidBy(front, url, now, before, d)
    ensures SaidBy(front + [a], url, now, before, Apply(d, a, url, now))
  {
    DomainOneMore(front, a, url, now, before.cookie, d);
    PathOneMore(front, a, url, now, before.cookie, d);
    LifeOneMore(front, a, url, now, before.cookie, d);
    LastOfMore(front, a, IsDeath);
  }

  lemma {:induction false} ApplyAllSays(before: Draft, attributes: seq<Attribute>, url: Url, now: int)
    ensures SaidBy(attributes, url, now, before, ApplyAll(before, attributes, url, now))
    decreases |attributes|
  {
    if attributes != [] {
      var front, a := attributes[..|attributes| - 1], attributes[|attributes| - 1];
      assert attributes == front + [a];
      ApplyAllSays(before, front, url, now);
      ApplyLast(before, front, a, url, now);
      SaidByOneMore(front, a, url, now, before, ApplyAll(before, front, url, now));
    }
  }

  /** The cookie of a line: its name and value; the last acceptable Domain, or the host alone;
      the last absolute Path, or the default path; the last positive Max-Age, or no end; and
      deletion exactly if some Max-Age is not positive. */
  lemma DraftCarries(line: Line, url: Url, now: int)
    ensures var d := DraftOf(line, url, now);
            var i := Last(line.attributes, DomainTest(url));
            var j := Last(line.attributes, IsAbsolutePath);
            var k := Last(line.attributes, IsLife);
            && d.cookie.name == line.name && d.cookie.value == line.value && d.cookie.lastUsed == now
            && d.cookie.hostOnly == (i < 0)
            && d.cookie.domain == (if i < 0 then Lower(url.host) else Undotted(Lower(line.attributes[i].value)))
            && d.cookie.path == (if j < 0 then DefaultPath(url.path) else line.attributes[j].value)
            && d.cookie.expires == (if k < 0 then Session else Until(now + line.attributes[k].seconds.value))
            && (d.delete <==> Last(line.attributes, IsDeath) >= 0)
  {
    var c := Cookie(line.name, line.value, Lower(url.host), DefaultPath(url.path), true, Session, now);
    ApplyAllSays(Draft(c, false), line.attributes, url, now);
  }

  lemma SetOneOk(jars: Jars, d: Draft, now: int, limit: nat)
    requires JarsOk(jars, now, limit) && Sound(d, now)
    ensures JarsOk(SetOne(jars, d, limit), now, limit)
    ensures !d.delete && limit > 0 ==> d.cookie in SetOne(jars, d, limit)[d.cookie.domain]
  {
    var domain := d.cookie.domain;
    var jar := JarOf(jars, domain);
    assert domain in jars ==> JarOk(jars[domain], domain, now, limit);
    WithoutTidy(jar, d.cookie);
    AppendUnique(Without(jar, d.cookie), d.cookie);
    TrimTidy(Without(jar, d.cookie) + [d.cookie], limit);
    if limit > 0 {
      JustSetStays(jar, d.cookie, limit, now);
    }
    assert JarOk(SetOne(jars, d, limit)[domain], domain, now, limit);
  }

  /** Setting or deleting a cookie takes out those of its domain, name and path only, as long
      as there is room; other domains are not touched. */
  lemma OthersAreKept(jars: Jars, d: Draft, limit: nat, x: Cookie)
    requires x in JarOf(jars, d.cookie.domain) && (d.delete || |JarOf(jars, d.cookie.domain)| < limit)
    ensures x.name != d.cookie.name || x.path != d.cookie.path ==> x in SetOne(jars, d, limit)[d.cookie.domain]
    ensures x.name == d.cookie.name && x.path == d.cookie.path && d.delete ==>
              x !in SetOne(jars, d, limit)[d.cookie.domain]
    ensures forall e :: e in jars && e != d.cookie.domain ==>
              e in SetOne(jars, d, limit) && SetOne(jars, d, limit)[e] == jars[e]
  {
    WithoutTidy(JarOf(jars, d.cookie.domain), d.cookie);
  }

  /** A line that deletes leaves no cookie of its domain, name and path. */
  lemma DeletedIsGone(jars: Jars, d: Draft, limit: nat)
    requires d.delete
    ensures Absent(SetOne(jars, d, limit)[d.cookie.domain], d.cookie)
    ensures forall e :: e in jars && e != d.cookie.domain ==>
              e in SetOne(jars, d, limit) && SetOne(jars, d, limit)[e] == jars[e]
  {
    WithoutTidy(JarOf(jars, d.cookie.domain), d.cookie);
  }

  /** Stripping one more dot loses no match. */
  lemma DotSuffix(h: string, d: string, labels: string)
    requires d != "" && d[0] == '.' && (h == d || h == labels + "." + d)
    ensures exists more: string :: h == more + "." + d[1..]
  {
    if h == d {
      assert h == "" + "." + d[1..];
    } else {
      assert h == (labels + ".") + "." + d[1..];
    }
  }

  lemma AcceptedDomainMatches(host: string, value: string)
    requires DomainMatch(host, value)
    ensures DomainMatch(host, Undotted(Lower(value)))
  {
    var h, d := Lower(host), Undotted(Lower(value));
    assert Lower(d) == d by {
      LowerTwice(value);
      UndottedLower(Lower(value));
    }
    if d != "" && d[0] == '.' {
      DomainMatchIsSuffixOfLabels(host, value);
      var labels: string :| h == d || h == labels + "." + d;
      DotSuffix(h, d, labels);
      DomainMatchIsSuffixOfLabels(host, d);
    }
  }

  /** Whatever attributes a line has, its cookie belongs to a domain that the host which
      sent it matches: no host sets cookies for another site. */
  lemma {:induction false} OnlyOwnSites(d: Draft, attributes: seq<Attribute>, url: Url, now: int)
    requires DomainMatch(url.host, d.cookie.domain)
    ensures DomainMatch(url.host, ApplyAll(d, attributes, url, now).cookie.domain)
    decreases |attributes|
  {
    if attributes != [] {
      var a := attributes[0];
      if AcceptsDomain(url, a) {
        AppliedDomain(d, a, url, now);
        AcceptedDomainMatches(url.host, a.value);
      } else {
        KeptDomain(d, a, url, now);
      }
      OnlyOwnSites(Apply(d, a, url, now), attributes[1..], url, now);
    }
  }

  lemma DraftOnOwnSite(line: Line, url: Url, now: int)
    ensures DomainMatch(url.host, DraftOf(line, url, now).cookie.domain)
  {
    OwnDomainMatches(url.host, Lower(url.host));
    var c := Cookie(line.name, line.value, Lower(url.host), DefaultPath(url.path), true, Session, now);
    OnlyOwnSites(Draft(c, false), line.attributes, url, now);
  }

  /** The lines of a response take effect one after the other, each on what those before it
      left, except lines without a name. */
  lemma {:induction false} LinesInTurn(jars: Jars, lines: seq<Line>, line: Line, url: Url, limit: nat, now: int)
    ensures var before := SetAll(jars, lines, url, limit, now);
            SetAll(jars, lines + [line], url, limit, now) ==
            if line.name == "" then before else SetOne(before, DraftOf(line, url, now), limit)
    decreases |lines|
  {
    if lines == [] {
      assert [line][1..] == [] && lines + [line] == [line];
      var after := if line.name == "" then jars else SetOne(jars, DraftOf(line, url, now), limit);
      assert SetAll(after, [], url, limit, now) == after;
    } else {
      assert (lines + [line])[1..] == lines[1..] + [line] && (lines + [line])[0] == lines[0];
      var next := if lines[0].name == "" then jars else SetOne(jars, DraftOf(lines[0], url, now), limit);
      LinesInTurn(next, lines[1..], line, url, limit, now);
    }
  }

  lemma {:induction false} SetAllOk(jars: Jars, lines: seq<Line>, url: Url, limit: nat, now: int)
    requires JarsOk(jars, now, limit)
    ensures JarsOk(SetAll(jars, lines, url, limit, now), now, limit)
    decreases |lines|
  {
    if lines != [] {
      if lines[0].name == "" {
        SetAllOk(jars, lines[1..], url, limit, now);
      } else {
        var d := DraftOf(lines[0], url, now);
        DraftSound(lines[0], url, now);
        SetOneOk(jars, d, now, limit);
        SetAllOk(SetOne(jars, d, limit), lines[1..], url, limit, now);
      }
    }
  }

  // ---------------------------------------------------------------------------
  // The number of domains
  // ---------------------------------------------------------------------------

  ghost predicate Covers(order: seq<string>, jars: Jars) {
    forall d :: d in jars ==> d in order
  }

  /** No cookie of domain `d` was used before `t`. */
  ghost predicate NotBefore(jars: Jars, d: string, t: int) {
    forall x :: x in JarOf(jars, d) ==> t <= x.lastUsed
  }

  /** `c` is a jar that holds the oldest cookie of the jars in `order`, if any holds one. */
  ghost predicate OldestOf(jars: Jars, order: seq<string>, c: Candidate) {
    match c
    case NoJar => forall d :: d in order ==> JarOf(jars, d) == []
    case OldJar(domain, t) =>
      && (exists x :: x in JarOf(jars, domain) && x.lastUsed == t)
      && (forall d :: d in order ==> NotBefore(jars, d, t))
  }

  lemma BetterOldest(jars: Jars, done: seq<string>, best: Candidate, d: string)
    requires OldestOf(jars, done, best)
    ensures OldestOf(jars, done + [d], Better(jars, best, d))
  {
    var jar := JarOf(jars, d);
    var c := Better(jars, best, d);
    if c.OldJar? {
      if jar != [] {
        assert jar[Oldest(jar)] in jar;
        assert NotBefore(jars, d, jar[Oldest(jar)].lastUsed);
      }
      forall e | e in done + [d]
        ensures NotBefore(jars, e, c.time)
      {
        if e != d && best.OldJar? {
          assert NotBefore(jars, e, best.time);
        }
      }
    }
  }

  lemma {:induction false} SearchOldest(jars: Jars, done: seq<string>, order: seq<string>, best: Candidate)
    requires OldestOf(jars, done, best)
    ensures OldestOf(jars, done + order, Search(jars, order, best))
    decreases |order|
  {
    if order == [] {
      assert done + order == done;
    } else {
      BetterOldest(jars, done, best, order[0]);
      SearchOldest(jars, done + [order[0]], order[1..], Better(jars, best, order[0]));
      assert done + [order[0]] + order[1..] == done + order;
    }
  }

  /** No jar is found only when all are empty. */
  lemma NoVictim(jars: Jars, order: seq<string>)
    requires Covers(order, jars) && Search(jars, order, NoJar).NoJar?
    ensures NonEmpty(jars) == {}
  {
    SearchOldest(jars, [], order, NoJar);
    assert [] + order == order;
    forall d | d in jars
      ensures jars[d] == []
    {
      assert JarOf(jars, d) == [];
    }
  }

  /** The jar to go holds the least recently used cookie of all, and an empty jar is never
      the one. */
  lemma VictimIsOldest(jars: Jars, order: seq<string>)
    requires Covers(order, jars) && Search(jars, order, NoJar).OldJar?
    ensures var c := Search(jars, order, NoJar);
            && c.domain in jars && (exists x :: x in jars[c.domain] && x.lastUsed == c.time)
            && (forall d :: d in jars ==> NotBefore(jars, d, c.time))
  {
    SearchOldest(jars, [], order, NoJar);
    assert [] + order == order;
  }

  lemma {:induction false} TrimDomainsOk(jars: Jars, limit: nat, order: seq<string>)
    requires Covers(order, jars)
    ensures |NonEmpty(TrimDomains(jars, limit, order))| <= limit
    ensures forall d :: d in TrimDomains(jars, limit, order) ==>
              d in jars && TrimDomains(jars, limit, order)[d] == jars[d]
    decreases |jars|
  {
    if limit > 0 {
      if |jars| <= limit {
        SubsetCount(NonEmpty(jars), jars.Keys);
      } else {
        var c := Search(jars, order, NoJar);
        if c.NoJar? {
          NoVictim(jars, order);
        } else {
          VictimIsOldest(jars, order);
          assert jars.Keys == (jars - {c.domain}).Keys + {c.domain};
          TrimDomainsOk(jars - {c.domain}, limit, order);
        }
      }
    }
  }

  /** A jar that went holds a cookie that is no newer than any in a jar that stayed. */
  ghost predicate OlderThanKept(jars: Jars, kept: Jars, d: string) {
    exists x :: x in JarOf(jars, d) && forall e :: e in kept ==> NotBefore(jars, e, x.lastUsed)
  }

  /** Nothing goes while the number of domains is within the limit, and no more than needed
      beyond it; those that go are the ones used least recently. */
  lemma {:induction false} TrimDomainsKeeps(jars: Jars, limit: nat, order: seq<string>)
    requires Covers(order, jars)
    ensures |jars| <= limit ==> TrimDomains(jars, limit, order) == jars
    ensures |jars| > limit ==> |TrimDomains(jars, limit, order)| >= limit
    ensures forall d :: d in jars && d !in TrimDomains(jars, limit, order) && limit > 0 ==>
              OlderThanKept(jars, TrimDomains(jars, limit, order), d)
    decreases |jars|
  {
    if limit == 0 {
      assert |jars| <= 0 ==> jars == map[];
    } else if |jars| > limit {
      var c := Search(jars, order, NoJar);
      if c.OldJar? {
        VictimIsOldest(jars, order);
        var rest := jars - {c.domain};
        assert jars.Keys == rest.Keys + {c.domain};
        TrimDomainsKeeps(rest, limit, order);
        TrimDomainsOk(rest, limit, order);
        OldestGoes(jars, rest, TrimDomains(rest, limit, order), c);
      }
    }
  }

  lemma OldestGoes(jars: Jars, rest: Jars, kept: Jars, c: Candidate)
    requires c.OldJar? && c.domain in jars && rest == jars - {c.domain} && kept.Keys <= rest.Keys
    requires exists x :: x in jars[c.domain] && x.lastUsed == c.time
    requires forall d :: d in jars ==> NotBefore(jars, d, c.time)
    requires forall d :: d in rest && d !in kept ==> OlderThanKept(rest, kept, d)
    ensures forall d :: d in jars && d !in kept ==> OlderThanKept(jars, kept, d)
  {
    forall d | d in jars && d !in kept
      ensures OlderThanKept(jars, kept, d)
    {
      if d == c.domain {
        var x :| x in jars[c.domain] && x.lastUsed == c.time;
        assert x in JarOf(jars, d) && forall e :: e in kept ==> NotBefore(jars, e, x.lastUsed);
      } else {
        assert OlderThanKept(rest, kept, d);
        var x :| x in JarOf(rest, d) && forall e :: e in kept ==> NotBefore(rest, e, x.lastUsed);
        forall e | e in kept
          ensures NotBefore(jars, e, x.lastUsed)
        {
          assert e in kept.Keys && NotBefore(rest, e, x.lastUsed) && JarOf(jars, e) == JarOf(rest, e);
        }
        assert x in JarOf(jars, d);
      }
    }
  }

  lemma ListsCovers(order: seq<string>, jars: Jars)
    requires Lists(order, jars)
    ensures Covers(order, jars)
  {
    forall d | d in jars
      ensures d in order
    {
      assert d in multiset(jars.Keys);
    }
  }

  // ---------------------------------------------------------------------------
  // Every sequence of calls
  // ---------------------------------------------------------------------------

  lemma NotedAllOk(jars: Jars, url: Url, now: int, limit: nat)
    requires JarsOk(jars, now, limit)
    ensures JarsOk(NotedAll(jars, url, now), now, limit)
  {
    forall d | d in jars
      ensures JarOk(Noted(jars[d], url, now), d, now, limit) && |Noted(jars[d], url, now)| == |jars[d]|
    {
      var noted := Noted(jars[d], url, now);
      assert JarOk(jars[d], d, now, limit);
      NotedTidy(jars[d], url, now);
      NotedUnique(jars[d], url, now);
      forall c | c in noted
        ensures Own(c, d, now)
      {
        var i :| 0 <= i < |noted| && noted[i] == c;
        assert jars[d][i] in jars[d];
      }
    }
  }

  lemma AddOk(s: Store, l: Limits, url: Url, lines: seq<Line>, order: seq<string>, elapsed: nat)
    requires StoreInv(s, l)
    ensures StoreInv(Step(s, l, Add(url, lines, order, elapsed)), l)
  {
    var now := s.now + elapsed;
    var jars := BeforeTrim(s, l, url, lines, now);
    PruneOk(s.jars, s.now, now, l.perDomain);
    SetAllOk(Prune(s.jars, now), lines, url, l.perDomain, now);
    if Lists(order, jars) {
      TrimmedOk(jars, l, order, now);
      StoreFrom(TrimDomains(jars, l.domains, order), now, l);
    }
    AddStep(s, l, url, lines, order, elapsed);
  }

  lemma AddStep(s: Store, l: Limits, url: Url, lines: seq<Line>, order: seq<string>, elapsed: nat)
    ensures var jars := BeforeTrim(s, l, url, lines, s.now + elapsed);
            Step(s, l, Add(url, lines, order, elapsed)) ==
            if Lists(order, jars) then Store(TrimDomains(jars, l.domains, order), s.now + elapsed) else s
  {
  }

  lemma TrimmedOk(jars: Jars, l: Limits, order: seq<string>, now: int)
    requires JarsOk(jars, now, l.perDomain) && Lists(order, jars)
    ensures JarsOk(TrimDomains(jars, l.domains, order), now, l.perDomain)
    ensures |NonEmpty(TrimDomains(jars, l.domains, order))| <= l.domains
  {
    ListsCovers(order, jars);
    TrimDomainsOk(jars, l.domains, order);
    var kept := TrimDomains(jars, l.domains, order);
    forall d | d in kept
      ensures JarOk(kept[d], d, now, l.perDomain)
    {
      assert JarOk(jars[d], d, now, l.perDomain);
    }
  }

  lemma NotedCount(jars: Jars, url: Url, before: int, now: int, limit: nat)
    requires JarsOk(jars, before, limit) && before <= now
    ensures |NonEmpty(NotedAll(Prune(jars, now), url, now))| <= |NonEmpty(jars)|
  {
    var pruned := Prune(jars, now);
    PruneOk(jars, before, now, limit);
    var noted := NotedAll(pruned, url, now);
    forall d | d in NonEmpty(noted)
      ensures d in NonEmpty(jars)
    {
      NotedTidy(pruned[d], url, now);
      assert d in NonEmpty(pruned);
    }
    SubsetCount(NonEmpty(noted), NonEmpty(jars));
  }

  lemma HeaderJarsOk(jars: Jars, url: Url, before: int, now: int, limit: nat)
    requires JarsOk(jars, before, limit) && before <= now
    ensures JarsOk(NotedAll(Prune(jars, now), url, now), now, limit)
  {
    PruneOk(jars, before, now, limit);
    NotedAllOk(Prune(jars, now), url, now, limit);
  }

  lemma StoreFrom(jars: Jars, now: int, l: Limits)
    requires JarsOk(jars, now, l.perDomain) && |NonEmpty(jars)| <= l.domains
    ensures StoreInv(Store(jars, now), l)
  {
  }

  lemma HeaderOk(s: Store, l: Limits, url: Url, elapsed: nat)
    requires StoreInv(s, l)
    ensures StoreInv(Step(s, l, Header(url, elapsed)), l)
  {
    var now := s.now + elapsed;
    NotedCount(s.jars, url, s.now, now, l.perDomain);
    HeaderJarsOk(s.jars, url, s.now, now, l.perDomain);
    StoreFrom(NotedAll(Prune(s.jars, now), url, now), now, l);
    assert Step(s, l, Header(url, elapsed)) == Store(NotedAll(Prune(s.jars, now), url, now), now);
  }

  lemma StepOk(s: Store, l: Limits, e: Event)
    requires StoreInv(s, l)
    ensures StoreInv(Step(s, l, e), l)
  {
    match e
    case Add(url, lines, order, elapsed) => AddOk(s, l, url, lines, order, elapsed);
    case Header(url, elapsed) => HeaderOk(s, l, url, elapsed);
    case Clear =>
  }

  /** After every sequence of calls each jar holds only cookies of its own domain, with
      unique names and paths and within the limit, and no more than the permitted number
      of domains have cookies. */
  lemma StoreAlways(l: Limits, es: seq<Event>)
    ensures StoreInv(Run(NextStore(l), EMPTY_STORE, es), l)
  {
    forall s, e | StoreInv(s, l)
      ensures StoreInv(NextStore(l)(s, e), l)
    {
      StepOk(s, l, e);
    }
    Always(NextStore(l), (s: Store) => StoreInv(s, l), EMPTY_STORE, es);
  }
}
