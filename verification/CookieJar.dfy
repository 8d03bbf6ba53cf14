/** The client's cookie store: for each domain a list of cookies, bounded in length, and a
    bounded number of domains. */
module CookieJars {
  import opened CookieMatching

  datatype Expiry = Session | Until(time: int)

  datatype Cookie = Cookie(
    name: string,
    value: string,
    domain: string,
    path: string,
    hostOnly: bool,
    expires: Expiry,
    lastUsed: int)

  type Jar = seq<Cookie>

  type Jars = map<string, Jar>

  datatype Limits = Limits(perDomain: nat, domains: nat)

  /** The attributes of a Set-Cookie line; Max-Age holds NotANumber when it is none. */
  datatype Attribute = Domain(value: string) | Path(value: string) | MaxAge(seconds: Number) | Other
  datatype Number = Number(value: int) | NotANumber

  /** A Set-Cookie line with a name. */
  datatype Line = Line(name: string, value: string, attributes: seq<Attribute>)

  /** host and path of the request. */
  datatype Url = Url(host: string, path: string)

  // ---------------------------------------------------------------------------
  // One jar
  // ---------------------------------------------------------------------------

  predicate Expired(c: Cookie, now: int) {
    c.expires.Until? && now >= c.expires.time
  }

  function Keep(jar: Jar, keep: Cookie -> bool): Jar {
    if jar == [] then []
    else if keep(jar[0]) then [jar[0]] + Keep(jar[1..], keep)
    else Keep(jar[1..], keep)
  }

  function Live(jar: Jar, now: int): Jar {
    Keep(jar, (c: Cookie) => !Expired(c, now))
  }

  predicate Same(a: Cookie, b: Cookie) {
    a.name == b.name && a.path == b.path
  }

  /** The jar without the cookies that `c` replaces. */
  function Without(jar: Jar, c: Cookie): Jar {
    Keep(jar, (x: Cookie) => !Same(x, c))
  }

  /** The first cookie among those that were used least recently. */
  function Oldest(jar: Jar): (k: nat)
    requires jar != []
    ensures k < |jar|
    ensures forall i :: 0 <= i < |jar| ==> jar[k].lastUsed <= jar[i].lastUsed
    ensures forall i :: 0 <= i < k ==> jar[k].lastUsed < jar[i].lastUsed
  {
    if |jar| == 1 then 0
    else
      var k := Oldest(jar[..|jar| - 1]);
      if jar[|jar| - 1].lastUsed < jar[k].lastUsed then |jar| - 1 else k
  }

  function Drop(jar: Jar, k: nat): Jar
    requires k < |jar|
  {
    jar[..k] + jar[k + 1..]
  }

  function Trim(jar: Jar, limit: nat): Jar
    decreases |jar|
  {
    if limit == 0 then []
    else if |jar| <= limit then jar
    else Trim(Drop(jar, Oldest(jar)), limit)
  }

  // ---------------------------------------------------------------------------
  // Setting cookies
  // ---------------------------------------------------------------------------

  datatype Draft = Draft(cookie: Cookie, delete: bool)

  function Apply(d: Draft, a: Attribute, url: Url, now: int): Draft {
    match a
    case Domain(v) =>
      if v != "" && DomainMatch(url.host, v)
      then d.(cookie := d.cookie.(domain := Undotted(Lower(v)), hostOnly := false)) else d
    case Path(v) => if v != "" && v[0] == '/' then d.(cookie := d.cookie.(path := v)) else d
    case MaxAge(Number(n)) =>
      if n <= 0 then d.(delete := true) else d.(cookie := d.cookie.(expires := Until(now + n)))
    case MaxAge(NotANumber) => d
    case Other => d
  }

  function ApplyAll(d: Draft, attributes: seq<Attribute>, url: Url, now: int): Draft
    decreases |attributes|
  {
    if attributes == [] then d else ApplyAll(Apply(d, attributes[0], url, now), attributes[1..], url, now)
  }

  function DraftOf(line: Line, url: Url, now: int): Draft {
    var c := Cookie(line.name, line.value, Lower(url.host), DefaultPath(url.path), true, Session, now);
    ApplyAll(Draft(c, false), line.attributes, url, now)
  }

  function JarOf(jars: Jars, domain: string): Jar {
    if domain in jars then jars[domain] else []
  }

  function SetOne(jars: Jars, d: Draft, perDomain: nat): Jars {
    var rest := Without(JarOf(jars, d.cookie.domain), d.cookie);
    jars[d.cookie.domain := if d.delete then rest else Trim(rest + [d.cookie], perDomain)]
  }

  /** Lines without a name are skipped. */
  function SetAll(jars: Jars, lines: seq<Line>, url: Url, perDomain: nat, now: int): Jars
    decreases |lines|
  {
    if lines == [] then jars
    else
      var jars' := if lines[0].name == "" then jars else SetOne(jars, DraftOf(lines[0], url, now), perDomain);
      SetAll(jars', lines[1..], url, perDomain, now)
  }

  /** Expired cookies go, and jars left empty with them. */
  function Prune(jars: Jars, now: int): Jars {
    map d | d in jars && Live(jars[d], now) != [] :: Live(jars[d], now)
  }

  // ---------------------------------------------------------------------------
  // The number of domains
  // ---------------------------------------------------------------------------

  datatype Candidate = NoJar | OldJar(domain: string, time: int)

  /** One step of the search for the jar with the oldest cookie; an empty jar never is. */
  function Better(jars: Jars, best: Candidate, d: string): Candidate {
    if JarOf(jars, d) == [] then best
    else
      var jar := JarOf(jars, d);
      var t := jar[Oldest(jar)].lastUsed;
      if best.NoJar? || t < best.time then OldJar(d, t) else best
  }

  function Search(jars: Jars, order: seq<string>, best: Candidate): Candidate
    decreases |order|
  {
    if order == [] then best else Search(jars, order[1..], Better(jars, best, order[0]))
  }

  /** Whole jars go, least recently used first, until the limit is met or only empty jars
      are left.  `order` is the order in which the map is walked. */
  function TrimDomains(jars: Jars, limit: nat, order: seq<string>): Jars
    decreases |jars|
  {
    if limit == 0 then map[]
    else if |jars| <= limit then jars
    else
      var c := Search(jars, order, NoJar);
      if c.NoJar? || c.domain !in jars then jars
      else
        assert jars.Keys == (jars - {c.domain}).Keys + {c.domain};
        TrimDomains(jars - {c.domain}, limit, order)
  }

  // ---------------------------------------------------------------------------
  // Sending cookies
  // ---------------------------------------------------------------------------

  predicate Sent(c: Cookie, url: Url, now: int) {
    && !(c.hostOnly && Lower(url.host) != c.domain)
    && !Expired(c, now)
    && PathMatch(url.path, c.path)
  }

  /** The cookies of a jar that go out. */
  function Chosen(jar: Jar, url: Url, now: int): seq<Cookie> {
    Keep(Noted(jar, url, now), (c: Cookie) => Sent(c, url, now))
  }

  /** The jar with the use of those cookies noted. */
  function Noted(jar: Jar, url: Url, now: int): Jar {
    if jar == [] then []
    else [if Sent(jar[0], url, now) then jar[0].(lastUsed := now) else jar[0]] + Noted(jar[1..], url, now)
  }

  function NotedAll(jars: Jars, url: Url, now: int): Jars {
    map d | d in jars :: if DomainMatch(url.host, d) then Noted(jars[d], url, now) else jars[d]
  }

  function ChosenAll(jars: Jars, order: seq<string>, url: Url, now: int): seq<Cookie>
    decreases |order|
  {
    if order == [] then []
    else
      (if DomainMatch(url.host, order[0]) then Chosen(JarOf(jars, order[0]), url, now) else [])
      + ChosenAll(jars, order[1..], url, now)
  }

  // ---------------------------------------------------------------------------
  // The store
  // ---------------------------------------------------------------------------

  datatype Store = Store(jars: Jars, now: int)

  datatype Event =
    | Add(url: Url, lines: seq<Line>, order: seq<string>, elapsed: nat)
    | Header(url: Url, elapsed: nat)
    | Clear

  /** `order` lists the domains of the map, each once. */
  ghost predicate Lists(order: seq<string>, jars: Jars) {
    multiset(order) == multiset(jars.Keys)
  }

  function BeforeTrim(s: Store, l: Limits, url: Url, lines: seq<Line>, now: int): Jars {
    SetAll(Prune(s.jars, now), lines, url, l.perDomain, now)
  }

  ghost function Step(s: Store, l: Limits, e: Event): Store {
    match e
    case Add(url, lines, order, elapsed) =>
      var now := s.now + elapsed;
      var jars := BeforeTrim(s, l, url, lines, now);
      if Lists(order, jars) then Store(TrimDomains(jars, l.domains, order), now) else s
    case Header(url, elapsed) =>
      var now := s.now + elapsed;
      Store(NotedAll(Prune(s.jars, now), url, now), now)
    case Clear => s.(jars := map[])
  }

  ghost function NextStore(l: Limits): (Store, Event) -> Store {
    (s: Store, e: Event) => Step(s, l, e)
  }

  const EMPTY_STORE := Store(map[], 0)
}
