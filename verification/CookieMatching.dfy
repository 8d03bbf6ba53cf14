/** When a cookie belongs to a host and a path: domain_match, path_match and
    default_cookie_path, and the domains of section 5.1.3 of RFC 6265. */
module CookieMatching {
  import opened Ascii

  function Lower(s: string): (r: string)
    ensures |r| == |s|
    ensures forall i :: 0 <= i < |s| ==> r[i] == LowerChar(s[i])
  {
    seq(|s|, i requires 0 <= i < |s| => LowerChar(s[i]))
  }

  lemma LowerTwice(s: string)
    ensures Lower(Lower(s)) == Lower(s)
  {
    assert forall c: char :: LowerChar(LowerChar(c)) == LowerChar(c);
  }

  /** A domain without the dot it may begin with. */
  function Undotted(d: string): string {
    if d != "" && d[0] == '.' then d[1..] else d
  }

  predicate DomainMatch(host: string, domain: string) {
    var h := Lower(host);
    var d := Undotted(Lower(domain));
    || h == d
    || (|h| > |d| && h[|h| - |d|..] == d && h[|h| - |d| - 1] == '.')
  }

  /** The host is the domain, or labels followed by a dot and the domain. */
  lemma DomainMatchIsSuffixOfLabels(host: string, domain: string)
    ensures DomainMatch(host, domain) <==>
              Lower(host) == Undotted(Lower(domain)) ||
              exists labels: string :: Lower(host) == labels + "." + Undotted(Lower(domain))
  {
    var h := Lower(host);
    var d := Undotted(Lower(domain));
    if DomainMatch(host, domain) && h != d {
      var labels := h[..|h| - |d| - 1];
      assert h == labels + "." + h[|h| - |d|..];
    }
    if labels: string :| h == labels + "." + d {
      assert h[|labels| + 1..] == d && h[|labels|] == '.';
      assert |h| - |d| == |labels| + 1;
    }
  }

  /** One leading dot of a domain does not count; without one the host is the domain, in any
      case of letters, or ends with a dot and the domain. */
  lemma LeadingDotIgnored(host: string, domain: string)
    requires domain == "" || domain[0] != '.'
    ensures DomainMatch(host, "." + domain) == DomainMatch(host, domain)
    ensures DomainMatch(host, domain) <==>
              Lower(host) == Lower(domain) || exists labels: string :: Lower(host) == labels + "." + Lower(domain)
  {
    PlainUndotted(domain);
    DotUndotted(domain);
    DomainMatchIsSuffixOfLabels(host, domain);
  }

  lemma PlainUndotted(domain: string)
    requires domain == "" || domain[0] != '.'
    ensures Undotted(Lower(domain)) == Lower(domain)
  {
    assert domain != "" ==> Lower(domain)[0] == LowerChar(domain[0]);
  }

  lemma DotUndotted(domain: string)
    ensures Undotted(Lower("." + domain)) == Lower(domain)
  {
    var dotted := Lower("." + domain);
    assert dotted[0] == LowerChar(("." + domain)[0]);
    forall i | 0 <= i < |domain|
      ensures dotted[1..][i] == Lower(domain)[i]
    {
      assert ("." + domain)[i + 1] == domain[i];
    }
  }

  /** A host matches the domain of a cookie that it set for itself. */
  lemma OwnDomainMatches(host: string, domain: string)
    requires Lower(host) == domain
    ensures DomainMatch(host, domain)
  {
    LowerTwice(host);
    if domain != "" && domain[0] == '.' {
      assert domain == "" + "." + domain[1..];
      DomainMatchIsSuffixOfLabels(host, domain);
    }
  }

  // ---------------------------------------------------------------------------
  // Section 5.1.3 of RFC 6265, which leaves out addresses
  // ---------------------------------------------------------------------------

  function Decimal(s: string): nat
    requires forall i :: 0 <= i < |s| ==> '0' <= s[i] <= '9'
  {
    if s == "" then 0 else 10 * Decimal(s[..|s| - 1]) + (s[|s| - 1] as int - '0' as int)
  }

  predicate IsOctet(s: string) {
    1 <= |s| <= 3 && (forall i :: 0 <= i < |s| ==> '0' <= s[i] <= '9') && Decimal(s) <= 255
  }

  lemma OctetBounds()
    ensures IsOctet("0") && IsOctet("9") && IsOctet("255") && !IsOctet("256") && !IsOctet("") && !IsOctet("0000")
  {
    assert "2"[..0] == "" && "25"[..1] == "2" && "255"[..2] == "25" && "256"[..2] == "25";
    assert "0"[..0] == "" && "9"[..0] == "";
    assert Decimal("2") == 2 && Decimal("25") == 25;
  }

  ghost predicate IsQuad(h: string, a: string, b: string, c: string, d: string) {
    IsOctet(a) && IsOctet(b) && IsOctet(c) && IsOctet(d) && h == a + "." + b + "." + c + "." + d
  }

  /** An address of IP version 4 or, as no host name has a colon, of version 6. */
  ghost predicate IsAddress(h: string) {
    ':' in h || exists a: string, b: string, c: string, d: string :: IsQuad(h, a, b, c, d)
  }

  ghost predicate EndsInDomain(h: string, d: string) {
    exists labels: string :: h == labels + "." + d
  }

  /** The standard's relation, on a host and a Domain attribute. */
  ghost predicate StandardMatch(host: string, domain: string) {
    var h := Lower(host);
    var d := Undotted(Lower(domain));
    h == d || (EndsInDomain(h, d) && !IsAddress(h))
  }

  lemma DomainMatchEnds(host: string, domain: string)
    ensures var h := Lower(host);
            var d := Undotted(Lower(domain));
            DomainMatch(host, domain) <==> h == d || EndsInDomain(h, d)
  {
    DomainMatchIsSuffixOfLabels(host, domain);
  }

  lemma {:induction false} LastDot(s: string) returns (i: nat)
    requires '.' in s
    ensures i < |s| && s[i] == '.' && '.' !in s[i + 1..]
  {
    if s[|s| - 1] == '.' {
      i := |s| - 1;
    } else {
      var front := s[..|s| - 1];
      assert s == front + [s[|s| - 1]];
      i := LastDot(front);
      assert s[i + 1..] == front[i + 1..] + [s[|s| - 1]];
    }
  }

  /** An address with a dot has a domain that the code takes for its own. */
  lemma AddressHasDomain(host: string) returns (domain: string)
    requires IsAddress(Lower(host)) && '.' in Lower(host)
    ensures DomainMatch(host, domain) && !StandardMatch(host, domain)
  {
    var h := Lower(host);
    var i := LastDot(h);
    domain := h[i + 1..];
    LowerTwice(host);
    assert Lower(domain) == domain;
    assert h == h[..i] + "." + domain;
    assert EndsInDomain(h, domain);
    DomainMatchEnds(host, domain);
  }

  /** domain_match is the standard's relation for a host, whatever the domain, exactly if
      the host is no address or has no dot. */
  lemma StandardExactly(host: string)
    ensures (forall domain: string :: DomainMatch(host, domain) == StandardMatch(host, domain))
            <==> !IsAddress(Lower(host)) || '.' !in Lower(host)
  {
    var h := Lower(host);
    if IsAddress(h) && '.' in h {
      var domain := AddressHasDomain(host);
      assert DomainMatch(host, domain) != StandardMatch(host, domain);
    } else {
      forall domain: string
        ensures DomainMatch(host, domain) == StandardMatch(host, domain)
      {
        DomainMatchEnds(host, domain);
        if labels: string :| h == labels + "." + Undotted(Lower(domain)) {
          assert h[|labels|] == '.' && '.' in h;
        }
      }
    }
  }

  /** Host 1.2.3.4 and domain 3.4. */
  lemma AddressMatchesSuffix()
    ensures DomainMatch("1.2.3.4", "3.4") && !StandardMatch("1.2.3.4", "3.4")
  {
    var host, domain := "1.2.3.4", "3.4";
    assert Lower(host) == host && Lower(domain) == domain;
    assert host == "1.2" + "." + domain;
    DigitsAreOctets();
    assert IsQuad(host, "1", "2", "3", "4");
    QuadMatches(host, "1.2", domain, "1", "2", "3", "4");
  }

  lemma DigitsAreOctets()
    ensures IsOctet("1") && IsOctet("2") && IsOctet("3") && IsOctet("4")
  {
    assert Decimal("") == 0 && "1"[..0] == "" && "2"[..0] == "" && "3"[..0] == "" && "4"[..0] == "";
  }

  /** An address and what follows one of its dots. */
  lemma QuadMatches(host: string, labels: string, domain: string, a: string, b: string, c: string, d: string)
    requires Lower(host) == host && Lower(domain) == domain && domain != "" && domain[0] != '.'
    requires host == labels + "." + domain && IsQuad(host, a, b, c, d)
    ensures DomainMatch(host, domain) && !StandardMatch(host, domain)
  {
    assert EndsInDomain(host, domain);
    DomainMatchEnds(host, domain);
    assert |host| > |domain|;
  }

  predicate PathMatch(request: string, cookie: string) {
    if cookie == "" then true
    else if !(cookie <= request) then false
    else |request| == |cookie| || cookie[|cookie| - 1] == '/' || request[|cookie|] == '/'
  }

  /** The request path is the cookie path and a rest that begins a new segment. */
  predicate Above(cookie: string, request: string, rest: string) {
    request == cookie + rest && (rest == "" || rest[0] == '/' || (cookie != "" && cookie[|cookie| - 1] == '/'))
  }

  /** The cookie path is the request path, or a directory above it. */
  lemma PathMatchIsDirectoryPrefix(request: string, cookie: string)
    ensures PathMatch(request, cookie) <==> cookie == "" || exists rest: string :: Above(cookie, request, rest)
  {
    if PathMatch(request, cookie) && cookie != "" {
      assert Above(cookie, request, request[|cookie|..]);
    }
    if rest: string :| cookie != "" && Above(cookie, request, rest) {
      assert cookie <= request;
      assert rest != "" ==> request[|cookie|] == rest[0];
    }
  }

  /** The last position of a slash, or none. */
  function LastSlash(path: string): (i: int)
    ensures -1 <= i < |path|
    ensures i >= 0 ==> path[i] == '/'
    ensures forall j :: i < j < |path| ==> path[j] != '/'
  {
    if path == "" then -1
    else if path[|path| - 1] == '/' then |path| - 1
    else LastSlash(path[..|path| - 1])
  }

  function DefaultPath(path: string): string {
    if path == "" || path[0] != '/' then "/"
    else if LastSlash(path) <= 0 then "/"
    else path[..LastSlash(path)]
  }

  lemma {:induction false} LastSlashAt(dir: string, name: string)
    requires '/' !in name
    ensures LastSlash(dir + "/" + name) == |dir|
    decreases |name|
  {
    var path := dir + "/" + name;
    if name != "" {
      assert path[..|path| - 1] == dir + "/" + name[..|name| - 1];
      LastSlashAt(dir, name[..|name| - 1]);
    }
  }

  /** The default path is the directory of an absolute path, and the root for its files and
      for every other path. */
  lemma DefaultPathIsDirectory(dir: string, name: string)
    requires '/' !in name && (dir == "" || dir[0] == '/')
    ensures DefaultPath(dir + "/" + name) == if dir == "" then "/" else dir
  {
    LastSlashAt(dir, name);
    assert (dir + "/" + name)[0] == '/';
    assert (dir + "/" + name)[..|dir|] == dir;
  }

  lemma OtherPathsAreRoot(path: string)
    requires path == "" || path[0] != '/'
    ensures DefaultPath(path) == "/"
  {
  }

  /** A cookie without a path goes back to the address that set it, provided that the
      address has a path; the default path is an absolute one. */
  lemma DefaultPathMatches(path: string)
    ensures DefaultPath(path) != "" && DefaultPath(path)[0] == '/'
    ensures path != "" && path[0] == '/' <==> PathMatch(path, DefaultPath(path))
  {
  }
}
