/** The cookie store as the client changes it in place. */
module CookieJarFields {
  import opened CookieJars

  class CookieJar {
    const limits: Limits
    var cookies: Jars

    constructor (limits: Limits)
      ensures cookies == map[] && this.limits == limits
    {
      this.limits := limits;
      cookies := map[];
    }

    /** std::remove_if followed by erase. */
    static method RemoveReplaced(jar: Jar, c: Cookie) returns (kept: Jar)
      ensures kept == Without(jar, c)
    {
      kept := [];
      var i := 0;
      while i < |jar|
        invariant 0 <= i <= |jar|
        invariant kept + Without(jar[i..], c) == Without(jar, c)
      {
        assert jar[i..][1..] == jar[i + 1..];
        ghost var rest := Without(jar[i + 1..], c);
        if !Same(jar[i], c) {
          assert kept + ([jar[i]] + rest) == kept + [jar[i]] + rest;
          kept := kept + [jar[i]];
        }
        i := i + 1;
      }
    }

    /** std::min_element by time of use. */
    static method OldestIndex(jar: Jar) returns (k: nat)
      requires jar != []
      ensures k == Oldest(jar)
    {
      k := 0;
      var i := 1;
      while i < |jar|
        invariant 1 <= i <= |jar| && k == Oldest(jar[..i])
      {
        assert jar[..i + 1][..i] == jar[..i];
        if jar[i].lastUsed < jar[k].lastUsed {
          k := i;
        }
        i := i + 1;
      }
      assert jar[..|jar|] == jar;
    }

    static method EnforceDomainLimit(jar: Jar, limit: nat) returns (kept: Jar)
      ensures kept == Trim(jar, limit)
    {
      if limit == 0 {
        return [];
      }
      kept := jar;
      while |kept| > limit
        invariant Trim(kept, limit) == Trim(jar, limit)
        decreases |kept|
      {
        var oldest := OldestIndex(kept);
        kept := kept[..oldest] + kept[oldest + 1..];
      }
    }

    /** The walk over all jars for the one with the oldest cookie. */
    method OldestDomain(order: seq<string>) returns (best: Candidate)
      ensures best == Search(cookies, order, NoJar)
    {
      best := NoJar;
      var i := 0;
      while i < |order|
        invariant 0 <= i <= |order|
        invariant Search(cookies, order[i..], best) == Search(cookies, order, NoJar)
      {
        assert order[i..][1..] == order[i + 1..];
        var jar := JarOf(cookies, order[i]);
        if jar != [] {
          var k := OldestIndex(jar);
          if best.NoJar? || jar[k].lastUsed < best.time {
            best := OldJar(order[i], jar[k].lastUsed);
          }
        }
        i := i + 1;
      }
    }

    method EnforceDomainCount(order: seq<string>)
      modifies this
      ensures cookies == TrimDomains(old(cookies), limits.domains, order)
    {
      if limits.domains == 0 {
        cookies := map[];
        return;
      }
      while |cookies| > limits.domains
        invariant TrimDomains(cookies, limits.domains, order) == TrimDomains(old(cookies), limits.domains, order)
        decreases |cookies|
      {
        var oldest := OldestDomain(order);
        if oldest.NoJar? || oldest.domain !in cookies {
          break;
        }
        assert cookies.Keys == (cookies - {oldest.domain}).Keys + {oldest.domain};
        cookies := cookies - {oldest.domain};
      }
    }

    /** The body of the loop over Set-Cookie lines, once the line is parsed. */
    method SetCookie(d: Draft)
      modifies this
      ensures cookies == SetOne(old(cookies), d, limits.perDomain)
    {
      var jar := RemoveReplaced(JarOf(cookies, d.cookie.domain), d.cookie);
      if !d.delete {
        jar := EnforceDomainLimit(jar + [d.cookie], limits.perDomain);
      }
      cookies := cookies[d.cookie.domain := jar];
    }

    /** The inner loop of cookie_header: one jar's cookies go out and are noted as used. */
    static method SendJar(jar: Jar, url: Url, now: int) returns (noted: Jar, sent: seq<Cookie>)
      ensures noted == Noted(jar, url, now) && sent == Chosen(jar, url, now)
    {
      noted, sent := [], [];
      var i := 0;
      while i < |jar|
        invariant 0 <= i <= |jar|
        invariant noted + Noted(jar[i..], url, now) == Noted(jar, url, now)
        invariant sent + Chosen(jar[i..], url, now) == Chosen(jar, url, now)
      {
        SendStep(jar, i, url, now, noted, sent);
        var cookie := jar[i];
        if Sent(cookie, url, now) {
          cookie := cookie.(lastUsed := now);
          sent := sent + [cookie];
        }
        noted := noted + [cookie];
        i := i + 1;
      }
    }
  }

  lemma ChosenHead(jar: Jar, url: Url, now: int)
    requires jar != []
    ensures Chosen(jar, url, now) ==
              (if Sent(jar[0], url, now) then [jar[0].(lastUsed := now)] else []) + Chosen(jar[1..], url, now)
  {
    var noted := Noted(jar, url, now);
    assert noted[1..] == Noted(jar[1..], url, now);
    if !Sent(jar[0], url, now) {
      assert [] + Chosen(jar[1..], url, now) == Chosen(jar[1..], url, now);
    }
  }

  lemma SendStep(jar: Jar, i: nat, url: Url, now: int, noted: Jar, sent: seq<Cookie>)
    requires i < |jar|
    ensures var used := jar[i].(lastUsed := now);
            if Sent(jar[i], url, now) then
              && noted + Noted(jar[i..], url, now) == noted + [used] + Noted(jar[i + 1..], url, now)
              && sent + Chosen(jar[i..], url, now) == sent + [used] + Chosen(jar[i + 1..], url, now)
            else
              && noted + Noted(jar[i..], url, now) == noted + [jar[i]] + Noted(jar[i + 1..], url, now)
              && sent + Chosen(jar[i..], url, now) == sent + Chosen(jar[i + 1..], url, now)
  {
    assert jar[i..][1..] == jar[i + 1..];
    ChosenHead(jar[i..], url, now);
  }
}
