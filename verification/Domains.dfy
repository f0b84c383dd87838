/** Domain matching: a test on strings that is a test on dot-separated labels. */
module Domains {
  import opened Strings

  predicate EndsWith(s: string, t: string) {
    |t| <= |s| && s[|s| - |t|..] == t
  }

  /** `host === domain || host.endsWith('.' + domain)`. */
  predicate Matches(host: string, domain: string) {
    host == domain || EndsWith(host, "." + domain)
  }

  /** `matchesAnyDomain`; `lower` is `toLowerCase`. */
  predicate MatchesAny(host: string, domains: seq<string>, lower: string -> string) {
    exists i | 0 <= i < |domains| :: Matches(host, lower(domains[i]))
  }

  function Labels(s: string): seq<string> {
    Split(s, '.')
  }

  predicate LabelSuffix(d: seq<string>, h: seq<string>) {
    |d| <= |h| && h[|h| - |d|..] == d
  }

  lemma MatchGivesSuffix(host: string, domain: string)
    requires Matches(host, domain)
    ensures LabelSuffix(Labels(domain), Labels(host))
  {
    if host != domain {
      var p := host[..|host| - |domain| - 1];
      assert host == p + ("." + domain) == p + ['.'] + domain;
      SplitConcat(p, domain, '.');
    }
  }

  lemma SuffixGivesMatch(host: string, domain: string)
    requires LabelSuffix(Labels(domain), Labels(host))
    ensures Matches(host, domain)
  {
    var h, d := Labels(host), Labels(domain);
    JoinSplit(host, '.');
    JoinSplit(domain, '.');
    var a := h[..|h| - |d|];
    assert h == a + d;
    if a == [] {
      assert h == d;
    } else {
      JoinConcat(a, d, '.');
      DotBefore(Join(a, '.'), domain);
    }
  }

  lemma DotBefore(p: string, domain: string)
    ensures Matches(p + ['.'] + domain, domain)
  {
    assert p + ['.'] + domain == p + ("." + domain);
  }

  /** The string test holds exactly when the domain's labels end the host's labels. */
  lemma MatchesIffLabelSuffix(host: string, domain: string)
    ensures Matches(host, domain) <==> LabelSuffix(Labels(domain), Labels(host))
  {
    if Matches(host, domain) {
      MatchGivesSuffix(host, domain);
    }
    if LabelSuffix(Labels(domain), Labels(host)) {
      SuffixGivesMatch(host, domain);
    }
  }

  lemma MatchingIsTransitive(a: string, b: string, c: string)
    requires Matches(a, b) && Matches(b, c)
    ensures Matches(a, c)
  {
    MatchesIffLabelSuffix(a, b);
    MatchesIffLabelSuffix(b, c);
    MatchesIffLabelSuffix(a, c);
    SuffixOfSuffix(Labels(c), Labels(b), Labels(a));
  }

  lemma SuffixOfSuffix(c: seq<string>, b: seq<string>, a: seq<string>)
    requires LabelSuffix(b, a) && LabelSuffix(c, b)
    ensures LabelSuffix(c, a)
  {
    assert a[|a| - |c|..] == a[|a| - |b|..][|b| - |c|..];
  }

  /** Matching is a partial order. */
  lemma MatchingIsOrder(a: string, b: string, c: string)
    ensures Matches(a, a)
    ensures Matches(a, b) && Matches(b, a) ==> a == b
    ensures Matches(a, b) && Matches(b, c) ==> Matches(a, c)
  {
    if Matches(a, b) && Matches(b, c) {
      MatchingIsTransitive(a, b, c);
    }
  }

  lemma SubdomainsMatch(sub: string, host: string, domains: seq<string>, lower: string -> string)
    requires MatchesAny(host, domains, lower)
    ensures MatchesAny(sub + "." + host, domains, lower)
  {
    var i :| 0 <= i < |domains| && Matches(host, lower(domains[i]));
    assert EndsWith(sub + "." + host, "." + host) by { assert sub + "." + host == sub + ("." + host); }
    MatchingIsTransitive(sub + "." + host, host, lower(domains[i]));
    assert Matches(sub + "." + host, lower(domains[i]));
  }

  /** A name that ends with the letters of a domain matches it only across a dot: with `p` in front of it,
      exactly when `p` is empty or ends with a dot. */
  lemma MatchesOnlyAcrossDot(p: string, domain: string)
    ensures Matches(p + domain, domain) <==> p == "" || p[|p| - 1] == '.'
  {
    var host := p + domain;
    if p == "" {
      assert host == domain;
    } else {
      assert host[|host| - |domain| - 1..] == [p[|p| - 1]] + domain;
      assert ("." + domain)[0] == '.' && ([p[|p| - 1]] + domain)[0] == p[|p| - 1];
      assert p[|p| - 1] == '.' ==> [p[|p| - 1]] + domain == "." + domain;
      assert |host| != |domain|;
    }
  }
}
