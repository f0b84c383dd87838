/** Agent identifiers: the slug of a name, numbered until it is free. */
module AgentIdentifier {
  import opened Strings
  import Decimal

  const DOMAIN := "@agentpass.local"

  predicate Alphanumeric(c: char) {
    'a' <= c <= 'z' || '0' <= c <= '9'
  }

  predicate IsWord(s: string) {
    s != "" && forall i | 0 <= i < |s| :: Alphanumeric(s[i])
  }

  // ---------------------------------------------------------------- slugs

  /** `.replace(/[^a-z0-9]+/g, '-')`; `inRun` says that the character before belongs to a run already replaced. */
  function DashRuns(s: string, inRun: bool): string {
    if s == "" then ""
    else if Alphanumeric(s[0]) then [s[0]] + DashRuns(s[1..], false)
    else (if inRun then "" else "-") + DashRuns(s[1..], true)
  }

  function StripLeft(s: string): string {
    if s != "" && s[0] == '-' then StripLeft(s[1..]) else s
  }

  function StripRight(s: string): string {
    if s != "" && s[|s| - 1] == '-' then StripRight(s[..|s| - 1]) else s
  }

  /** `slugify`; `trim` and `lower` are the string methods of those names. */
  function Slugify(value: string, trim: string -> string, lower: string -> string): string {
    var slug := StripRight(StripLeft(DashRuns(lower(trim(value)), false)));
    if slug == "" then "agent" else slug
  }

  function Run(s: string): (k: nat)
    ensures k <= |s| && forall i | 0 <= i < k :: Alphanumeric(s[i])
    ensures k < |s| ==> !Alphanumeric(s[k])
  {
    if s == "" || !Alphanumeric(s[0]) then 0 else 1 + Run(s[1..])
  }

  /** The maximal alphanumeric runs of a string, in order. */
  function Words(s: string): (ws: seq<string>)
    ensures forall i | 0 <= i < |ws| :: IsWord(ws[i])
    decreases |s|
  {
    if s == "" then []
    else if !Alphanumeric(s[0]) then Words(s[1..])
    else [s[..Run(s)]] + Words(s[Run(s)..])
  }

  lemma {:induction false} RunKept(s: string, inRun: bool)
    requires s != "" && Alphanumeric(s[0])
    ensures DashRuns(s, inRun) == s[..Run(s)] + DashRuns(s[Run(s)..], false)
  {
    var t := s[1..];
    var head, tail := t[..Run(t)], DashRuns(t[Run(t)..], false);
    assert DashRuns(t, false) == head + tail by {
      if t != "" && Alphanumeric(t[0]) {
        RunKept(t, false);
      } else {
        assert head == "" && t[0..] == t;
      }
    }
    assert s[..Run(s)] == [s[0]] + head;
    assert s[Run(s)..] == t[Run(t)..];
    assert [s[0]] + (head + tail) == [s[0]] + head + tail;
  }

  lemma {:induction false} StripRightAfter(w: string, t: string)
    requires w != "" && w[|w| - 1] != '-'
    ensures StripRight(t) == "" ==> StripRight(w + t) == w
    ensures StripRight(t) != "" ==> StripRight(w + t) == w + StripRight(t)
  {
    if t == "" {
      assert w + t == w;
    } else if t[|t| - 1] == '-' {
      StripRightAfter(w, t[..|t| - 1]);
      assert (w + t)[..|w + t| - 1] == w + t[..|t| - 1];
    }
  }

  lemma {:induction false} NoLeadingDash(s: string)
    ensures DashRuns(s, true) == "" || Alphanumeric(DashRuns(s, true)[0])
    ensures StripLeft(DashRuns(s, false)) == DashRuns(s, true)
  {
    if s != "" && !Alphanumeric(s[0]) {
      NoLeadingDash(s[1..]);
      assert DashRuns(s, false)[1..] == DashRuns(s[1..], true);
    }
  }

  lemma {:induction false} StripRightWords(s: string)
    ensures StripRight(DashRuns(s, true)) == Join(Words(s), '-')
    ensures StripRight(DashRuns(s, true)) == "" ==> DashRuns(s, true) == ""
    decreases |s|
  {
    if s == "" {
    } else if !Alphanumeric(s[0]) {
      StripRightWords(s[1..]);
      assert DashRuns(s, true) == DashRuns(s[1..], true);
    } else {
      var w, t := s[..Run(s)], s[Run(s)..];
      RunKept(s, true);
      if t == "" {
        assert DashRuns(s, true) == w + "";
        assert Words(s) == [w];
        StripRightAfter(w, "");
      } else {
        StripRightWords(t);
        var d := DashRuns(t, true);
        assert DashRuns(t, false) == "-" + d;
        DashThen(w, d, Words(t));
        assert Words(s) == [w] + Words(t) && ([w] + Words(t))[1..] == Words(t);
      }
    }
  }

  lemma DashThen(w: string, d: string, ws: seq<string>)
    requires IsWord(w) && StripRight(d) == Join(ws, '-') && (StripRight(d) == "" ==> d == "")
    requires ws == [] || IsWord(ws[0])
    ensures StripRight(w + ("-" + d)) == Join([w] + ws, '-')
  {
    StripRightAfter(w, "-" + d);
    assert w[|w| - 1] != '-' by { assert Alphanumeric(w[|w| - 1]); }
    if d == "" {
      assert ("-" + d)[..0] == "";
      assert ws == [];
      assert [w] + ws == [w];
    } else {
      DashFirst(d);
      assert ws != [];
      assert Join([w] + ws, '-') == w + ['-'] + Join(ws, '-') by { assert ([w] + ws)[1..] == ws; }
      assert w + ("-" + StripRight(d)) == w + ['-'] + StripRight(d);
    }
  }

  lemma {:induction false} DashFirst(d: string)
    requires StripRight(d) != ""
    ensures StripRight("-" + d) == "-" + StripRight(d)
  {
    if d[|d| - 1] == '-' {
      DashFirst(d[..|d| - 1]);
      assert ("-" + d)[..|"-" + d| - 1] == "-" + d[..|d| - 1];
    }
  }

  /** The slug of a name is its words, in order, joined by single dashes; a name without words gives "agent". */
  lemma SlugIsWords(value: string, trim: string -> string, lower: string -> string)
    ensures var ws := Words(lower(trim(value)));
            Slugify(value, trim, lower) == Join(if ws == [] then ["agent"] else ws, '-')
  {
    var s := lower(trim(value));
    NoLeadingDash(s);
    StripRightWords(s);
    if Words(s) != [] {
      assert IsWord(Words(s)[0]);
    }
  }

  // ---------------------------------------------------------------- identifiers

  /** `[a-z0-9]+(?:-[a-z0-9]+)*`: a slug is one or more words with single dashes between them. */
  predicate IsSlug(s: string) {
    forall i | 0 <= i < |Split(s, '-')| :: IsWord(Split(s, '-')[i])
  }

  /** `isValid`. */
  predicate IsValid(identifier: string) {
    && |identifier| >= |DOMAIN|
    && identifier[|identifier| - |DOMAIN|..] == DOMAIN
    && IsSlug(identifier[..|identifier| - |DOMAIN|])
  }

  /** By its characters: a slug is not empty, consists of lower-case letters, digits and dashes, and every dash has a
      letter or digit before and after it. */
  predicate SlugByChars(s: string) {
    && s != ""
    && (forall i | 0 <= i < |s| :: 'a' <= s[i] <= 'z' || '0' <= s[i] <= '9' || s[i] == '-')
    && s[0] != '-' && s[|s| - 1] != '-'
    && (forall i | 0 < i < |s| :: !(s[i - 1] == '-' && s[i] == '-'))
  }

  lemma WordsMakeSlug(ws: seq<string>)
    requires ws != [] && forall i | 0 <= i < |ws| :: IsWord(ws[i])
    ensures IsSlug(Join(ws, '-'))
  {
    forall i | 0 <= i < |ws| ensures '-' !in ws[i] {
      assert IsWord(ws[i]);
    }
    SplitJoin(ws, '-');
  }

  lemma SlugifyIsSlug(value: string, trim: string -> string, lower: string -> string)
    ensures IsSlug(Slugify(value, trim, lower))
  {
    SlugIsWords(value, trim, lower);
    var ws := Words(lower(trim(value)));
    WordsMakeSlug(if ws == [] then ["agent"] else ws);
  }

  lemma {:induction false} WordsOfJoin(ws: seq<string>)
    requires forall i | 0 <= i < |ws| :: IsWord(ws[i])
    ensures Words(Join(ws, '-')) == ws
  {
    if ws != [] {
      var s, w := Join(ws, '-'), ws[0];
      WordsOfJoin(ws[1..]);
      if |ws| == 1 {
        RunOf(w, "");
        assert w + "" == s && s[|w|..] == "";
      } else {
        RunOf(w, "-" + Join(ws[1..], '-'));
        assert s == w + ("-" + Join(ws[1..], '-'));
        assert s[|w|..] == "-" + Join(ws[1..], '-');
        assert s[|w|..][1..] == Join(ws[1..], '-');
      }
      assert s[..|w|] == w;
    }
  }

  lemma {:induction false} RunOf(w: string, t: string)
    requires forall i | 0 <= i < |w| :: Alphanumeric(w[i])
    requires t == "" || !Alphanumeric(t[0])
    ensures Run(w + t) == |w|
  {
    if w == "" {
      assert w + t == t;
    } else {
      RunOf(w[1..], t);
      assert (w + t)[1..] == w[1..] + t;
    }
  }

  /** Slugs are exactly the normal forms: slugifying one changes nothing. */
  lemma SlugIffFixed(s: string, trim: string -> string, lower: string -> string)
    requires lower(trim(s)) == s
    ensures IsSlug(s) <==> Slugify(s, trim, lower) == s
  {
    SlugifyIsSlug(s, trim, lower);
    if IsSlug(s) {
      var ws := Split(s, '-');
      JoinSplit(s, '-');
      WordsOfJoin(ws);
      SlugIsWords(s, trim, lower);
    }
  }

  /** The two readings of a slug, by words and by characters, agree. */
  lemma {:induction false} SlugIffByChars(s: string)
    ensures IsSlug(s) <==> SlugByChars(s)
  {
    if s == "" {
      assert Split(s, '-')[0] == "" && !IsWord("");
    } else if k :| 0 <= k < |s| && s[k] == '-' && '-' !in s[..k] {
      var w, rest := s[..k], s[k + 1..];
      assert s == w + ['-'] + rest;
      SplitConcat(w, rest, '-');
      SplitOne(w, '-');
      SlugIffByChars(rest);
      SlugSplit(w, rest);
      CharsSplit(s, k);
    } else {
      NoDash(s);
      SplitOne(s, '-');
      assert Split(s, '-')[0] == s;
    }
  }

  lemma {:induction false} NoDash(s: string)
    requires !exists k :: 0 <= k < |s| && s[k] == '-' && '-' !in s[..k]
    ensures '-' !in s
  {
    if s != "" {
      var n := |s| - 1;
      forall k | 0 <= k < n ensures !(s[..n][k] == '-' && '-' !in s[..n][..k]) {
        assert s[..n][..k] == s[..k];
      }
      NoDash(s[..n]);
      assert s == s[..n] + [s[n]];
    }
  }

  lemma SlugSplit(w: string, rest: string)
    requires Split(w + ['-'] + rest, '-') == [w] + Split(rest, '-')
    ensures IsSlug(w + ['-'] + rest) <==> IsWord(w) && IsSlug(rest)
  {
    var parts := Split(w + ['-'] + rest, '-');
    assert parts[0] == w;
    forall i | 0 <= i < |Split(rest, '-')| ensures parts[i + 1] == Split(rest, '-')[i] {
    }
  }

  lemma CharsSplit(s: string, k: nat)
    requires k < |s| && s[k] == '-' && '-' !in s[..k]
    ensures SlugByChars(s) <==> IsWord(s[..k]) && SlugByChars(s[k + 1..])
  {
    var w, rest := s[..k], s[k + 1..];
    if SlugByChars(s) {
      forall i | 0 <= i < k ensures Alphanumeric(w[i]) {
        assert w[i] in w;
      }
      forall i | 0 < i < |rest| ensures !(rest[i - 1] == '-' && rest[i] == '-') {
        assert rest[i - 1] == s[k + i] && rest[i] == s[k + 1 + i];
      }
      assert s[k + 1] != '-';
    }
    if IsWord(w) && SlugByChars(rest) {
      forall i | 0 <= i < |s| ensures 'a' <= s[i] <= 'z' || '0' <= s[i] <= '9' || s[i] == '-' {
        if i < k { assert s[i] == w[i] && Alphanumeric(w[i]); } else if i > k { assert s[i] == rest[i - k - 1]; }
      }
      forall i | 0 < i < |s| ensures !(s[i - 1] == '-' && s[i] == '-') {
        if i <= k {
          assert s[i - 1] == w[i - 1] && Alphanumeric(w[i - 1]);
        } else if i > k + 1 {
          assert s[i - 1] == rest[i - k - 2] && s[i] == rest[i - k - 1];
        }
      }
      assert s[0] == w[0] && Alphanumeric(w[0]);
    }
  }

  /** `isValid` by the characters of the text. */
  lemma ValidIff(identifier: string)
    ensures IsValid(identifier) <==> exists slug :: identifier == slug + "@agentpass.local" && SlugByChars(slug)
  {
    if IsValid(identifier) {
      var slug := identifier[..|identifier| - |DOMAIN|];
      assert identifier == slug + "@agentpass.local";
      SlugIffByChars(slug);
    }
    if slug :| identifier == slug + "@agentpass.local" && SlugByChars(slug) {
      assert identifier[..|identifier| - |DOMAIN|] == slug;
      SlugIffByChars(slug);
    }
  }

  // ---------------------------------------------------------------- generation

  /** The `n`th candidate: the bare slug, then the slug with 2, 3, … behind it. */
  function Candidate(base: string, n: nat): string {
    if n == 0 then base + DOMAIN else base + "-" + Decimal.Print(n + 1) + DOMAIN
  }

  lemma CandidatesDiffer(base: string, m: nat, n: nat)
    requires m < n
    ensures Candidate(base, m) != Candidate(base, n)
  {
    if m == 0 {
      assert |Candidate(base, n)| > |Candidate(base, m)|;
    } else if Candidate(base, m) == Candidate(base, n) {
      var p, q := base + "-" + Decimal.Print(m + 1), base + "-" + Decimal.Print(n + 1);
      assert Candidate(base, m)[..|p|] == p && Candidate(base, n)[..|q|] == q;
      assert p[|base| + 1..] == Decimal.Print(m + 1) && q[|base| + 1..] == Decimal.Print(n + 1);
      Decimal.PrintInjective(m + 1, n + 1);
    }
  }

  lemma CandidateIsValid(base: string, n: nat)
    requires IsSlug(base)
    ensures IsValid(Candidate(base, n))
  {
    var c := Candidate(base, n);
    var slug := if n == 0 then base else base + "-" + Decimal.Print(n + 1);
    assert c[..|c| - |DOMAIN|] == slug && c[|c| - |DOMAIN|..] == DOMAIN;
    if n > 0 {
      var d := Decimal.Print(n + 1);
      forall i | 0 <= i < |d| ensures Alphanumeric(d[i]) {
        assert Decimal.IsDigit(d[i]);
      }
      SplitOne(d, '-');
      SplitConcat(base, d, '-');
    }
  }

  /** The candidates before the `n`th. */
  ghost function Tried(base: string, n: nat): (tried: set<string>)
    ensures |tried| == n
    ensures forall c :: c in tried <==> exists i | 0 <= i < n :: c == Candidate(base, i)
  {
    if n == 0 then {}
    else
      assert Candidate(base, n - 1) !in Tried(base, n - 1) by {
        forall i | 0 <= i < n - 1 ensures Candidate(base, i) != Candidate(base, n - 1) {
          CandidatesDiffer(base, i, n - 1);
        }
      }
      Tried(base, n - 1) + {Candidate(base, n - 1)}
  }

  lemma SubsetSize<T>(a: set<T>, b: set<T>)
    requires a <= b
    ensures |a| <= |b|
  {
    assert b == a + (b - a);
  }

  /** `generate`, with the identifiers in use as a set and `probes` counting the lookups. */
  method Generate(name: string, existing: set<string>, trim: string -> string, lower: string -> string)
      returns (candidate: string, probes: nat)
    ensures candidate !in existing && IsValid(candidate)
    ensures 1 <= probes <= |existing| + 1
    ensures var base := Slugify(name, trim, lower);
      if base + "@agentpass.local" !in existing then candidate == base + "@agentpass.local" && probes == 1
      else
        && probes >= 2 && candidate == base + "-" + Decimal.Print(probes) + "@agentpass.local"
        && forall k: nat | 2 <= k < probes :: base + "-" + Decimal.Print(k) + "@agentpass.local" in existing
  {
    var base := Slugify(name, trim, lower);
    candidate := base + DOMAIN;
    var suffix := 2;
    probes := 1;
    while candidate in existing
      invariant suffix == probes + 1 && probes >= 1 && candidate == Candidate(base, probes - 1)
      invariant forall i: nat | i < probes - 1 :: Candidate(base, i) in existing
      invariant probes - 1 <= |existing|
      decreases |existing| - probes
    {
      assert Tried(base, probes) <= existing;
      SubsetSize(Tried(base, probes), existing);
      candidate := base + "-" + Decimal.Print(suffix) + DOMAIN;
      suffix := suffix + 1;
      probes := probes + 1;
    }
    assert probes > 1 ==> Candidate(base, 0) in existing;
    forall k: nat | 2 <= k < probes ensures base + "-" + Decimal.Print(k) + "@agentpass.local" in existing {
      assert Candidate(base, k - 1) in existing;
    }
    SlugifyIsSlug(name, trim, lower);
    CandidateIsValid(base, probes - 1);
  }
}
