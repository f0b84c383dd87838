/** `stableStringify`: the printer that orders object keys, and the canonical form it prints. */
module StableStringify {
  import opened Json

  /** How keys are compared. `localeCompare` is a total preorder. */
  type KeyOrder = (string, string) -> bool

  ghost predicate TotalPreorder(le: KeyOrder) {
    && (forall a, b :: le(a, b) || le(b, a))
    && (forall a, b, c :: le(a, b) && le(b, c) ==> le(a, c))
  }

  function InsertByKey(e: Entry, es: seq<Entry>, le: KeyOrder): (r: seq<Entry>)
    ensures |r| == |es| + 1
    ensures forall x :: x in r <==> x == e || x in es
  {
    if es == [] then [e]
    else if le(e.key, es[0].key) then [e] + es
    else [es[0]] + InsertByKey(e, es[1..], le)
  }

  function SortByKey(es: seq<Entry>, le: KeyOrder): (r: seq<Entry>)
    ensures |r| == |es|
    ensures forall x :: x in r <==> x in es
  {
    if es == [] then [] else InsertByKey(es[0], SortByKey(es[1..], le), le)
  }

  /** The printer as written: sort the entries of each object, then print them in turn. */
  function Stable(v: Json, le: KeyOrder): string
    decreases v, 1, 0
  {
    match v
    case Array(items) => "[" + StableItems(items, le) + "]"
    case Object(es) => "{" + StableEntries(SortByKey(es, le), le, v) + "}"
    case _ => Stringify(v)
  }

  function StableItems(items: seq<Json>, le: KeyOrder): string
    decreases items, 0, 0
  {
    if items == [] then ""
    else if |items| == 1 then Stable(items[0], le)
    else Stable(items[0], le) + "," + StableItems(items[1..], le)
  }

  function StableEntries(es: seq<Entry>, le: KeyOrder, ghost parent: Json): string
    requires forall e: Entry | e in es :: e.value < parent
    decreases parent, 0, |es|
  {
    if es == [] then ""
    else
      var first := Quote(es[0].key) + ":" + Stable(es[0].value, le);
      if |es| == 1 then first else first + "," + StableEntries(es[1..], le, parent)
  }

  // ---------------------------------------------------------------- equality up to key order

  /** The same value, with the entries of objects at every depth in any order. */
  ghost predicate Same(v: Json, w: Json)
    decreases v, 1
  {
    match (v, w)
    case (Array(xs), Array(ys)) => |xs| == |ys| && forall i | 0 <= i < |xs| :: Same(xs[i], ys[i])
    case (Object(es), Object(fs)) =>
      && (forall i | 0 <= i < |es| :: PartnerRight(es[i], fs))
      && (forall j | 0 <= j < |fs| :: PartnerLeft(es, fs[j]))
    case _ => v == w
  }

  ghost predicate PartnerRight(e: Entry, fs: seq<Entry>)
    decreases e, 1
  {
    exists j | 0 <= j < |fs| :: e.key == fs[j].key && Same(e.value, fs[j].value)
  }

  ghost predicate PartnerLeft(es: seq<Entry>, f: Entry)
    decreases es, 0
  {
    exists i | 0 <= i < |es| :: es[i].key == f.key && Same(es[i].value, f.value)
  }

  // ---------------------------------------------------------------- canonical form

  ghost function Canonical(v: Json, le: KeyOrder): Json
    decreases v, 1
  {
    match v
    case Array(items) => Array(CanonicalItems(items, le))
    case Object(es) => Object(SortByKey(CanonicalEntries(es, le), le))
    case _ => v
  }

  ghost function CanonicalItems(items: seq<Json>, le: KeyOrder): (r: seq<Json>)
    ensures |r| == |items| && forall i | 0 <= i < |items| :: r[i] == Canonical(items[i], le)
    decreases items, 0
  {
    if items == [] then [] else [Canonical(items[0], le)] + CanonicalItems(items[1..], le)
  }

  ghost function CanonicalEntries(es: seq<Entry>, le: KeyOrder): (r: seq<Entry>)
    ensures |r| == |es| && forall i | 0 <= i < |es| :: r[i] == Entry(es[i].key, Canonical(es[i].value, le))
    decreases es, 0
  {
    if es == [] then [] else [Entry(es[0].key, Canonical(es[0].value, le))] + CanonicalEntries(es[1..], le)
  }

  ghost predicate Sorted(es: seq<Entry>, le: KeyOrder) {
    forall i, j | 0 <= i < j < |es| :: le(es[i].key, es[j].key)
  }

  lemma {:induction false} InsertKeepsOrder(e: Entry, es: seq<Entry>, le: KeyOrder)
    requires TotalPreorder(le) && Sorted(es, le)
    ensures Sorted(InsertByKey(e, es, le), le)
  {
    if es != [] && !le(e.key, es[0].key) {
      InsertKeepsOrder(e, es[1..], le);
      var tail := InsertByKey(e, es[1..], le);
      forall x | x in tail ensures le(es[0].key, x.key) {
      }
    }
  }

  /** Sorting puts the keys in order and keeps exactly the same entries. */
  lemma {:induction false} SortSorts(es: seq<Entry>, le: KeyOrder)
    requires TotalPreorder(le)
    ensures Sorted(SortByKey(es, le), le) && multiset(SortByKey(es, le)) == multiset(es)
  {
    if es != [] {
      SortSorts(es[1..], le);
      InsertKeepsOrder(es[0], SortByKey(es[1..], le), le);
      InsertKeepsEntries(es[0], SortByKey(es[1..], le), le);
      assert es == [es[0]] + es[1..];
    }
  }

  lemma {:induction false} InsertKeepsEntries(e: Entry, es: seq<Entry>, le: KeyOrder)
    ensures multiset(InsertByKey(e, es, le)) == multiset(es) + multiset{e}
  {
    if es != [] && !le(e.key, es[0].key) {
      InsertKeepsEntries(e, es[1..], le);
      assert es == [es[0]] + es[1..];
    }
  }

  lemma {:induction false} InsertKeepsDistinct(e: Entry, es: seq<Entry>, le: KeyOrder)
    requires DistinctKeys(es) && forall x | x in es :: x.key != e.key
    ensures DistinctKeys(InsertByKey(e, es, le))
  {
    if es != [] && !le(e.key, es[0].key) {
      InsertKeepsDistinct(e, es[1..], le);
      var tail := InsertByKey(e, es[1..], le);
      forall x | x in tail ensures x.key != es[0].key {
        if x != e { assert x in es[1..]; }
      }
    }
  }

  lemma {:induction false} SortKeepsDistinct(es: seq<Entry>, le: KeyOrder)
    requires DistinctKeys(es)
    ensures DistinctKeys(SortByKey(es, le))
  {
    if es != [] {
      SortKeepsDistinct(es[1..], le);
      InsertKeepsDistinct(es[0], SortByKey(es[1..], le), le);
    }
  }

  /** Two different keys that compare as equal. */
  predicate Tie(a: string, b: string, le: KeyOrder) {
    a != b && le(a, b) && le(b, a)
  }

  ghost predicate NoTies(es: seq<Entry>, le: KeyOrder) {
    forall i, j | 0 <= i < j < |es| :: !Tie(es[i].key, es[j].key, le)
  }

  /** A sorted list without ties is determined by the entries it holds. */
  lemma {:induction false} SortedUnique(xs: seq<Entry>, ys: seq<Entry>, le: KeyOrder)
    requires Sorted(xs, le) && Sorted(ys, le) && DistinctKeys(xs) && DistinctKeys(ys)
    requires forall e, f | e in xs && f in xs :: !Tie(e.key, f.key, le)
    requires forall e :: e in xs <==> e in ys
    ensures xs == ys
  {
    assert (ys != [] ==> ys[0] in ys) && (xs != [] ==> xs[0] in xs);
    if xs != [] {
      assert xs[0] == ys[0];
      forall e ensures e in xs[1..] <==> e in ys[1..] {
        assert e in xs[1..] <==> e in xs && e != xs[0];
        assert e in ys[1..] <==> e in ys && e != ys[0];
      }
      SortedUnique(xs[1..], ys[1..], le);
    }
  }

  lemma {:induction false} CanonicalWellFormed(v: Json, le: KeyOrder)
    requires WellFormed(v)
    ensures WellFormed(Canonical(v, le))
  {
    match v
    case Array(items) =>
      forall i | 0 <= i < |items| ensures WellFormed(Canonical(items[i], le)) { CanonicalWellFormed(items[i], le); }
    case Object(es) =>
      var cs := CanonicalEntries(es, le);
      forall i | 0 <= i < |es| ensures WellFormed(cs[i].value) { CanonicalWellFormed(es[i].value, le); }
      SortKeepsDistinct(cs, le);
      var ss := SortByKey(cs, le);
      forall i | 0 <= i < |ss| ensures WellFormed(ss[i].value) { assert ss[i] in cs; }
    case _ =>
  }

  // ---------------------------------------------------------------- the printer prints the canonical form

  lemma {:induction false} InsertCommutes(e: Entry, es: seq<Entry>, le: KeyOrder)
    ensures CanonicalEntries(InsertByKey(e, es, le), le)
         == InsertByKey(Entry(e.key, Canonical(e.value, le)), CanonicalEntries(es, le), le)
  {
    if es != [] && !le(e.key, es[0].key) {
      InsertCommutes(e, es[1..], le);
      assert CanonicalEntries(es, le)[1..] == CanonicalEntries(es[1..], le);
    }
  }

  lemma {:induction false} SortCommutes(es: seq<Entry>, le: KeyOrder)
    ensures CanonicalEntries(SortByKey(es, le), le) == SortByKey(CanonicalEntries(es, le), le)
  {
    if es != [] {
      SortCommutes(es[1..], le);
      InsertCommutes(es[0], SortByKey(es[1..], le), le);
      assert CanonicalEntries(es, le)[1..] == CanonicalEntries(es[1..], le);
    }
  }

  /** The one-pass printer prints exactly the recursively sorted value. */
  lemma {:induction false} StableIsCanonicalText(v: Json, le: KeyOrder)
    ensures Stable(v, le) == Stringify(Canonical(v, le))
    decreases v, 1, 0
  {
    match v
    case Array(items) => StableItemsText(items, le);
    case Object(es) =>
      StableEntriesText(SortByKey(es, le), le, v);
      SortCommutes(es, le);
    case _ =>
  }

  lemma {:induction false} StableItemsText(items: seq<Json>, le: KeyOrder)
    ensures StableItems(items, le) == StringifyItems(CanonicalItems(items, le))
    decreases items, 0, 0
  {
    if items != [] {
      StableIsCanonicalText(items[0], le);
      StableItemsText(items[1..], le);
      assert CanonicalItems(items, le)[1..] == CanonicalItems(items[1..], le);
    }
  }

  lemma {:induction false} StableEntriesText(es: seq<Entry>, le: KeyOrder, parent: Json)
    requires forall e: Entry | e in es :: e.value < parent
    ensures StableEntries(es, le, parent) == StringifyEntries(CanonicalEntries(es, le))
    decreases parent, 0, |es|
  {
    if es != [] {
      StableIsCanonicalText(es[0].value, le);
      StableEntriesText(es[1..], le, parent);
      assert CanonicalEntries(es, le)[1..] == CanonicalEntries(es[1..], le);
    }
  }

  // ---------------------------------------------------------------- same values print alike when nothing ties

  /** No object inside the value holds two different keys that tie. */
  ghost predicate Untied(v: Json, le: KeyOrder) {
    match v
    case Array(items) => forall i | 0 <= i < |items| :: Untied(items[i], le)
    case Object(es) => NoTies(es, le) && forall i | 0 <= i < |es| :: Untied(es[i].value, le)
    case _ => true
  }

  lemma {:induction false} SameCanonical(v: Json, w: Json, le: KeyOrder)
    requires TotalPreorder(le) && WellFormed(v) && WellFormed(w) && Same(v, w) && Untied(v, le)
    ensures Canonical(v, le) == Canonical(w, le)
    decreases v, 2
  {
    match (v, w)
    case (Array(xs), Array(ys)) =>
      forall i | 0 <= i < |xs| ensures Canonical(xs[i], le) == Canonical(ys[i], le) { SameCanonical(xs[i], ys[i], le); }
    case (Object(es), Object(fs)) =>
      var cs, ds := CanonicalEntries(es, le), CanonicalEntries(fs, le);
      forall i | 0 <= i < |es| ensures cs[i] in ds { SamePartnerRight(es, fs, i, le); }
      forall j | 0 <= j < |fs| ensures ds[j] in cs { SamePartnerLeft(es, fs, j, le); }
      SortUnique(cs, ds, le);
    case _ =>
  }

  lemma SortUnique(cs: seq<Entry>, ds: seq<Entry>, le: KeyOrder)
    requires TotalPreorder(le) && DistinctKeys(cs) && DistinctKeys(ds) && NoTies(cs, le)
    requires (forall i | 0 <= i < |cs| :: cs[i] in ds) && (forall j | 0 <= j < |ds| :: ds[j] in cs)
    ensures SortByKey(cs, le) == SortByKey(ds, le)
  {
    SortSorts(cs, le);
    SortSorts(ds, le);
    SortKeepsDistinct(cs, le);
    SortKeepsDistinct(ds, le);
    SortedUnique(SortByKey(cs, le), SortByKey(ds, le), le);
  }

  lemma {:induction false} SamePartnerRight(es: seq<Entry>, fs: seq<Entry>, i: nat, le: KeyOrder)
    requires TotalPreorder(le) && i < |es| && WellFormed(es[i].value) && Untied(es[i].value, le)
    requires (forall j | 0 <= j < |fs| :: WellFormed(fs[j].value)) && PartnerRight(es[i], fs)
    ensures CanonicalEntries(es, le)[i] in CanonicalEntries(fs, le)
    decreases es, 0
  {
    var j :| 0 <= j < |fs| && es[i].key == fs[j].key && Same(es[i].value, fs[j].value);
    SameCanonical(es[i].value, fs[j].value, le);
    assert CanonicalEntries(es, le)[i] == CanonicalEntries(fs, le)[j];
  }

  lemma {:induction false} SamePartnerLeft(es: seq<Entry>, fs: seq<Entry>, j: nat, le: KeyOrder)
    requires TotalPreorder(le) && j < |fs| && WellFormed(fs[j].value)
    requires (forall i | 0 <= i < |es| :: WellFormed(es[i].value) && Untied(es[i].value, le)) && PartnerLeft(es, fs[j])
    ensures CanonicalEntries(fs, le)[j] in CanonicalEntries(es, le)
    decreases es, 0
  {
    var i :| 0 <= i < |es| && es[i].key == fs[j].key && Same(es[i].value, fs[j].value);
    SameCanonical(es[i].value, fs[j].value, le);
    assert CanonicalEntries(es, le)[i] == CanonicalEntries(fs, le)[j];
  }

  // ---------------------------------------------------------------- values that print alike are the same

  lemma {:induction false} CanonicalSame(v: Json, w: Json, le: KeyOrder)
    requires Canonical(v, le) == Canonical(w, le)
    ensures Same(v, w)
    decreases v, 2
  {
    match (v, w)
    case (Array(xs), Array(ys)) =>
      forall i | 0 <= i < |xs| ensures Same(xs[i], ys[i]) {
        assert CanonicalItems(xs, le)[i] == CanonicalItems(ys, le)[i];
        CanonicalSame(xs[i], ys[i], le);
      }
    case (Object(es), Object(fs)) =>
      var cs, ds := CanonicalEntries(es, le), CanonicalEntries(fs, le);
      assert SortByKey(cs, le) == SortByKey(ds, le);
      forall e ensures e in cs <==> e in ds { assert e in cs <==> e in SortByKey(cs, le); }
      forall i | 0 <= i < |es| ensures PartnerRight(es[i], fs) { CanonicalPartnerRight(es, fs, i, le); }
      forall j | 0 <= j < |fs| ensures PartnerLeft(es, fs[j]) { CanonicalPartnerLeft(es, fs, j, le); }
    case _ =>
  }

  lemma {:induction false} CanonicalPartnerRight(es: seq<Entry>, fs: seq<Entry>, i: nat, le: KeyOrder)
    requires i < |es| && forall e :: e in CanonicalEntries(es, le) <==> e in CanonicalEntries(fs, le)
    ensures PartnerRight(es[i], fs)
    decreases es, 0
  {
    var cs, ds := CanonicalEntries(es, le), CanonicalEntries(fs, le);
    assert cs[i] in ds;
    var j :| 0 <= j < |fs| && ds[j] == cs[i];
    CanonicalSame(es[i].value, fs[j].value, le);
  }

  lemma {:induction false} CanonicalPartnerLeft(es: seq<Entry>, fs: seq<Entry>, j: nat, le: KeyOrder)
    requires j < |fs| && forall e :: e in CanonicalEntries(es, le) <==> e in CanonicalEntries(fs, le)
    ensures PartnerLeft(es, fs[j])
    decreases es, 0
  {
    var cs, ds := CanonicalEntries(es, le), CanonicalEntries(fs, le);
    assert ds[j] in cs;
    var i :| 0 <= i < |es| && cs[i] == ds[j];
    CanonicalSame(es[i].value, fs[j].value, le);
  }

  /** Whatever the comparison: one text has one canonical form. */
  lemma SameTextSameCanonical(v: Json, w: Json, le: KeyOrder)
    requires WellFormed(v) && WellFormed(w)
    ensures Stable(v, le) == Stable(w, le) <==> Canonical(v, le) == Canonical(w, le)
  {
    StableIsCanonicalText(v, le);
    StableIsCanonicalText(w, le);
    CanonicalWellFormed(v, le);
    CanonicalWellFormed(w, le);
    ParseRoundTrip(Canonical(v, le));
    ParseRoundTrip(Canonical(w, le));
  }

  /** Whatever the comparison: values that print alike are equal up to key order at every depth. */
  lemma SameTextSame(v: Json, w: Json, le: KeyOrder)
    requires WellFormed(v) && WellFormed(w) && Stable(v, le) == Stable(w, le)
    ensures Same(v, w)
  {
    SameTextSameCanonical(v, w, le);
    CanonicalSame(v, w, le);
  }

  /** For a value without ties: another prints alike exactly when it is equal up to key order at every depth. */
  lemma SameTextIffSame(v: Json, w: Json, le: KeyOrder)
    requires TotalPreorder(le) && WellFormed(v) && WellFormed(w) && Untied(v, le)
    ensures Stable(v, le) == Stable(w, le) <==> Same(v, w)
  {
    SameTextSameCanonical(v, w, le);
    if Same(v, w) {
      SameCanonical(v, w, le);
    } else if Stable(v, le) == Stable(w, le) {
      SameTextSame(v, w, le);
    }
  }

  /** The reader recovers the key-sorted value from the printed text, whatever the comparison and the delimiter. */
  lemma ParseStable(v: Json, rest: string, le: KeyOrder)
    requires WellFormed(v) && Delimited(rest)
    ensures ParseValue(Stable(v, le) + rest) == Parsed(Canonical(v, le), rest)
    ensures Same(v, Canonical(v, le))
  {
    StableIsCanonicalText(v, le);
    CanonicalWellFormed(v, le);
    ParseStringify(Canonical(v, le), rest);
    SameAsCanonical(v, le);
  }

  lemma {:induction false} SameAsCanonical(v: Json, le: KeyOrder)
    ensures Same(v, Canonical(v, le))
    decreases v, 1
  {
    match v
    case Array(items) =>
      forall i | 0 <= i < |items| ensures Same(items[i], Canonical(items[i], le)) { SameAsCanonical(items[i], le); }
    case Object(es) =>
      var cs := CanonicalEntries(es, le);
      var ss := SortByKey(cs, le);
      forall i | 0 <= i < |es| ensures Same(es[i].value, cs[i].value) { SameAsCanonical(es[i].value, le); }
      forall i | 0 <= i < |es| ensures PartnerRight(es[i], ss) {
        assert cs[i] in ss;
        var j :| 0 <= j < |ss| && ss[j] == cs[i];
      }
      forall j | 0 <= j < |ss| ensures PartnerLeft(es, ss[j]) {
        assert ss[j] in cs;
        var i :| 0 <= i < |cs| && cs[i] == ss[j];
      }
    case _ =>
  }

  lemma {:induction false} SortOfSorted(es: seq<Entry>, le: KeyOrder)
    requires Sorted(es, le)
    ensures SortByKey(es, le) == es
  {
    if es != [] {
      SortOfSorted(es[1..], le);
    }
  }

  /** Sorting the keys of a value twice is sorting them once. */
  lemma {:induction false} CanonicalIdempotent(v: Json, le: KeyOrder)
    requires TotalPreorder(le)
    ensures Canonical(Canonical(v, le), le) == Canonical(v, le)
  {
    match v
    case Array(items) =>
      forall i | 0 <= i < |items| ensures Canonical(Canonical(items[i], le), le) == Canonical(items[i], le) {
        CanonicalIdempotent(items[i], le);
      }
      assert CanonicalItems(CanonicalItems(items, le), le) == CanonicalItems(items, le);
    case Object(es) =>
      var cs := CanonicalEntries(es, le);
      forall i | 0 <= i < |es|
        ensures Canonical(cs[i].value, le) == cs[i].value { CanonicalIdempotent(es[i].value, le); }
      var ss := SortByKey(cs, le);
      forall i | 0 <= i < |ss| ensures Canonical(ss[i].value, le) == ss[i].value { assert ss[i] in cs; }
      assert CanonicalEntries(ss, le) == ss;
      SortSorts(cs, le);
      SortOfSorted(ss, le);
    case _ =>
  }

  // ---------------------------------------------------------------- tied keys print in the order they come

  /** The same value with the entries of every object in reverse. */
  function Mirror(v: Json): Json
    decreases v, 1
  {
    match v
    case Array(items) => Array(MirrorItems(items))
    case Object(es) => Object(MirrorEntries(es))
    case _ => v
  }

  function MirrorItems(items: seq<Json>): (r: seq<Json>)
    ensures |r| == |items| && forall i | 0 <= i < |items| :: r[i] == Mirror(items[i])
    decreases items, 0
  {
    if items == [] then [] else [Mirror(items[0])] + MirrorItems(items[1..])
  }

  function MirrorEntries(es: seq<Entry>): (r: seq<Entry>)
    ensures |r| == |es|
    decreases es, 0
  {
    if es == [] then [] else MirrorEntries(es[1..]) + [Entry(es[0].key, Mirror(es[0].value))]
  }

  lemma {:induction false} MirrorAt(es: seq<Entry>, i: nat, j: nat)
    requires i < |es| && j == |es| - 1 - i
    ensures MirrorEntries(es)[j] == Entry(es[i].key, Mirror(es[i].value))
  {
    if i > 0 {
      MirrorAt(es[1..], i - 1, j);
    }
  }

  lemma {:induction false} MirrorWellFormed(v: Json)
    requires WellFormed(v)
    ensures WellFormed(Mirror(v))
  {
    match v
    case Array(items) =>
      forall i | 0 <= i < |items| ensures WellFormed(Mirror(items[i])) { MirrorWellFormed(items[i]); }
    case Object(es) =>
      var ms, n := MirrorEntries(es), |es|;
      forall j | 0 <= j < n ensures WellFormed(ms[j].value) {
        MirrorAt(es, n - 1 - j, j);
        MirrorWellFormed(es[n - 1 - j].value);
      }
      forall i, j | 0 <= i < j < n ensures ms[i].key != ms[j].key {
        MirrorAt(es, n - 1 - i, i);
        MirrorAt(es, n - 1 - j, j);
      }
    case _ =>
  }

  lemma {:induction false} MirrorSame(v: Json)
    ensures Same(v, Mirror(v))
  {
    match v
    case Array(items) =>
      forall i | 0 <= i < |items| ensures Same(items[i], Mirror(items[i])) { MirrorSame(items[i]); }
    case Object(es) =>
      forall i | 0 <= i < |es| ensures Same(es[i].value, Mirror(es[i].value)) { MirrorSame(es[i].value); }
      MirrorPartners(es);
    case _ =>
  }

  lemma MirrorPartners(es: seq<Entry>)
    requires forall i | 0 <= i < |es| :: Same(es[i].value, Mirror(es[i].value))
    ensures forall i | 0 <= i < |es| :: PartnerRight(es[i], MirrorEntries(es))
    ensures forall j | 0 <= j < |es| :: PartnerLeft(es, MirrorEntries(es)[j])
  {
    var ms, n := MirrorEntries(es), |es|;
    forall i | 0 <= i < n ensures PartnerRight(es[i], ms) {
      var j := n - 1 - i;
      MirrorAt(es, i, j);
      assert es[i].key == ms[j].key;
    }
    forall j | 0 <= j < n ensures PartnerLeft(es, ms[j]) {
      var i := n - 1 - j;
      MirrorAt(es, i, j);
      assert es[i].key == ms[j].key;
    }
  }

  ghost predicate Precedes(es: seq<Entry>, x: Entry, y: Entry) {
    exists i, j | 0 <= i < j < |es| :: es[i] == x && es[j] == y
  }

  lemma PrecedesCons(e: Entry, es: seq<Entry>, x: Entry, y: Entry)
    requires Precedes(es, x, y) || (e == x && y in es)
    ensures Precedes([e] + es, x, y)
  {
    var s := [e] + es;
    if Precedes(es, x, y) {
      var i, j :| 0 <= i < j < |es| && es[i] == x && es[j] == y;
      assert s[i + 1] == x && s[j + 1] == y;
    } else {
      var j :| 0 <= j < |es| && es[j] == y;
      assert s[0] == x && s[j + 1] == y;
    }
  }

  lemma {:induction false} InsertKeepsPrecedes(e: Entry, es: seq<Entry>, x: Entry, y: Entry, le: KeyOrder)
    requires Precedes(es, x, y)
    ensures Precedes(InsertByKey(e, es, le), x, y)
  {
    if le(e.key, es[0].key) {
      PrecedesCons(e, es, x, y);
    } else {
      var i, j :| 0 <= i < j < |es| && es[i] == x && es[j] == y;
      if i > 0 {
        assert es[1..][i - 1] == x && es[1..][j - 1] == y;
        InsertKeepsPrecedes(e, es[1..], x, y, le);
      } else {
        assert es[1..][j - 1] == y;
      }
      PrecedesCons(es[0], InsertByKey(e, es[1..], le), x, y);
    }
  }

  lemma {:induction false} InsertedPrecedes(e: Entry, es: seq<Entry>, y: Entry, le: KeyOrder)
    requires y in es && le(e.key, y.key)
    ensures Precedes(InsertByKey(e, es, le), e, y)
  {
    if le(e.key, es[0].key) {
      PrecedesCons(e, es, e, y);
    } else {
      InsertedPrecedes(e, es[1..], y, le);
      PrecedesCons(es[0], InsertByKey(e, es[1..], le), e, y);
    }
  }

  /** The sort is stable: an entry that need not move behind a later one stays before it. */
  lemma {:induction false} SortStable(es: seq<Entry>, i: nat, j: nat, le: KeyOrder)
    requires i < j < |es| && le(es[i].key, es[j].key)
    ensures Precedes(SortByKey(es, le), es[i], es[j])
  {
    if i == 0 {
      assert es[j] in es[1..];
      InsertedPrecedes(es[0], SortByKey(es[1..], le), es[j], le);
    } else {
      SortStable(es[1..], i - 1, j - 1, le);
      InsertKeepsPrecedes(es[0], SortByKey(es[1..], le), es[i], es[j], le);
    }
  }

  lemma ReversedTie(cs: seq<Entry>, ds: seq<Entry>, i: nat, j: nat, le: KeyOrder)
    requires |ds| == |cs| && DistinctKeys(cs) && i < j < |cs| && Tie(cs[i].key, cs[j].key, le)
    requires ds[|cs| - 1 - i] == cs[i] && ds[|cs| - 1 - j] == cs[j]
    ensures SortByKey(cs, le) != SortByKey(ds, le)
  {
    SortStable(cs, i, j, le);
    SortStable(ds, |cs| - 1 - j, |cs| - 1 - i, le);
    SortKeepsDistinct(cs, le);
  }

  lemma EntryValue(cs: seq<Entry>, ds: seq<Entry>, i: nat, k: nat, le: KeyOrder)
    requires i < |cs| && k < |ds| && cs[i].key == ds[k].key && DistinctKeys(cs)
    requires SortByKey(cs, le) == SortByKey(ds, le)
    ensures cs[i] == ds[k]
  {
    assert ds[k] in SortByKey(ds, le);
    assert ds[k] in cs;
  }

  /** A value that prints like its mirror image holds no ties. */
  lemma {:induction false} MirrorCanonicalUntied(v: Json, le: KeyOrder)
    requires WellFormed(v) && Canonical(v, le) == Canonical(Mirror(v), le)
    ensures Untied(v, le)
    decreases v, 1
  {
    match v
    case Array(items) =>
      forall i | 0 <= i < |items| ensures Untied(items[i], le) {
        assert CanonicalItems(items, le)[i] == CanonicalItems(MirrorItems(items), le)[i];
        MirrorCanonicalUntied(items[i], le);
      }
    case Object(es) => MirrorEntriesUntied(v, le);
    case _ =>
  }

  lemma {:induction false} MirrorEntriesUntied(v: Json, le: KeyOrder)
    requires v.Object? && WellFormed(v) && Canonical(v, le) == Canonical(Mirror(v), le)
    ensures Untied(v, le)
    decreases v, 0
  {
    var es := v.entries;
    MirrorEntriesAgree(es, le);
    forall i | 0 <= i < |es| ensures Untied(es[i].value, le) {
      MirrorCanonicalUntied(es[i].value, le);
    }
  }

  ghost predicate MirrorSortsAlike(es: seq<Entry>, le: KeyOrder) {
    DistinctKeys(es) && SortByKey(CanonicalEntries(es, le), le)
      == SortByKey(CanonicalEntries(MirrorEntries(es), le), le)
  }

  lemma MirrorEntriesAgree(es: seq<Entry>, le: KeyOrder)
    requires MirrorSortsAlike(es, le)
    ensures forall i | 0 <= i < |es| :: Canonical(es[i].value, le) == Canonical(Mirror(es[i].value), le)
    ensures NoTies(es, le)
  {
    forall i | 0 <= i < |es| ensures Canonical(es[i].value, le) == Canonical(Mirror(es[i].value), le) {
      MirrorValueAgrees(es, i, |es| - 1 - i, le);
    }
    forall i, j | 0 <= i < j < |es| ensures !Tie(es[i].key, es[j].key, le) {
      MirrorTieless(es, i, j, le);
    }
  }

  lemma MirrorValueAgrees(es: seq<Entry>, i: nat, j: nat, le: KeyOrder)
    requires MirrorSortsAlike(es, le) && i < |es| && j == |es| - 1 - i
    ensures CanonicalEntries(es, le)[i] == CanonicalEntries(MirrorEntries(es), le)[j]
    ensures Canonical(es[i].value, le) == Canonical(Mirror(es[i].value), le)
  {
    MirrorCanonicalAt(es, i, j, le);
    EntryValue(CanonicalEntries(es, le), CanonicalEntries(MirrorEntries(es), le), i, j, le);
  }

  lemma MirrorTieless(es: seq<Entry>, i: nat, j: nat, le: KeyOrder)
    requires MirrorSortsAlike(es, le) && i < j < |es|
    ensures !Tie(es[i].key, es[j].key, le)
  {
    if Tie(es[i].key, es[j].key, le) {
      MirrorValueAgrees(es, i, |es| - 1 - i, le);
      MirrorValueAgrees(es, j, |es| - 1 - j, le);
      ReversedTie(CanonicalEntries(es, le), CanonicalEntries(MirrorEntries(es), le), i, j, le);
    }
  }

  lemma MirrorCanonicalAt(es: seq<Entry>, i: nat, j: nat, le: KeyOrder)
    requires i < |es| && j == |es| - 1 - i
    ensures CanonicalEntries(MirrorEntries(es), le)[j] == Entry(es[i].key, Canonical(Mirror(es[i].value), le))
  {
    MirrorAt(es, i, j);
  }

  /** All values equal to this one up to key order print like it. */
  ghost predicate PrintsAlike(v: Json, le: KeyOrder) {
    forall w | WellFormed(w) && Same(v, w) :: Stable(v, le) == Stable(w, le)
  }

  lemma UntiedPrintsAlike(v: Json, le: KeyOrder)
    requires TotalPreorder(le) && WellFormed(v) && Untied(v, le)
    ensures PrintsAlike(v, le)
  {
    forall w | WellFormed(w) && Same(v, w) ensures Stable(v, le) == Stable(w, le) {
      SameTextIffSame(v, w, le);
    }
  }

  /** All orders of a value's keys print alike exactly when no object inside it holds two different tied keys. */
  lemma PrintsAlikeIffUntied(v: Json, le: KeyOrder)
    requires TotalPreorder(le) && WellFormed(v)
    ensures PrintsAlike(v, le) <==> Untied(v, le)
  {
    if Untied(v, le) {
      UntiedPrintsAlike(v, le);
    } else {
      TiedKeysPrintApart(v, le);
    }
  }

  /** Whatever the comparison: a value with ties and its mirror image are the same value in two texts. */
  lemma TiedKeysPrintApart(v: Json, le: KeyOrder)
    requires WellFormed(v) && !Untied(v, le)
    ensures WellFormed(Mirror(v)) && Same(v, Mirror(v)) && Stable(v, le) != Stable(Mirror(v), le)
  {
    MirrorWellFormed(v);
    MirrorSame(v);
    SameTextSameCanonical(v, Mirror(v), le);
    if Stable(v, le) == Stable(Mirror(v), le) {
      MirrorCanonicalUntied(v, le);
    }
  }
}
