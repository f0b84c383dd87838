/** The in-memory fixed-window rate limiter with a bounded, insertion-ordered bucket map. */
module RateLimit {
  import opened Options
  import Strings

  const MAX_BUCKETS := 20_000

  type Positive = n: int | n >= 1 witness 1

  datatype Entry = Entry(count: Positive, resetAt: int)

  /** One entry of the map; the map is the sequence of its entries in insertion order. */
  datatype Bucket = Bucket(key: string, entry: Entry)

  datatype Reply = Reply(count: Positive, resetAt: int, remaining: int)

  datatype Decision = NotCounted | Accepted(remaining: int, resetAt: int) | RateLimited(retryAfterSeconds: int)

  /** `(request.url ?? '').split('?')[0]`. */
  function PathOf(url: Option<string>): string {
    Strings.Split(if url.Some? then url.value else "", '?')[0]
  }

  predicate IsHealthPath(path: string) {
    path == "/health" || path == "/health/ready"
  }

  predicate Distinct(bs: seq<Bucket>) {
    forall i, j | 0 <= i < j < |bs| :: bs[i].key != bs[j].key
  }

  function IndexOf(bs: seq<Bucket>, key: string): (i: nat)
    ensures i <= |bs|
    ensures i < |bs| ==> bs[i].key == key
    ensures forall j | 0 <= j < i :: bs[j].key != key
  {
    if bs == [] || bs[0].key == key then 0 else 1 + IndexOf(bs[1..], key)
  }

  /** `buckets.get(key)`. */
  function Get(bs: seq<Bucket>, key: string): Option<Entry> {
    var i := IndexOf(bs, key);
    if i < |bs| then Some(bs[i].entry) else None
  }

  /** `buckets.set(key, entry)`: a present key keeps its place, a new key goes last. */
  function Set(bs: seq<Bucket>, key: string, entry: Entry): seq<Bucket> {
    var i := IndexOf(bs, key);
    if i < |bs| then bs[i := Bucket(key, entry)] else bs + [Bucket(key, entry)]
  }

  /** The buckets whose window is still open at `now`. */
  function Open(bs: seq<Bucket>, now: int): (r: seq<Bucket>)
    ensures |r| <= |bs|
  {
    if bs == [] then []
    else if bs[|bs| - 1].entry.resetAt <= now then Open(bs[..|bs| - 1], now)
    else Open(bs[..|bs| - 1], now) + [bs[|bs| - 1]]
  }

  /** What a clean-up leaves: all below the bound; at the bound, the open buckets other than the first. */
  function Swept(bs: seq<Bucket>, now: int): (r: seq<Bucket>)
    ensures |bs| <= MAX_BUCKETS ==> |r| < MAX_BUCKETS
  {
    if |bs| < MAX_BUCKETS then bs else Open(bs[1..], now)
  }

  /** The fixed-window counter of one key. */
  function Next(entry: Option<Entry>, windowMs: int, now: int): Entry {
    if entry.None? || entry.value.resetAt <= now then Entry(1, now + windowMs)
    else Entry(entry.value.count + 1, entry.value.resetAt)
  }

  /** The buckets after one hit. */
  function Hit(bs: seq<Bucket>, key: string, windowMs: int, now: int): seq<Bucket> {
    var kept := Swept(bs, now);
    Set(kept, key, Next(Get(kept, key), windowMs, now))
  }

  function Max(a: int, b: int): int {
    if a < b then b else a
  }

  /** `Math.max(1, Math.ceil((resetAt - now) / 1000))`. */
  function RetryAfterSeconds(resetAt: int, now: int): int {
    Max(1, (resetAt - now + 999) / 1000)
  }

  /** In the middle of a clean-up that has looked at `seen` of the buckets in `was` and is at position `i` of `bs`. */
  ghost predicate Sweeping(was: seq<Bucket>, bs: seq<Bucket>, i: nat, seen: nat, now: int)
    requires i <= |bs| && seen <= |was|
  {
    && bs[i..] == was[seen..]
    && (if seen == 0 then i == 0 && bs == was else |bs| < MAX_BUCKETS && bs[..i] == Open(was[1..seen], now))
  }

  lemma SweepOne(was: seq<Bucket>, bs: seq<Bucket>, i: nat, seen: nat, now: int)
    requires i < |bs| && seen <= |was| && |was| == MAX_BUCKETS && Sweeping(was, bs, i, seen, now)
    ensures seen < |was|
    ensures if bs[i].entry.resetAt <= now || |bs| >= MAX_BUCKETS
            then Sweeping(was, bs[..i] + bs[i + 1..], i, seen + 1, now)
            else Sweeping(was, bs, i + 1, seen + 1, now)
  {
    assert bs[i] == was[seen..][0] == was[seen];
    assert bs[i + 1..] == bs[i..][1..] == was[seen + 1..];
    OpenNext(was, seen, now);
    var dropped := bs[..i] + bs[i + 1..];
    assert dropped[..i] == bs[..i] && dropped[i..] == bs[i + 1..];
    assert bs[..i + 1] == bs[..i] + [bs[i]];
  }

  // ---------------------------------------------------------------- the middleware's state

  class RateLimiter {
    var buckets: seq<Bucket>

    ghost predicate Valid()
      reads this
    {
      Distinct(buckets) && |buckets| <= MAX_BUCKETS
    }

    constructor ()
      ensures Valid() && buckets == []
    {
      buckets := [];
    }

    /** The deleting loop of `cleanupBuckets`, which looks at the shrinking size in every round. */
    method CleanupBuckets(now: int)
      requires Valid()
      modifies this
      ensures Valid() && buckets == Swept(old(buckets), now)
    {
      if |buckets| < MAX_BUCKETS {
        return;
      }
      ghost var was := buckets;
      ghost var seen := 0;
      var i := 0;
      while i < |buckets|
        invariant 0 <= i <= |buckets| && 0 <= seen <= |was| && Sweeping(was, buckets, i, seen, now)
        decreases |was| - seen
      {
        SweepOne(was, buckets, i, seen, now);
        if buckets[i].entry.resetAt <= now || |buckets| >= MAX_BUCKETS {
          buckets := buckets[..i] + buckets[i + 1..];
        } else {
          i := i + 1;
        }
        seen := seen + 1;
      }
      assert seen == |was| && buckets == buckets[..i] && was[1..] == was[1..seen];
      OpenMembers(was[1..], now);
    }

    /** `hitMemoryLimit`. */
    method HitMemoryLimit(key: string, windowMs: int, max: nat, now: int) returns (reply: Reply)
      requires Valid()
      modifies this
      ensures Valid() && buckets == Hit(old(buckets), key, windowMs, now)
      ensures Get(buckets, key) == Some(Entry(reply.count, reply.resetAt))
      ensures reply.remaining == if reply.count == 1 then max - 1 else Max(0, max - reply.count)
    {
      CleanupBuckets(now);
      var i := IndexOf(buckets, key);
      HitGet(old(buckets), key, key, windowMs, now);
      if i == |buckets| {
        buckets := buckets + [Bucket(key, Entry(1, now + windowMs))];
        return Reply(1, now + windowMs, max - 1);
      }
      if buckets[i].entry.resetAt <= now {
        buckets := buckets[i := Bucket(key, Entry(1, now + windowMs))];
        return Reply(1, now + windowMs, max - 1);
      }
      var count := buckets[i].entry.count + 1;
      buckets := buckets[i := Bucket(key, Entry(count, buckets[i].entry.resetAt))];
      return Reply(count, buckets[i].entry.resetAt, Max(0, max - count));
    }

    /** The accept or deny decision of `use`; health checks pass without being counted. */
    method Use(url: Option<string>, key: string, windowMs: int, max: nat, now: int) returns (decision: Decision)
      requires Valid()
      modifies this
      ensures Valid()
      ensures IsHealthPath(PathOf(url)) ==> decision.NotCounted? && buckets == old(buckets)
      ensures !IsHealthPath(PathOf(url)) ==>
        buckets == Hit(old(buckets), key, windowMs, now) && Get(buckets, key).Some? &&
        var e := Get(buckets, key).value;
        decision == (if e.count <= max then Accepted(max - e.count, e.resetAt)
                     else RateLimited(RetryAfterSeconds(e.resetAt, now)))
    {
      var path := PathOf(url);
      if path == "/health" || path == "/health/ready" {
        return NotCounted;
      }
      var reply := HitMemoryLimit(key, windowMs, max, now);
      if reply.count > max {
        return RateLimited(Max(1, (reply.resetAt - now + 999) / 1000));
      }
      return Accepted(reply.remaining, reply.resetAt);
    }
  }

  lemma OpenNext(bs: seq<Bucket>, n: nat, now: int)
    requires n < |bs|
    ensures n == 0 ==> bs[1..1] == []
    ensures n > 0 ==> Open(bs[1..n + 1], now)
                      == Open(bs[1..n], now) + if bs[n].entry.resetAt <= now then [] else [bs[n]]
  {
    if n > 0 {
      assert bs[1..n + 1][..n - 1] == bs[1..n];
    }
  }

  lemma IndexOfIs(bs: seq<Bucket>, key: string, i: nat)
    requires i <= |bs| && (i < |bs| ==> bs[i].key == key) && forall j | 0 <= j < i :: bs[j].key != key
    ensures IndexOf(bs, key) == i
  {
    assert forall k | 0 <= k < i :: bs[k].key != key;
  }

  lemma GetSet(bs: seq<Bucket>, key: string, other: string, entry: Entry)
    ensures Get(Set(bs, key, entry), other) == if other == key then Some(entry) else Get(bs, other)
  {
    var i, j := IndexOf(bs, key), IndexOf(bs, other);
    var r := Set(bs, key, entry);
    if other == key {
      IndexOfIs(r, key, i);
    } else {
      IndexOfIs(r, other, if j == |bs| then |r| else j);
    }
  }

  lemma HitGet(bs: seq<Bucket>, key: string, other: string, windowMs: int, now: int)
    ensures Get(Hit(bs, key, windowMs, now), other) ==
      if other == key then Some(Next(Get(Swept(bs, now), key), windowMs, now)) else Get(Swept(bs, now), other)
  {
    var kept := Swept(bs, now);
    GetSet(kept, key, other, Next(Get(kept, key), windowMs, now));
  }

  // ---------------------------------------------------------------- bounded map

  lemma {:induction false} OpenMembers(bs: seq<Bucket>, now: int)
    ensures forall b :: b in Open(bs, now) <==> b in bs && b.entry.resetAt > now
    ensures Distinct(bs) ==> Distinct(Open(bs, now))
  {
    if bs != [] {
      var n := |bs| - 1;
      OpenMembers(bs[..n], now);
      assert bs == bs[..n] + [bs[n]];
    }
  }

  /** The map never exceeds its bound; a hit drops an open bucket only when the map is full,
      and then only the first one in insertion order. */
  lemma HitDropsAtMostFirst(bs: seq<Bucket>, key: string, windowMs: int, now: int)
    requires Distinct(bs) && |bs| <= 20_000
    ensures Distinct(Hit(bs, key, windowMs, now)) && |Hit(bs, key, windowMs, now)| <= 20_000
    ensures forall b | b in bs && b.entry.resetAt > now && b !in Swept(bs, now) :: |bs| == 20_000 && b == bs[0]
    ensures forall other | other != key :: Get(Hit(bs, key, windowMs, now), other) == Get(Swept(bs, now), other)
  {
    var kept := Swept(bs, now);
    if |bs| == MAX_BUCKETS {
      OpenMembers(bs[1..], now);
      assert forall b | b in bs :: b == bs[0] || b in bs[1..];
    }
    forall other ensures other != key ==> Get(Hit(bs, key, windowMs, now), other) == Get(kept, other) {
      HitGet(bs, key, other, windowMs, now);
    }
  }

  // ---------------------------------------------------------------- agreement with an unbounded counter

  datatype HitAt = HitAt(key: string, now: int)

  /** The buckets after a sequence of hits. */
  function Run(hits: seq<HitAt>, windowMs: int): seq<Bucket> {
    if hits == [] then []
    else
      var n := |hits| - 1;
      Hit(Run(hits[..n], windowMs), hits[n].key, windowMs, hits[n].now)
  }

  /** The counter of a key that has the memory for itself. */
  function After(times: seq<int>, windowMs: int): Option<Entry> {
    if times == [] then None
    else Some(Next(After(times[..|times| - 1], windowMs), windowMs, times[|times| - 1]))
  }

  function TimesOf(hits: seq<HitAt>, key: string): seq<int> {
    if hits == [] then []
    else
      var n := |hits| - 1;
      if hits[n].key == key then TimesOf(hits[..n], key) + [hits[n].now] else TimesOf(hits[..n], key)
  }

  predicate TimesOrdered(hits: seq<HitAt>) {
    forall i, j | 0 <= i < j < |hits| :: hits[i].now <= hits[j].now
  }

  /** An entry whose window has closed counts as no entry. */
  function OpenAt(entry: Option<Entry>, now: int): Option<Entry> {
    if entry.Some? && entry.value.resetAt > now then entry else None
  }

  predicate KeptOpen(bs: seq<Bucket>, key: string, now: int) {
    OpenAt(Get(Swept(bs, now), key), now) == OpenAt(Get(bs, key), now)
  }

  /** None of the hits drops the bucket of `key` while its window is open. */
  predicate NeverDropped(hits: seq<HitAt>, key: string, windowMs: int) {
    hits == [] ||
    var n := |hits| - 1;
    NeverDropped(hits[..n], key, windowMs) && KeptOpen(Run(hits[..n], windowMs), key, hits[n].now)
  }

  lemma {:induction false} RunValid(hits: seq<HitAt>, windowMs: int)
    ensures Distinct(Run(hits, windowMs)) && |Run(hits, windowMs)| <= MAX_BUCKETS
  {
    if hits != [] {
      var n := |hits| - 1;
      RunValid(hits[..n], windowMs);
      HitDropsAtMostFirst(Run(hits[..n], windowMs), hits[n].key, windowMs, hits[n].now);
    }
  }

  lemma CountStep(bs: seq<Bucket>, hit: HitAt, key: string, windowMs: int, counter: Option<Entry>, now: int)
    requires KeptOpen(bs, key, hit.now) && OpenAt(Get(bs, key), hit.now) == OpenAt(counter, hit.now) && hit.now <= now
    ensures var entry := Get(Hit(bs, hit.key, windowMs, hit.now), key);
            if hit.key == key then entry == Some(Next(counter, windowMs, hit.now))
              else OpenAt(entry, now) == OpenAt(counter, now)
  {
    HitGet(bs, hit.key, key, windowMs, hit.now);
  }

  lemma AfterLast(hits: seq<HitAt>, key: string, windowMs: int)
    requires hits != []
    ensures var n := |hits| - 1;
            var before := After(TimesOf(hits[..n], key), windowMs);
            After(TimesOf(hits, key), windowMs) ==
            if hits[n].key == key then Some(Next(before, windowMs, hits[n].now)) else before
  {
    var n := |hits| - 1;
    if hits[n].key == key {
      assert TimesOf(hits, key)[..|TimesOf(hits, key)| - 1] == TimesOf(hits[..n], key);
    }
  }

  /** Unless it is dropped while open, a key's bucket counts as if the map were unbounded. */
  lemma {:induction false} BoundedCountsAsUnbounded(hits: seq<HitAt>, key: string, windowMs: int, now: int)
    requires TimesOrdered(hits) && NeverDropped(hits, key, windowMs)
    requires hits == [] || hits[|hits| - 1].now <= now
    ensures OpenAt(Get(Run(hits, windowMs), key), now) == OpenAt(After(TimesOf(hits, key), windowMs), now)
    ensures hits != [] && hits[|hits| - 1].key == key ==>
              Get(Run(hits, windowMs), key) == After(TimesOf(hits, key), windowMs)
  {
    if hits != [] {
      var before, hit := hits[..|hits| - 1], hits[|hits| - 1];
      BoundedCountsAsUnbounded(before, key, windowMs, hit.now);
      CountStep(Run(before, windowMs), hit, key, windowMs, After(TimesOf(before, key), windowMs), now);
      AfterLast(hits, key, windowMs);
    }
  }

  // ---------------------------------------------------------------- how many requests get through

  predicate Ordered(times: seq<int>) {
    forall i, j | 0 <= i < j < |times| :: times[i] <= times[j]
  }

  /** Accepted hits whose window closes in `(x, x + windowMs]`. */
  function ClosingIn(times: seq<int>, windowMs: int, max: nat, x: int): nat {
    if times == [] then 0
    else
      var e := After(times, windowMs).value;
      ClosingIn(times[..|times| - 1], windowMs, max, x) +
      if e.count <= max && x < e.resetAt <= x + windowMs then 1 else 0
  }

  /** Accepted hits at times in `[a, a + windowMs]`. */
  function AcceptedDuring(times: seq<int>, windowMs: int, max: nat, a: int): nat {
    if times == [] then 0
    else
      var e := After(times, windowMs).value;
      AcceptedDuring(times[..|times| - 1], windowMs, max, a) +
      if e.count <= max && a <= times[|times| - 1] <= a + windowMs then 1 else 0
  }

  lemma {:induction false} CloseAfterLastHit(times: seq<int>, windowMs: int)
    requires windowMs > 0 && times != [] && Ordered(times)
    ensures var e := After(times, windowMs).value; times[|times| - 1] < e.resetAt <= times[|times| - 1] + windowMs
  {
    var n := |times| - 1;
    if n > 0 {
      CloseAfterLastHit(times[..n], windowMs);
    }
  }

  /** Windows close at least `windowMs` apart, so at most one closes in such a stretch. */
  lemma {:induction false} OneWindow(times: seq<int>, windowMs: int, max: nat, x: int)
    requires windowMs > 0 && Ordered(times)
    ensures ClosingIn(times, windowMs, max, x) <= max
    ensures times != [] ==>
      var e, n := After(times, windowMs).value, ClosingIn(times, windowMs, max, x);
      && (e.resetAt <= x ==> n == 0)
      && (x < e.resetAt <= x + windowMs ==> n == if e.count <= max then e.count else max)
  {
    if times != [] {
      OneWindow(times[..|times| - 1], windowMs, max, x);
    }
  }

  lemma {:induction false} DuringMeansClosing(times: seq<int>, windowMs: int, max: nat, a: int)
    requires windowMs > 0 && Ordered(times)
    ensures AcceptedDuring(times, windowMs, max, a)
         <= ClosingIn(times, windowMs, max, a) + ClosingIn(times, windowMs, max, a + windowMs)
  {
    if times != [] {
      DuringMeansClosing(times[..|times| - 1], windowMs, max, a);
      CloseAfterLastHit(times, windowMs);
    }
  }

  /** Any interval of length `windowMs` lets at most twice the maximum through. */
  lemma AtMostTwiceMax(times: seq<int>, windowMs: int, max: nat, a: int)
    requires windowMs > 0 && Ordered(times)
    ensures AcceptedDuring(times, windowMs, max, a) <= 2 * max
  {
    DuringMeansClosing(times, windowMs, max, a);
    OneWindow(times, windowMs, max, a);
    OneWindow(times, windowMs, max, a + windowMs);
  }

  /** `m` hits as a window opens, `n` more as it closes. */
  function Bursts(m: nat, n: nat, windowMs: int): seq<int> {
    seq(m + n, i requires 0 <= i < m + n => if i < m then 0 else windowMs)
  }

  lemma {:induction false} BurstsAccepted(m: nat, n: nat, windowMs: int, max: nat)
    requires windowMs > 0 && m > 0 && m <= max && n <= max
    ensures After(Bursts(m, n, windowMs), windowMs)
        == Some(if n == 0 then Entry(m, windowMs) else Entry(n, 2 * windowMs))
    ensures AcceptedDuring(Bursts(m, n, windowMs), windowMs, max, 0) == m + n
  {
    var times := Bursts(m, n, windowMs);
    if n > 0 {
      BurstsAccepted(m, n - 1, windowMs, max);
      assert times[..m + n - 1] == Bursts(m, n - 1, windowMs);
    } else if m > 1 {
      BurstsAccepted(m - 1, 0, windowMs, max);
      assert times[..m - 1] == Bursts(m - 1, 0, windowMs);
    } else {
      assert times[..0] == [];
    }
  }

  /** For every maximum and window twice the maximum does get through: as one window opens and again as it closes. */
  lemma TwiceMaxIsReached(windowMs: int, max: nat)
    requires windowMs > 0
    ensures exists times, a :: Ordered(times) && AcceptedDuring(times, windowMs, max, a) == 2 * max
  {
    if max > 0 {
      BurstsAccepted(max, max, windowMs, max);
      assert Ordered(Bursts(max, max, windowMs));
    } else {
      assert Ordered([]) && AcceptedDuring([], windowMs, max, 0) == 0;
    }
  }

  /** Hits of `key` that the bounded limiter accepts at times in `[a, a + windowMs]`. */
  function LetThrough(hits: seq<HitAt>, key: string, windowMs: int, max: nat, a: int): nat {
    if hits == [] then 0
    else
      var n := |hits| - 1;
      var e := Get(Run(hits, windowMs), key);
      LetThrough(hits[..n], key, windowMs, max, a) +
      if hits[n].key == key && e.Some? && e.value.count <= max && a <= hits[n].now <= a + windowMs then 1 else 0
  }

  lemma {:induction false} TimesOfOrdered(hits: seq<HitAt>, key: string)
    requires TimesOrdered(hits)
    ensures Ordered(TimesOf(hits, key)) && forall t | t in TimesOf(hits, key) :: t <= hits[|hits| - 1].now
  {
    if hits != [] {
      var before := TimesOf(hits[..|hits| - 1], key);
      TimesOfOrdered(hits[..|hits| - 1], key);
      forall i | 0 <= i < |before| ensures before[i] <= hits[|hits| - 1].now {
        assert before[i] in before;
      }
    }
  }

  lemma AcceptedLast(times: seq<int>, t: int, windowMs: int, max: nat, a: int)
    ensures var e := Next(After(times, windowMs), windowMs, t);
            && After(times + [t], windowMs) == Some(e)
            && AcceptedDuring(times + [t], windowMs, max, a)
               == AcceptedDuring(times, windowMs, max, a) + if e.count <= max && a <= t <= a + windowMs then 1 else 0
  {
    assert (times + [t])[..|times|] == times;
  }

  lemma {:induction false} LetThroughCounts(hits: seq<HitAt>, key: string, windowMs: int, max: nat, a: int)
    requires TimesOrdered(hits) && NeverDropped(hits, key, windowMs)
    ensures LetThrough(hits, key, windowMs, max, a) == AcceptedDuring(TimesOf(hits, key), windowMs, max, a)
  {
    if hits != [] {
      var n := |hits| - 1;
      LetThroughCounts(hits[..n], key, windowMs, max, a);
      BoundedCountsAsUnbounded(hits, key, windowMs, hits[n].now);
      if hits[n].key == key {
        AcceptedLast(TimesOf(hits[..n], key), hits[n].now, windowMs, max, a);
      }
    }
  }

  /** A hit forgets an open window exactly when the map is full and the key's bucket is the first one. */
  lemma KeptOpenUnlessFirstOfFull(bs: seq<Bucket>, key: string, now: int)
    requires Distinct(bs) && |bs| <= MAX_BUCKETS
    ensures KeptOpen(bs, key, now) <==> !(|bs| == MAX_BUCKETS && bs[0].key == key && bs[0].entry.resetAt > now)
  {
    SweptGet(bs, key, now);
    if |bs| == MAX_BUCKETS {
      var r, i := Swept(bs, now), IndexOf(bs, key);
      OpenMembers(bs[1..], now);
      if 0 < i < |bs| && bs[i].entry.resetAt > now {
        assert bs[1..][i - 1] in r;
        var j :| 0 <= j < |r| && r[j] == bs[i];
        IndexOfIs(r, key, j);
      }
      if bs[0].key == key {
        forall j | 0 <= j < |r| ensures r[j].key != key { assert r[j] in bs[1..]; }
      }
    }
  }

  /** The limiter as it runs, many keys sharing the bounded map: twice the maximum in any interval. */
  lemma LimiterAtMostTwiceMax(hits: seq<HitAt>, key: string, windowMs: int, max: nat, a: int)
    requires windowMs > 0 && TimesOrdered(hits) && NeverDropped(hits, key, windowMs)
    ensures LetThrough(hits, key, windowMs, max, a) <= 2 * max
  {
    LetThroughCounts(hits, key, windowMs, max, a);
    TimesOfOrdered(hits, key);
    AtMostTwiceMax(TimesOf(hits, key), windowMs, max, a);
  }

  // ---------------------------------------------------------------- waiting out the reported time

  /** The reported time is the least positive number of whole seconds that reaches the end of the window. */
  lemma RetryAfterIsLeast(resetAt: int, now: int)
    ensures var r := RetryAfterSeconds(resetAt, now);
            r >= 1 && now + 1000 * r >= resetAt && (r == 1 || now + 1000 * (r - 1) < resetAt)
  {
  }

  predicate GoneOr(entry: Option<Entry>, was: Option<Entry>) {
    entry == None || entry == was
  }

  lemma {:induction false} OthersKeepReset(hits: seq<HitAt>, others: seq<HitAt>, key: string, windowMs: int)
    requires forall i | 0 <= i < |others| :: others[i].key != key
    ensures GoneOr(Get(Run(hits + others, windowMs), key), Get(Run(hits, windowMs), key))
  {
    if others == [] {
      assert hits + others == hits;
    } else {
      var n := |others| - 1;
      var before, last := hits + others[..n], others[n];
      assert (hits + others)[..|hits + others| - 1] == before;
      OthersKeepReset(hits, others[..n], key, windowMs);
      RunValid(before, windowMs);
      HitGet(Run(before, windowMs), last.key, key, windowMs, last.now);
      SweptGet(Run(before, windowMs), key, last.now);
    }
  }

  lemma SweptGet(bs: seq<Bucket>, key: string, now: int)
    requires Distinct(bs)
    ensures Get(Swept(bs, now), key) == None || Get(Swept(bs, now), key) == Get(bs, key)
  {
    if |bs| >= MAX_BUCKETS {
      OpenMembers(bs[1..], now);
      var r := Swept(bs, now);
      var i := IndexOf(r, key);
      if i < |r| {
        assert r[i] in bs[1..];
        var j :| 0 < j < |bs| && bs[j] == r[i];
        IndexOfIs(bs, key, j);
      }
    }
  }

  /** A client told to wait that sends nothing for the reported time starts a fresh window,
      whatever other clients do meanwhile and whether or not its bucket was dropped. */
  lemma WaitingStartsFresh(hits: seq<HitAt>, key: string, now: int, others: seq<HitAt>, later: int, windowMs: int)
    requires forall i | 0 <= i < |others| :: others[i].key != key
    requires var denied := hits + [HitAt(key, now)];
             Get(Run(denied, windowMs), key).Some? ==>
             later >= now + 1000 * RetryAfterSeconds(Get(Run(denied, windowMs), key).value.resetAt, now)
    ensures var all := hits + [HitAt(key, now)] + others + [HitAt(key, later)];
            Get(Run(all, windowMs), key) == Some(Entry(1, later + windowMs))
  {
    var denied := hits + [HitAt(key, now)];
    var before := denied + others;
    var all := before + [HitAt(key, later)];
    OthersKeepReset(denied, others, key, windowMs);
    assert all[..|all| - 1] == before;
    RunValid(before, windowMs);
    var bs := Run(before, windowMs);
    SweptGet(bs, key, later);
    HitGet(bs, key, key, windowMs, later);
    var kept := Swept(bs, later);
    if Get(kept, key).Some? {
      var resetAt := Get(kept, key).value.resetAt;
      assert 1000 * ((resetAt - now + 999) / 1000) >= resetAt - now;
    }
  }
}
