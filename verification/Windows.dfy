/**
 Rolling windows over time: `RenderSamples` of src/metrics.rs and `TelemetryTracker` of src/antibot/telemetry.rs.
 Times, latencies and percentiles are real numbers, and the clock is an argument.
 */
module Windows {
  import opened Wrappers

  // ----- times in order -----

  ghost predicate Ordered(times: seq<real>)
  {
    forall i, j | 0 <= i <= j < |times| :: times[i] <= times[j]
  }

  /** How many of these times are not before the cutoff. */
  function Since(times: seq<real>, cutoff: real): nat
  {
    if times == [] then 0
    else Since(times[..|times| - 1], cutoff) + (if times[|times| - 1] >= cutoff then 1 else 0)
  }

  /** In an ordered history those are the last ones. */
  lemma {:induction false} SinceIsSuffix(times: seq<real>, k: nat, cutoff: real)
    requires k <= |times|
    requires (forall i | 0 <= i < k :: times[i] < cutoff) && (forall i | k <= i < |times| :: times[i] >= cutoff)
    ensures Since(times, cutoff) == |times| - k
  {
    if times == [] {
    } else {
      var front := times[..|times| - 1];
      SinceIsSuffix(front, if k <= |front| then k else |front|, cutoff);
    }
  }

  /** The number of expired times at the head of an ordered history. */
  lemma {:induction false} SomeExpired(times: seq<real>, cutoff: real) returns (e: nat)
    requires Ordered(times)
    ensures e <= |times| && Since(times, cutoff) == |times| - e
    ensures (forall i | 0 <= i < e :: times[i] < cutoff) && (forall i | e <= i < |times| :: times[i] >= cutoff)
  {
    e := 0;
    while e < |times| && times[e] < cutoff
      invariant e <= |times| && forall i | 0 <= i < e :: times[i] < cutoff
    {
      e := e + 1;
    }
    SinceIsSuffix(times, e, cutoff);
  }

  function Min(a: nat, b: nat): nat
  {
    if a <= b then a else b
  }

  // ----- the latency window -----

  datatype Sample = Sample(at: real, latency: real, ok: bool)

  function Times(h: seq<Sample>): seq<real>
  {
    seq(|h|, i requires 0 <= i < |h| => h[i].at)
  }

  /** The samples of the whole history that a window shows at `now`: the in-window ones, at most `cap`, the newest. */
  function Shown(h: seq<Sample>, window: real, cap: nat, now: real): (r: seq<Sample>)
    ensures |r| <= cap
  {
    var n := Min(cap, Since(Times(h), now - window));
    if n <= |h| then h[|h| - n..] else []
  }

  /** What was dropped has expired or is more than `cap` samples back. */
  ghost predicate Dropped(h: seq<Sample>, k: nat, cutoff: real, cap: nat)
    requires k <= |h|
  {
    forall i | 0 <= i < k :: h[i].at < cutoff || i < |h| - cap
  }

  /** The eviction's two loops end at the shown samples. */
  lemma EvictionShows(h: seq<Sample>, k: nat, window: real, cap: nat, now: real)
    requires k <= |h| && Ordered(Times(h)) && Dropped(h, k, now - window, cap)
    requires k < |h| ==> h[k].at >= now - window
    ensures Shown(h, window, cap, now) == h[if k >= |h| - cap then k else |h| - cap..]
  {
    var cutoff := now - window;
    var e := SomeExpired(Times(h), cutoff);
    assert forall i | 0 <= i < |h| :: Times(h)[i] == h[i].at;
    if e < k {
      assert h[k - 1].at >= cutoff;
      assert k - 1 < |h| - cap;
    }
    assert e <= k;
  }

  /** `k` samples have been dropped from the front of the history. */
  ghost predicate Consistent(h: seq<Sample>, k: nat, window: real, cap: nat, clock: real)
  {
    && k <= |h| <= k + cap + 1
    && Ordered(Times(h)) && (forall i | 0 <= i < |h| :: h[i].at <= clock)
    && Dropped(h, k, clock - window, cap)
  }

  lemma PushIsConsistent(h: seq<Sample>, k: nat, window: real, cap: nat, clock: real, s: Sample)
    requires Consistent(h, k, window, cap, clock) && s.at >= clock && |h| <= k + cap
    ensures Consistent(h + [s], k, window, cap, s.at)
  {
    var t := h + [s];
    assert forall i | 0 <= i < |h| :: Times(h)[i] == h[i].at == t[i].at;
    assert forall i | 0 <= i < |t| :: Times(t)[i] == t[i].at;
    assert forall i | 0 <= i < k :: t[i] == h[i];
  }

  lemma EvictionIsConsistent(h: seq<Sample>, k: nat, window: real, cap: nat, clock: real, n: nat, now: real)
    requires Consistent(h, k, window, cap, clock) && clock <= now && k <= n <= |h|
    requires Dropped(h, n, now - window, cap) && (n < |h| ==> h[n].at >= now - window)
    ensures var m := if n >= |h| - cap then n else |h| - cap;
      Consistent(h, m, window, cap, now) && Shown(h, window, cap, now) == h[m..] && |h| - m <= cap
  {
    EvictionShows(h, n, window, cap, now);
    hide Ordered, Since;
  }

  class RenderSamples {
    const window: real
    const cap: nat
    var samples: seq<Sample>
    /** Every sample ever pushed, how many of them were dropped, and the latest reading of the clock. */
    ghost var history: seq<Sample>
    ghost var dropped: nat
    ghost var clock: real

    ghost predicate Valid()
      reads this
    {
      Consistent(history, dropped, window, cap, clock) && samples == history[dropped..]
    }

    constructor (window: real, cap: nat, ghost now: real)
      ensures Valid() && history == [] && clock == now && this.window == window && this.cap == cap
    {
      this.window, this.cap, this.samples := window, cap, [];
      this.history, this.dropped, this.clock := [], 0, now;
    }

    /** Afterwards the deque is exactly the last min(cap, in-window) samples of the whole history. */
    method Evict(now: real)
      requires Valid() && clock <= now
      modifies this`samples, this`dropped, this`clock
      ensures Valid() && clock == now && samples == Shown(history, window, cap, now)
    {
      hide Ordered, Since, Shown, Times;
      var cutoff := now - window;
      ghost var n := dropped;
      while |samples| > 0 && samples[0].at < cutoff
        invariant dropped == old(dropped) && clock == old(clock)
        invariant dropped <= n <= |history| && samples == history[n..] && Dropped(history, n, cutoff, cap)
        decreases |samples|
      {
        samples := samples[1..];
        n := n + 1;
      }
      EvictionIsConsistent(history, dropped, window, cap, clock, n, now);
      ghost var m := n;
      while |samples| > cap
        invariant n <= m <= |history| && samples == history[m..] && (m > n ==> |samples| >= cap)
        decreases |samples|
      {
        samples := samples[1..];
        m := m + 1;
      }
      clock, dropped := now, m;
    }

    method Push(now: real, latency: real, ok: bool)
      requires Valid() && clock <= now
      modifies this
      ensures Valid() && clock == now && history == old(history) + [Sample(now, latency, ok)]
      ensures samples == Shown(old(history), window, cap, now) + [Sample(now, latency, ok)]
    {
      hide Consistent, Shown;
      Evict(now);
      RoomAfterEviction(history, dropped, window, cap, now);
      PushIsConsistent(history, dropped, window, cap, clock, Sample(now, latency, ok));
      samples := samples + [Sample(now, latency, ok)];
      history := history + [Sample(now, latency, ok)];
    }

    method RendersPerWindow(now: real) returns (n: nat)
      requires Valid() && clock <= now
      modifies this`samples, this`dropped, this`clock
      ensures Valid() && clock == now && n == Min(cap, Since(Times(history), now - window))
    {
      Evict(now);
      n := |samples|;
      var e := SomeExpired(Times(history), now - window);
    }

    /** For `p` between 0 and 1 the element of rank round((n - 1) * p); other values of `p` are cut to the ends. */
    method Percentile(now: real, p: real) returns (x: Option<real>)
      requires Valid() && clock <= now
      modifies this`samples, this`dropped, this`clock
      ensures Valid() && clock == now && samples == Shown(history, window, cap, now)
      ensures if samples == [] then x.None? else x.Some? && HasRank(Latencies(samples), x.value, Rank(|samples|, p))
    {
      hide *;
      Evict(now);
      if |samples| == 0 {
        return None;
      }
      var lats := Sort(Latencies(samples));
      var idx := RoundToIndex(Position(|samples|, p));
      var i := Min(idx, |samples| - 1);
      RankIs(samples, p);
      SortedHasRank(Latencies(samples), i);
      return Some(lats[i]);
    }
  }

  lemma RankIs(s: seq<Sample>, p: real)
    requires s != []
    ensures Min(RoundToIndex(Position(|s|, p)), |s| - 1) == Rank(|s|, p) < |s| == |Latencies(s)|
  {
  }

  lemma RoomAfterEviction(h: seq<Sample>, k: nat, window: real, cap: nat, now: real)
    requires Consistent(h, k, window, cap, now) && h[k..] == Shown(h, window, cap, now)
    ensures k <= |h| <= k + cap
  {
  }

  // ----- the percentile -----

  predicate Ascending(s: seq<real>)
  {
    forall i, j | 0 <= i <= j < |s| :: s[i] <= s[j]
  }

  function CountLess(s: seq<real>, x: real): nat
  {
    if s == [] then 0 else (if s[0] < x then 1 else 0) + CountLess(s[1..], x)
  }

  function CountAtMost(s: seq<real>, x: real): nat
  {
    if s == [] then 0 else (if s[0] <= x then 1 else 0) + CountAtMost(s[1..], x)
  }

  function Insert(x: real, s: seq<real>): seq<real>
  {
    if s == [] || x <= s[0] then [x] + s else [s[0]] + Insert(x, s[1..])
  }

  /** `sort_by`. */
  function Sort(s: seq<real>): seq<real>
  {
    if s == [] then [] else Insert(s[0], Sort(s[1..]))
  }

  lemma {:induction false} InsertKeeps(x: real, s: seq<real>, y: real)
    requires Ascending(s)
    ensures Ascending(Insert(x, s)) && |Insert(x, s)| == |s| + 1
    ensures s != [] ==> Insert(x, s)[0] == if x <= s[0] then x else s[0]
    ensures s == [] ==> Insert(x, s) == [x]
    ensures CountLess(Insert(x, s), y) == CountLess(s, y) + (if x < y then 1 else 0)
    ensures CountAtMost(Insert(x, s), y) == CountAtMost(s, y) + (if x <= y then 1 else 0)
  {
    if s == [] || x <= s[0] {
      assert ([x] + s)[1..] == s;
    } else {
      InsertKeeps(x, s[1..], y);
      var rest := Insert(x, s[1..]);
      assert ([s[0]] + rest)[1..] == rest;
      assert s[0] <= rest[0];
    }
  }

  lemma {:induction false} SortKeeps(s: seq<real>, y: real)
    ensures Ascending(Sort(s)) && |Sort(s)| == |s|
    ensures CountLess(Sort(s), y) == CountLess(s, y) && CountAtMost(Sort(s), y) == CountAtMost(s, y)
  {
    if s == [] {
    } else {
      SortKeeps(s[1..], y);
      InsertKeeps(s[0], Sort(s[1..]), y);
    }
  }

  lemma {:induction false} RankInAscending(s: seq<real>, i: nat)
    requires Ascending(s) && i < |s|
    ensures CountLess(s, s[i]) <= i < CountAtMost(s, s[i])
  {
    if i > 0 {
      RankInAscending(s[1..], i - 1);
    } else {
      NoneLess(s, s[0]);
    }
  }

  lemma {:induction false} NoneLess(s: seq<real>, x: real)
    requires forall i | 0 <= i < |s| :: s[i] >= x
    ensures CountLess(s, x) == 0
  {
    if s == [] {
    } else {
      NoneLess(s[1..], x);
    }
  }

  /** Rounding half up, and a negative number cast to an unsigned one is zero. */
  function RoundToIndex(x: real): nat
  {
    if x < 0.0 then 0 else (x + 0.5).Floor
  }

  function Rank(n: nat, p: real): nat
    requires n > 0
  {
    Min(RoundToIndex(Position(n, p)), n - 1)
  }

  function Position(n: nat, p: real): real
  {
    (n - 1) as real * p
  }

  /** The rank is the index nearest to `(n - 1) * p`, the upper one of two, within the indices there are. */
  lemma RankIsNearest(n: nat, p: real)
    requires n > 0
    ensures Position(n, p) == (n - 1) as real * p
    ensures var x, r := Position(n, p), Rank(n, p);
            && 0 <= r < n
            && (x < 0.0 ==> r == 0)
            && (x > (n - 1) as real ==> r == n - 1)
            && (0.0 <= x <= (n - 1) as real ==> r as real - 0.5 <= x < r as real + 0.5)
  {
    RankAround(n, Position(n, p));
    assert Rank(n, p) == Min(RoundToIndex(Position(n, p)), n - 1);
    hide *;
  }

  lemma RankAround(n: nat, x: real)
    requires n > 0
    ensures var r := Min(RoundToIndex(x), n - 1);
            && (x < 0.0 ==> r == 0)
            && (x > (n - 1) as real ==> r == n - 1)
            && (0.0 <= x <= (n - 1) as real ==> r as real - 0.5 <= x < r as real + 0.5)
  {
    if x >= 0.0 {
      RoundsToNearest(x);
      NotBelow(RoundToIndex(x), n - 1, x);
    } else {
      assert (n - 1) as real >= 0.0;
    }
  }

  lemma RoundsToNearest(x: real)
    requires x >= 0.0
    ensures RoundToIndex(x) as real - 0.5 <= x < RoundToIndex(x) as real + 0.5
  {
  }

  lemma NotBelow(r: int, last: int, x: real)
    requires r as real - 0.5 <= x < r as real + 0.5
    ensures x >= last as real ==> r >= last
    ensures x <= last as real ==> r <= last
  {
    assert x >= last as real ==> (r - last) as real > -1.0;
    assert x <= last as real ==> (r - last) as real < 1.0;
  }

  /** The value that has at most `rank` smaller ones and more than `rank` that are no greater. */
  predicate HasRank(s: seq<real>, x: real, rank: nat)
  {
    x in s && CountLess(s, x) <= rank < CountAtMost(s, x)
  }

  lemma {:induction false} InsertHas(x: real, s: seq<real>)
    ensures forall y :: y in Insert(x, s) <==> y == x || y in s
  {
    if s != [] && x > s[0] {
      InsertHas(x, s[1..]);
    }
  }

  lemma {:induction false} SortHas(s: seq<real>)
    ensures forall y :: y in Sort(s) <==> y in s
  {
    if s == [] {
    } else {
      SortHas(s[1..]);
      InsertHas(s[0], Sort(s[1..]));
    }
  }

  lemma SortedHasRank(s: seq<real>, i: nat)
    requires i < |s|
    ensures |Sort(s)| == |s| && HasRank(s, Sort(s)[i], i)
  {
    hide Sort, CountLess, CountAtMost, Ascending;
    SortKeeps(s, 0.0);
    SortKeeps(s, Sort(s)[i]);
    RankInAscending(Sort(s), i);
    SortHas(s);
  }

  /** There is only one such value. */
  lemma RankIsUnique(s: seq<real>, x: real, y: real, rank: nat)
    requires HasRank(s, x, rank) && HasRank(s, y, rank)
    ensures x == y
  {
    if x < y {
      AtMostIsLess(s, x, y);
    } else if y < x {
      AtMostIsLess(s, y, x);
    }
  }

  lemma {:induction false} AtMostIsLess(s: seq<real>, x: real, y: real)
    requires x < y
    ensures CountAtMost(s, x) <= CountLess(s, y)
  {
    if s == [] {
    } else {
      AtMostIsLess(s[1..], x, y);
    }
  }

  function Latencies(s: seq<Sample>): seq<real>
  {
    seq(|s|, i requires 0 <= i < |s| => s[i].latency)
  }

  // ----- the telemetry tracker -----

  datatype Vendor = Vendor(name: string)

  type Key = (string, Vendor)

  /** The times observed for a key, in order of observation. */
  function EventsOf(events: seq<(Key, real)>, key: Key): seq<real>
  {
    if events == [] then []
    else
      var (k, at) := events[|events| - 1];
      EventsOf(events[..|events| - 1], key) + (if k == key then [at] else [])
  }

  type Duration = x: real | x >= 0.0

  /** What is left when the times before the cutoff are taken off the front. */
  function Unexpired(times: seq<real>, cutoff: real): seq<real>
  {
    if times != [] && times[0] < cutoff then Unexpired(times[1..], cutoff) else times
  }

  /** A bucket is the tail of its key's events, and if their times never went back, what was dropped is out of the
      window of the latest of them. */
  ghost predicate Tail(times: seq<real>, bucket: seq<real>, window: real)
  {
    && |bucket| <= |times| && bucket == times[|times| - |bucket|..]
    && (Ordered(times) ==> forall i | 0 <= i < |times| - |bucket| :: times[i] < times[|times| - 1] - window)
  }

  lemma {:induction false} UnexpiredIs(bucket: seq<real>, cutoff: real)
    ensures var u := Unexpired(bucket, cutoff);
      && |u| <= |bucket| && u == bucket[|bucket| - |u|..] && (u != [] ==> u[0] >= cutoff)
      && forall i | 0 <= i < |bucket| - |u| :: bucket[i] < cutoff
  {
    if bucket != [] && bucket[0] < cutoff {
      UnexpiredIs(bucket[1..], cutoff);
    }
  }

  lemma OrderedFront(times: seq<real>, at: real)
    requires Ordered(times + [at])
    ensures Ordered(times) && forall i | 0 <= i < |times| :: times[i] <= at
  {
    var all := times + [at];
    assert forall i | 0 <= i < |times| :: all[i] == times[i] && all[i] <= all[|times|];
  }

  lemma OrderedFrom(times: seq<real>, k: nat)
    requires Ordered(times) && k < |times|
    ensures forall i | k <= i < |times| :: times[k] <= times[i]
  {
  }

  /** The bucket after one more observation. */
  lemma NewTail(times: seq<real>, bucket: seq<real>, window: Duration, at: real)
    requires Tail(times, bucket, window)
    ensures var b := Unexpired(bucket, at - window) + [at];
      Tail(times + [at], b, window) && (Ordered(times + [at]) ==> Since(times + [at], at - window) == |b|)
  {
    hide Since, Ordered, Unexpired;
    UnexpiredIs(bucket, at - window);
    var all, u := times + [at], Unexpired(bucket, at - window);
    var k := |times| - |u|;
    assert all[k..] == u + [at] && times[|times| - |bucket|..] == bucket;
    if Ordered(all) {
      OrderedFront(times, at);
      OrderedFrom(all, k);
      assert forall i | |times| - |bucket| <= i < k :: times[i] == bucket[i - (|times| - |bucket|)];
      assert forall i | 0 <= i < k :: all[i] < at - window;
      assert all[k] == if u == [] then at else u[0];
      SinceIsSuffix(all, k, at - window);
    }
  }

  lemma OneMoreEvent(events: seq<(Key, real)>, key: Key, at: real)
    ensures EventsOf(events + [(key, at)], key) == EventsOf(events, key) + [at]
    ensures forall other: Key | other != key :: EventsOf(events + [(key, at)], other) == EventsOf(events, other)
  {
    assert (events + [(key, at)])[..|events|] == events;
  }

  class TelemetryTracker {
    const window: Duration
    const threshold: nat
    var buckets: map<Key, seq<real>>
    ghost var events: seq<(Key, real)>

    function Bucket(key: Key): seq<real>
      reads this
    {
      if key in buckets then buckets[key] else []
    }

    ghost predicate Valid()
      reads this
    {
      forall key: Key :: Tail(EventsOf(events, key), Bucket(key), window)
    }

    constructor (window: Duration, threshold: nat)
      ensures Valid() && events == [] && this.window == window && this.threshold == threshold
    {
      this.window, this.threshold, this.buckets, this.events := window, threshold, map[], [];
    }

    /** Drops what has expired at the front of the bucket and adds the new time. If a key's own times never went back,
        the tracker so fires exactly when the window that ends at `at` holds at least `threshold` of its events, this
        one included. */
    method Observe(sessionId: string, vendor: Vendor, at: real) returns (fired: bool)
      requires Valid()
      modifies this
      ensures Valid() && events == old(events) + [((sessionId, vendor), at)]
      ensures Bucket((sessionId, vendor)) == Unexpired(old(Bucket((sessionId, vendor))), at - window) + [at]
      ensures buckets == old(buckets)[(sessionId, vendor) := Bucket((sessionId, vendor))]
      ensures fired <==> |Bucket((sessionId, vendor))| >= threshold
      ensures Ordered(EventsOf(events, (sessionId, vendor))) ==>
                |Bucket((sessionId, vendor))| == Since(EventsOf(events, (sessionId, vendor)), at - window)
    {
      hide EventsOf, Ordered, Since, Tail;
      var key := (sessionId, vendor);
      var bucket := Bucket(key);
      NewTail(EventsOf(events, key), bucket, window, at);
      while |bucket| > 0 && at - bucket[0] > window
        invariant Unexpired(bucket, at - window) == Unexpired(old(Bucket((sessionId, vendor))), at - window)
        decreases |bucket|
      {
        bucket := bucket[1..];
      }
      OneMoreEvent(events, key, at);
      bucket := bucket + [at];
      buckets := buckets[key := bucket];
      events := events + [(key, at)];
      fired := |bucket| >= threshold;
    }

    method Hits(sessionId: string, vendor: Vendor) returns (n: nat)
      ensures n == |Bucket((sessionId, vendor))|
    {
      n := |Bucket((sessionId, vendor))|;
    }
  }
}
