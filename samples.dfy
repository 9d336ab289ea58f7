/** The CPU sample window and its 95th percentile (`addCPUSample` and
    `getCPU95thPercentile` in main.go). */
module Samples {
  import opened Helpers

  /** The window keeps at most this many samples. */
  const WindowCapacity: nat := 100

  /** One `addCPUSample` on the window `w`: append, then drop the oldest
      sample once the window holds more than `WindowCapacity`. */
  function PushSample(w: seq<real>, x: real): (r: seq<real>)
    ensures |w| <= WindowCapacity ==> |r| <= WindowCapacity
    ensures |r| > 0 && r[|r| - 1] == x
    ensures |w| < WindowCapacity ==> r == w + [x]
    ensures |w| == WindowCapacity ==> r[..|r| - 1] == w[1..]
  {
    var s := w + [x];
    if |s| > WindowCapacity then s[1..] else s
  }

  /** The window after the samples `xs` were added one by one to `w`: it
      stays within capacity and ends with the last sample added. */
  function PushAll(w: seq<real>, xs: seq<real>): (r: seq<real>)
    ensures |w| <= WindowCapacity ==> |r| <= WindowCapacity
    ensures xs != [] ==> |r| > 0 && r[|r| - 1] == xs[|xs| - 1]
    decreases |xs|
  {
    if xs == [] then w else PushAll(PushSample(w, xs[0]), xs[1..])
  }

  /** The last `WindowCapacity` entries of a history (all of it when shorter). */
  function Recent(h: seq<real>): (r: seq<real>)
    ensures |r| <= WindowCapacity
  {
    if |h| > WindowCapacity then h[|h| - WindowCapacity..] else h
  }

  /** The window is a sliding window over the whole history of samples: adding
      a sample to the window of a history gives the window of the longer history. */
  lemma PushSampleRecent(h: seq<real>, x: real)
    ensures PushSample(Recent(h), x) == Recent(h + [x])
  {
    var h' := h + [x];
    if |h| > WindowCapacity {
      assert Recent(h) + [x] == h'[|h'| - WindowCapacity - 1..];
      assert (Recent(h) + [x])[1..] == h'[|h'| - WindowCapacity..];
    } else if |h| == WindowCapacity {
      assert Recent(h) + [x] == h';
    }
  }

  /** FIFO eviction: after any run of insertions the window holds exactly the
      most recent `WindowCapacity` samples of the whole history, in insertion order. */
  lemma {:induction false} PushAllRecent(h: seq<real>, xs: seq<real>)
    ensures PushAll(Recent(h), xs) == Recent(h + xs)
    decreases |xs|
  {
    if xs == [] {
      assert h + xs == h;
    } else {
      var h' := h + [xs[0]];
      PushSampleRecent(h, xs[0]);
      assert PushAll(Recent(h), xs) == PushAll(Recent(h'), xs[1..]);
      PushAllRecent(h', xs[1..]);
      assert h' + xs[1..] == h + xs;
    }
  }

  /** The samples `lo as real`, ..., `(hi - 1) as real`. */
  function Ramp(lo: nat, hi: nat): (r: seq<real>)
    requires lo <= hi
    ensures |r| == hi - lo
    ensures forall k :: 0 <= k < |r| ==> r[k] == (lo + k) as real
  {
    seq(hi - lo, k => (lo + k) as real)
  }

  /** Inserting 0, 1, ..., n - 1 into an empty window, for n at least the
      capacity, leaves exactly the last `WindowCapacity` of them. */
  lemma RampWindow(n: nat)
    requires n >= WindowCapacity
    ensures PushAll([], Ramp(0, n)) == Ramp(n - WindowCapacity, n)
  {
    FillFromEmpty(Ramp(0, n));
    RecentRamp(n);
  }

  /** Filling an empty window leaves the last `WindowCapacity` samples of the run. */
  lemma FillFromEmpty(xs: seq<real>)
    ensures PushAll([], xs) == Recent(xs)
  {
    assert Recent([]) == [];
    PushAllRecent([], xs);
    assert [] + xs == xs;
  }

  lemma RecentRamp(n: nat)
    requires n >= WindowCapacity
    ensures Recent(Ramp(0, n)) == Ramp(n - WindowCapacity, n)
  {
    RampSuffix(0, n - WindowCapacity, n);
  }

  /** Inserting 0, 1, ..., 149 into an empty window leaves exactly 50, ..., 149. */
  lemma HundredFiftyInserts()
    ensures PushAll([], Ramp(0, 150)) == Ramp(50, 150)
  {
    RampWindow(150);
  }

  /** Dropping the first samples of a ramp leaves the ramp that starts later. */
  lemma RampSuffix(lo: nat, mid: nat, hi: nat)
    requires lo <= mid <= hi
    ensures Ramp(lo, hi)[mid - lo..] == Ramp(mid, hi)
  {
  }

  /** Below capacity every sample is kept, in insertion order. */
  lemma {:induction false} PushAllBelowCapacity(w: seq<real>, xs: seq<real>)
    requires |w| + |xs| <= WindowCapacity
    ensures PushAll(w, xs) == w + xs
    decreases |xs|
  {
    if xs == [] {
      assert w + xs == w;
    } else {
      PushAllBelowCapacity(w + [xs[0]], xs[1..]);
      assert w + [xs[0]] + xs[1..] == w + xs;
    }
  }

  // ---------------------------------------------------------------------
  // sort.Float64s on the copy of the window

  ghost predicate SortedAsc(s: seq<real>) {
    forall i, j :: 0 <= i < j < |s| ==> s[i] <= s[j]
  }

  /** Insert `x` into an ascending sequence, before the first element not
      below it. */
  function Insert(x: real, s: seq<real>): (r: seq<real>)
    ensures |r| == |s| + 1
    ensures multiset(r) == multiset(s) + multiset{x}
    decreases |s|
  {
    if s == [] || x <= s[0] then [x] + s
    else
      assert s == [s[0]] + s[1..];
      [s[0]] + Insert(x, s[1..])
  }

  /** Inserting into an ascending sequence keeps it ascending. */
  lemma {:induction false} InsertSorted(x: real, s: seq<real>)
    requires SortedAsc(s)
    ensures SortedAsc(Insert(x, s))
    decreases |s|
  {
    if s != [] && x > s[0] {
      var rest := Insert(x, s[1..]);
      InsertSorted(x, s[1..]);
      InsertAtLeast(x, s[1..], s[0]);
      SortedCons(s[0], rest);
      assert Insert(x, s) == [s[0]] + rest;
    }
  }

  /** An element at most every element of an ascending sequence can be put
      in front of it. */
  lemma SortedCons(h: real, t: seq<real>)
    requires SortedAsc(t) && forall k :: 0 <= k < |t| ==> h <= t[k]
    ensures SortedAsc([h] + t)
  {
    var r := [h] + t;
    forall i, j | 0 <= i < j < |r|
      ensures r[i] <= r[j]
    {
      assert r[j] == t[j - 1];
      if i > 0 {
        assert r[i] == t[i - 1];
      }
    }
  }

  /** A lower bound of `x` and of every element of `s` bounds every element
      of `Insert(x, s)`. */
  lemma {:induction false} InsertAtLeast(x: real, s: seq<real>, lo: real)
    requires lo <= x && forall k :: 0 <= k < |s| ==> lo <= s[k]
    ensures forall k :: 0 <= k < |Insert(x, s)| ==> lo <= Insert(x, s)[k]
    decreases |s|
  {
    if s != [] && x > s[0] {
      InsertAtLeast(x, s[1..], lo);
    }
  }

  /** The ascending sort of `s` (taken as the behaviour of `sort.Float64s`
      on finite values). */
  function SortAsc(s: seq<real>): (r: seq<real>)
    ensures |r| == |s|
    ensures SortedAsc(r)
    ensures multiset(r) == multiset(s)
    decreases |s|
  {
    if s == [] then []
    else
      assert s == [s[0]] + s[1..];
      InsertSorted(s[0], SortAsc(s[1..]));
      Insert(s[0], SortAsc(s[1..]))
  }

  /** Sorting an ascending sequence gives it back unchanged. */
  lemma {:induction false} SortAscOfSorted(s: seq<real>)
    requires SortedAsc(s)
    ensures SortAsc(s) == s
    decreases |s|
  {
    if s != [] {
      assert SortedAsc(s[1..]);
      SortAscOfSorted(s[1..]);
      assert s == [s[0]] + s[1..];
    }
  }

  // ---------------------------------------------------------------------
  // The 95th percentile

  /** `int(math.Ceil(0.95 * n)) - 1`, clamped to `[0, n - 1]`. The clamping
      never fires, and the index equals the integer formula `(95n + 99) / 100 - 1`. */
  function PercentileIndex(n: nat): (k: int)
    requires n > 0
    ensures 0 <= k < n
    ensures k == (95 * n + 99) / 100 - 1
  {
    var c := (95 * n + 99) / 100;
    assert 100 * (c - 1) < 95 * n <= 100 * c;
    assert (c - 1) as real < 0.95 * n as real <= c as real;
    CeilUnique(0.95 * n as real, c);
    var raw := Ceil(0.95 * n as real) - 1;
    if raw < 0 then 0 else if raw >= n then n - 1 else raw
  }

  /** The ceiling of `x` is the one integer `c` with `c - 1 < x <= c`. */
  lemma CeilUnique(x: real, c: int)
    requires (c - 1) as real < x <= c as real
    ensures Ceil(x) == c
  {
  }

  /** `getCPU95thPercentile`: 0 on an empty window, otherwise the element at
      the 95th-percentile index of a sorted copy. The window itself is a value
      and is not changed. */
  function Percentile95(w: seq<real>): (r: real)
    ensures |w| == 0 ==> r == 0.0
    ensures |w| > 0 ==> r in w
    ensures |w| > 0 ==> r == SortAsc(w)[PercentileIndex(|w|)]
  {
    if |w| == 0 then 0.0
    else
      var sorted := SortAsc(w);
      var k := PercentileIndex(|w|);
      assert sorted[k] in multiset(sorted);
      sorted[k]
  }

  /** Number of elements of `s` that are at most `v`. */
  function CountAtMost(s: seq<real>, v: real): (c: nat)
    ensures c <= |s|
  {
    if s == [] then 0 else (if s[0] <= v then 1 else 0) + CountAtMost(s[1..], v)
  }

  /** Number of elements of `s` that are strictly below `v`. */
  function CountBelow(s: seq<real>, v: real): (c: nat)
    ensures c <= |s|
  {
    if s == [] then 0 else (if s[0] < v then 1 else 0) + CountBelow(s[1..], v)
  }

  lemma {:induction false} CountConcat(a: seq<real>, b: seq<real>, v: real)
    ensures CountAtMost(a + b, v) == CountAtMost(a, v) + CountAtMost(b, v)
    ensures CountBelow(a + b, v) == CountBelow(a, v) + CountBelow(b, v)
    decreases |a|
  {
    if a != [] {
      assert (a + b)[1..] == a[1..] + b;
      CountConcat(a[1..], b, v);
    } else {
      assert a + b == b;
    }
  }

  lemma {:induction false} CountInsert(x: real, s: seq<real>, v: real)
    ensures CountAtMost(Insert(x, s), v) == CountAtMost(s, v) + (if x <= v then 1 else 0)
    ensures CountBelow(Insert(x, s), v) == CountBelow(s, v) + (if x < v then 1 else 0)
    decreases |s|
  {
    if s == [] || x <= s[0] {
      assert ([x] + s)[1..] == s;
    } else {
      CountInsert(x, s[1..], v);
      assert ([s[0]] + Insert(x, s[1..]))[1..] == Insert(x, s[1..]);
    }
  }

  /** Sorting does not change how many samples lie below a value. */
  lemma {:induction false} CountSortAsc(s: seq<real>, v: real)
    ensures CountAtMost(SortAsc(s), v) == CountAtMost(s, v)
    ensures CountBelow(SortAsc(s), v) == CountBelow(s, v)
    decreases |s|
  {
    if s != [] {
      CountSortAsc(s[1..], v);
      CountInsert(s[0], SortAsc(s[1..]), v);
    }
  }

  lemma {:induction false} CountAllAtMost(s: seq<real>, v: real)
    requires forall i :: 0 <= i < |s| ==> s[i] <= v
    ensures CountAtMost(s, v) == |s|
    decreases |s|
  {
    if s != [] {
      CountAllAtMost(s[1..], v);
    }
  }

  lemma {:induction false} CountNoneBelow(s: seq<real>, v: real)
    requires forall i :: 0 <= i < |s| ==> v <= s[i]
    ensures CountBelow(s, v) == 0
    decreases |s|
  {
    if s != [] {
      CountNoneBelow(s[1..], v);
    }
  }

  /** In an ascending sequence, at least `k + 1` elements lie at or below
      the element at index `k`: the first `k + 1` of them. */
  lemma SortedRankAtMost(t: seq<real>, k: nat)
    requires SortedAsc(t) && k < |t|
    ensures CountAtMost(t, t[k]) >= k + 1
  {
    var v := t[k];
    var lo, hi := t[..k + 1], t[k + 1..];
    assert t == lo + hi;
    CountConcat(lo, hi, v);
    forall i | 0 <= i < |lo|
      ensures lo[i] <= v
    {
      assert lo[i] == t[i];
    }
    CountAllAtMost(lo, v);
  }

  /** In an ascending sequence, at most `k` elements lie strictly below the
      element at index `k`: none from index `k` on. */
  lemma SortedRankBelow(t: seq<real>, k: nat)
    requires SortedAsc(t) && k < |t|
    ensures CountBelow(t, t[k]) <= k
  {
    var v := t[k];
    var left, right := t[..k], t[k..];
    assert t == left + right;
    CountConcat(left, right, v);
    forall i | 0 <= i < |right|
      ensures v <= right[i]
    {
      assert right[i] == t[k + i];
    }
    CountNoneBelow(right, v);
  }

  /** The result is the nearest-rank 95th percentile: with m = ceil(0.95 n),
      fewer than m samples lie strictly below it and at least m samples lie
      at or below it. This pins the value down without mentioning sorting. */
  lemma Percentile95IsNearestRank(w: seq<real>)
    requires |w| > 0
    ensures var m := (95 * |w| + 99) / 100;
            var r := Percentile95(w);
            CountBelow(w, r) < m <= CountAtMost(w, r)
  {
    var k := PercentileIndex(|w|);
    var t := SortAsc(w);
    SortedRankAtMost(t, k);
    SortedRankBelow(t, k);
    CountSortAsc(w, t[k]);
  }

  /** No value below the percentile has m samples at or below it: the
      percentile is the smallest value with that many samples at or below it. */
  lemma Percentile95IsLeast(w: seq<real>, v: real)
    requires |w| > 0 && v < Percentile95(w)
    ensures CountAtMost(w, v) < (95 * |w| + 99) / 100
  {
    Percentile95IsNearestRank(w);
    CountAtMostBelow(w, v, Percentile95(w));
  }

  lemma {:induction false} CountAtMostBelow(s: seq<real>, v: real, u: real)
    requires v < u
    ensures CountAtMost(s, v) <= CountBelow(s, u)
    decreases |s|
  {
    if s != [] {
      CountAtMostBelow(s[1..], v, u);
    }
  }

  /** An ascending ramp of `n` samples `step`, `2 * step`, ..., `n * step`. */
  function Steps(n: nat, step: real): (r: seq<real>)
    ensures |r| == n
    ensures forall k :: 0 <= k < n ==> r[k] == step * (k + 1) as real
  {
    seq(n, k => step * (k + 1) as real)
  }

  /** Evenly spaced non-negative steps are ascending. */
  lemma StepsSorted(n: nat, step: real)
    requires step >= 0.0
    ensures SortedAsc(Steps(n, step))
  {
  }

  /** With enough room the percentile of an ascending run of inserts is read
      off the run itself. */
  lemma PercentileOfSortedInserts(xs: seq<real>)
    requires 0 < |xs| <= WindowCapacity && SortedAsc(xs)
    ensures Percentile95(PushAll([], xs)) == xs[PercentileIndex(|xs|)]
  {
    var empty: seq<real> := [];
    assert PushAll(empty, xs) == xs by {
      PushAllBelowCapacity(empty, xs);
      assert empty + xs == xs;
    }
    assert SortAsc(xs) == xs by {
      SortAscOfSorted(xs);
    }
  }

  /** Ten samples 10, 20, ..., 100 give a 95th percentile of 100. */
  lemma PercentileOfTens()
    ensures Percentile95(PushAll([], Steps(10, 10.0))) == 100.0
  {
    var xs := Steps(10, 10.0);
    StepsSorted(10, 10.0);
    PercentileOfSortedInserts(xs);
    assert PercentileIndex(10) == 9 && xs[9] == 100.0;
  }

  /** Twenty samples 5, 10, ..., 100 give a 95th percentile of 95. */
  lemma PercentileOfFives()
    ensures Percentile95(PushAll([], Steps(20, 5.0))) == 95.0
  {
    var xs := Steps(20, 5.0);
    StepsSorted(20, 5.0);
    PercentileOfSortedInserts(xs);
    assert PercentileIndex(20) == 18 && xs[18] == 95.0;
  }
}
