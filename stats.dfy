/** The latency statistics of a benchmark run: the nearest-rank `percentile`
    (bench.ts:212-218) over a sorted copy of the samples, and the average,
    minimum and maximum of bench.ts:303-312. Latencies are exact reals. */
module Stats {
  import opened Numeric

  // ---------------------------------------------------------------------
  // Sum, mean, minimum, maximum
  // ---------------------------------------------------------------------

  /** `values.reduce((sum, t) => sum + t, 0)`, folded from the left. */
  function Sum(s: seq<real>): real
  {
    if |s| == 0 then 0.0 else Sum(s[..|s| - 1]) + s[|s| - 1]
  }

  function Mean(s: seq<real>): real
    requires |s| > 0
  {
    Sum(s) / |s| as real
  }

  /** `Math.min(...s)`: an element of `s` that no element is below. */
  function Min(s: seq<real>): (r: real)
    requires |s| > 0
    ensures forall i :: 0 <= i < |s| ==> r <= s[i]
    ensures r in s
  {
    if |s| == 1 then s[0]
    else
      var m := Min(s[1..]);
      assert forall i :: 1 <= i < |s| ==> s[i] == s[1..][i - 1];
      if s[0] <= m then s[0] else m
  }

  /** `Math.max(...s)`: an element of `s` that no element is above. */
  function Max(s: seq<real>): (r: real)
    requires |s| > 0
    ensures forall i :: 0 <= i < |s| ==> s[i] <= r
    ensures r in s
  {
    if |s| == 1 then s[0]
    else
      var m := Max(s[1..]);
      assert forall i :: 1 <= i < |s| ==> s[i] == s[1..][i - 1];
      if s[0] >= m then s[0] else m
  }

  /** A sum of `n` values between `lo` and `hi` lies between `n * lo` and `n * hi`. */
  lemma {:induction false} SumBounds(s: seq<real>, lo: real, hi: real)
    requires forall i :: 0 <= i < |s| ==> lo <= s[i] <= hi
    ensures |s| as real * lo <= Sum(s) <= |s| as real * hi
  {
    if |s| > 0 {
      var init := s[..|s| - 1];
      assert forall i :: 0 <= i < |init| ==> init[i] == s[i];
      SumBounds(init, lo, hi);
      assert |s| as real * lo == |init| as real * lo + lo;
      assert |s| as real * hi == |init| as real * hi + hi;
    }
  }

  /** Dividing both sides of `n * lo <= x <= n * hi` by a positive `n`. */
  lemma DivideBounds(x: real, n: real, lo: real, hi: real)
    requires n > 0.0 && n * lo <= x <= n * hi
    ensures lo <= x / n <= hi
  {
    assert (x / n) * n == x;
  }

  /** The average of values between `lo` and `hi` lies between them. */
  lemma MeanBounds(s: seq<real>, lo: real, hi: real)
    requires |s| > 0
    requires forall i :: 0 <= i < |s| ==> lo <= s[i] <= hi
    ensures lo <= Mean(s) <= hi
  {
    SumBounds(s, lo, hi);
    DivideBounds(Sum(s), |s| as real, lo, hi);
  }

  /** The average lies between the minimum and the maximum. */
  lemma MeanBetweenMinAndMax(s: seq<real>)
    requires |s| > 0
    ensures Min(s) <= Mean(s) <= Max(s)
  {
    MeanBounds(s, Min(s), Max(s));
  }

  // ---------------------------------------------------------------------
  // The sorted copy
  // ---------------------------------------------------------------------

  ghost predicate Sorted(s: seq<real>)
  {
    forall i, j :: 0 <= i < j < |s| ==> s[i] <= s[j]
  }

  /** Inserts `x` into a sorted sequence, keeping it sorted. */
  function Insert(x: real, s: seq<real>): (r: seq<real>)
    requires Sorted(s)
    ensures Sorted(r)
    ensures multiset(r) == multiset(s) + multiset{x}
    ensures |r| == |s| + 1
  {
    if |s| == 0 then [x]
    else if x <= s[0] then [x] + s
    else
      var t := Insert(x, s[1..]);
      assert s == [s[0]] + s[1..];
      LowerBoundKept(s[0], x, s[1..], t);
      [s[0]] + t
  }

  /** A bound below `x` and every element of `rest` is below every element
      of a permutation of `rest` with `x` added. */
  lemma LowerBoundKept(lo: real, x: real, rest: seq<real>, t: seq<real>)
    requires lo <= x
    requires forall k :: 0 <= k < |rest| ==> lo <= rest[k]
    requires multiset(t) == multiset(rest) + multiset{x}
    ensures forall k :: 0 <= k < |t| ==> lo <= t[k]
  {
    forall k | 0 <= k < |t|
      ensures lo <= t[k]
    {
      assert t[k] in multiset(t);
      if t[k] != x {
        assert t[k] in multiset(rest);
        var j :| 0 <= j < |rest| && rest[j] == t[k];
      }
    }
  }

  /** `[...values].sort((a, b) => a - b)`: a sorted permutation of the
      samples (an insertion sort; every sort gives the same sequence). */
  function Sort(s: seq<real>): (r: seq<real>)
    ensures Sorted(r)
    ensures multiset(r) == multiset(s)
    ensures |r| == |s|
  {
    if |s| == 0 then [] else
      assert s == [s[0]] + s[1..];
      Insert(s[0], Sort(s[1..]))
  }

  // ---------------------------------------------------------------------
  // Counting below a value
  // ---------------------------------------------------------------------

  /** How many samples lie strictly below `x` (`strict`) or at or below it. */
  function CountBelow(s: seq<real>, x: real, strict: bool): (r: nat)
    ensures r <= |s|
  {
    if |s| == 0 then 0
    else (if (if strict then s[0] < x else s[0] <= x) then 1 else 0) + CountBelow(s[1..], x, strict)
  }

  lemma {:induction false} CountBelowInsert(v: real, s: seq<real>, x: real, strict: bool)
    requires Sorted(s)
    ensures CountBelow(Insert(v, s), x, strict)
            == CountBelow(s, x, strict) + (if (if strict then v < x else v <= x) then 1 else 0)
  {
    if |s| > 0 && v > s[0] {
      CountBelowInsert(v, s[1..], x, strict);
      assert ([s[0]] + Insert(v, s[1..]))[1..] == Insert(v, s[1..]);
    } else if |s| > 0 {
      assert ([v] + s)[1..] == s;
    }
  }

  /** Sorting does not change how many samples lie below a value. */
  lemma {:induction false} CountBelowSort(s: seq<real>, x: real, strict: bool)
    ensures CountBelow(Sort(s), x, strict) == CountBelow(s, x, strict)
  {
    if |s| > 0 {
      CountBelowSort(s[1..], x, strict);
      CountBelowInsert(s[0], Sort(s[1..]), x, strict);
    }
  }

  lemma {:induction false} CountBelowAppend(a: seq<real>, b: seq<real>, x: real, strict: bool)
    ensures CountBelow(a + b, x, strict) == CountBelow(a, x, strict) + CountBelow(b, x, strict)
  {
    if |a| > 0 {
      CountBelowAppend(a[1..], b, x, strict);
      assert (a + b)[1..] == a[1..] + b;
    } else {
      assert a + b == b;
    }
  }

  lemma {:induction false} CountBelowAll(s: seq<real>, x: real, strict: bool)
    requires forall i :: 0 <= i < |s| ==> (if strict then s[i] < x else s[i] <= x)
    ensures CountBelow(s, x, strict) == |s|
  {
    if |s| > 0 {
      CountBelowAll(s[1..], x, strict);
    }
  }

  lemma {:induction false} CountBelowNone(s: seq<real>, x: real)
    requires forall i :: 0 <= i < |s| ==> x <= s[i]
    ensures CountBelow(s, x, true) == 0
  {
    if |s| > 0 {
      CountBelowNone(s[1..], x);
    }
  }

  /** In a sorted sequence at least `k + 1` values are at or below the value
      at index `k`. */
  lemma SortedRankAtOrBelow(s: seq<real>, k: nat)
    requires Sorted(s) && k < |s|
    ensures CountBelow(s, s[k], false) >= k + 1
  {
    var pre, post := s[..k + 1], s[k + 1..];
    assert s == pre + post;
    CountBelowAppend(pre, post, s[k], false);
    assert forall i :: 0 <= i < |pre| ==> pre[i] <= s[k] by {
      forall i | 0 <= i < |pre| ensures pre[i] <= s[k] {
        assert pre[i] == s[i];
      }
    }
    CountBelowAll(pre, s[k], false);
  }

  /** In a sorted sequence at most `k` values are strictly below the value at
      index `k`. */
  lemma SortedRankBelow(s: seq<real>, k: nat)
    requires Sorted(s) && k < |s|
    ensures CountBelow(s, s[k], true) <= k
  {
    var pre, post := s[..k], s[k..];
    assert s == pre + post;
    CountBelowAppend(pre, post, s[k], true);
    assert forall i :: 0 <= i < |post| ==> s[k] <= post[i] by {
      forall i | 0 <= i < |post| ensures s[k] <= post[i] {
        assert post[i] == s[k + i];
      }
    }
    CountBelowNone(post, s[k]);
  }

  // ---------------------------------------------------------------------
  // percentile
  // ---------------------------------------------------------------------

  /** `Math.max(0, Math.ceil((p / 100) * n) - 1)`, the index into the sorted
      copy. For p <= 100 it lies in [0, n - 1]; p > 100 would index past the
      end of the copy. */
  function RankIndex(p: int, n: nat): (k: nat)
    requires n > 0 && p <= 100
    ensures k < n
    ensures p * n > 0 ==> k == CeilDiv(p * n, 100) - 1
    ensures p * n <= 0 ==> k == 0
  {
    assert p * n <= 100 * n by {
      MulMonotone(p, 100, n);
    }
    var index := CeilDiv(p * n, 100) - 1;
    if index < 0 then 0 else index
  }

  /** `percentile(values, p)`: 0 for no samples, otherwise the sample at the
      rank index of the sorted copy; always one of the samples. */
  function Percentile(values: seq<real>, p: int): (r: real)
    requires p <= 100
    ensures |values| == 0 ==> r == 0.0
    ensures |values| > 0 ==> r in values
  {
    if |values| == 0 then 0.0
    else
      var sorted := Sort(values);
      var k := RankIndex(p, |values|);
      assert sorted[k] in multiset(sorted);
      sorted[k]
  }

  /** The nearest-rank definition: for 0 < p <= 100, the percentile is a
      sample such that at least p% of the samples are at or below it and
      fewer than p% are strictly below it. */
  lemma PercentileIsNearestRank(values: seq<real>, p: int)
    requires |values| > 0 && 0 < p <= 100
    ensures CountBelow(values, Percentile(values, p), false) * 100 >= p * |values|
    ensures CountBelow(values, Percentile(values, p), true) * 100 < p * |values|
  {
    var n := |values|;
    var sorted := Sort(values);
    var k := RankIndex(p, n);
    var r := sorted[k];
    assert p * n > 0 by {
      MulMonotone(1, p, n);
    }
    SortedRankAtOrBelow(sorted, k);
    SortedRankBelow(sorted, k);
    CountBelowSort(values, r, false);
    CountBelowSort(values, r, true);
    var c := CeilDiv(p * n, 100);
    assert k == c - 1;
    assert (k + 1) * 100 >= p * n;
    assert k * 100 < p * n;
    assert CountBelow(values, r, false) * 100 >= (k + 1) * 100 by {
      MulMonotone(k + 1, CountBelow(values, r, false), 100);
    }
    assert CountBelow(values, r, true) * 100 <= k * 100 by {
      MulMonotone(CountBelow(values, r, true), k, 100);
    }
  }

  /** The sample at a sorted-copy index lies between the minimum and the maximum. */
  lemma SortedElementBounds(values: seq<real>, k: nat)
    requires k < |values|
    ensures Min(values) <= Sort(values)[k] <= Max(values)
  {
    var sorted := Sort(values);
    assert sorted[k] in multiset(values);
  }

  /** A larger p never gives a smaller percentile. */
  lemma PercentileMonotone(values: seq<real>, p: int, q: int)
    requires p <= q <= 100
    ensures Percentile(values, p) <= Percentile(values, q)
  {
    if |values| > 0 {
      var n := |values|;
      MulMonotone(p, q, n);
      CeilDivMonotone(p * n, q * n, 100);
      var i, j := RankIndex(p, n), RankIndex(q, n);
      assert i <= j;
      var sorted := Sort(values);
      assert Percentile(values, p) == sorted[i];
      assert Percentile(values, q) == sorted[j];
    }
  }

  /** p = 100 gives the largest sample. */
  lemma PercentileHundredIsMax(values: seq<real>)
    requires |values| > 0
    ensures Percentile(values, 100) == Max(values)
  {
    var n := |values|;
    var sorted := Sort(values);
    CeilDivUnique(100 * n, 100, n);
    assert RankIndex(100, n) == n - 1;
    assert Percentile(values, 100) == sorted[n - 1];
    SortedElementBounds(values, n - 1);
    assert Max(values) in multiset(sorted);
    var j :| 0 <= j < n && sorted[j] == Max(values);
    assert sorted[j] <= sorted[n - 1];
  }

  /** p = 0 (and any p <= 0) clamps the index to 0 and gives the smallest sample. */
  lemma PercentileZeroIsMin(values: seq<real>, p: int)
    requires |values| > 0 && p <= 0
    ensures Percentile(values, p) == Min(values)
  {
    var n := |values|;
    var sorted := Sort(values);
    MulMonotone(p, 0, n);
    assert RankIndex(p, n) == 0;
    assert Percentile(values, p) == sorted[0];
    SortedElementBounds(values, 0);
    assert Min(values) in multiset(sorted);
    var j :| 0 <= j < n && sorted[j] == Min(values);
    assert sorted[0] <= sorted[j];
  }

  /** Every percentile lies between the minimum and the maximum. */
  lemma PercentileBounds(values: seq<real>, p: int)
    requires |values| > 0 && p <= 100
    ensures Min(values) <= Percentile(values, p) <= Max(values)
  {
    SortedElementBounds(values, RankIndex(p, |values|));
  }

  // ---------------------------------------------------------------------
  // The latency block of a run
  // ---------------------------------------------------------------------

  /** The latency fields of a `BenchmarkResult`. */
  datatype Latency = Latency(
    avg: real, min: real, max: real,
    p50: real, p75: real, p90: real, p95: real, p99: real)

  /** Their initial values (bench.ts:233-240), kept when nothing succeeded. */
  const NoLatency := Latency(0.0, 0.0, 0.0, 0.0, 0.0, 0.0, 0.0, 0.0)

  /** bench.ts:304-311, for at least one sample. */
  function LatencyOf(times: seq<real>): Latency
    requires |times| > 0
  {
    Latency(Mean(times), Min(times), Max(times),
            Percentile(times, 50), Percentile(times, 75), Percentile(times, 90),
            Percentile(times, 95), Percentile(times, 99))
  }

  /** The statistics are ordered: min <= p50 <= p75 <= p90 <= p95 <= p99 <= max
      and min <= avg <= max. */
  lemma LatencyIsOrdered(times: seq<real>)
    requires |times| > 0
    ensures var l := LatencyOf(times);
            && l.min <= l.p50 <= l.p75 <= l.p90 <= l.p95 <= l.p99 <= l.max
            && l.min <= l.avg <= l.max
  {
    MeanBetweenMinAndMax(times);
    PercentileBounds(times, 50);
    PercentileMonotone(times, 50, 75);
    PercentileMonotone(times, 75, 90);
    PercentileMonotone(times, 90, 95);
    PercentileMonotone(times, 95, 99);
    PercentileBounds(times, 99);
  }
}
