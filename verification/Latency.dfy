/**
 * Sorting, percentiles and mean of the load generator's latencies
 * (ops/executor/report.go:98-101, 108-120), over unbounded integers and real ranks.
 */
module Latency {
  import opened Sorting

  predicate Ascending(data: seq<int>)
  {
    forall i, j :: 0 <= i < j < |data| ==> data[i] <= data[j]
  }

  function Itself(x: int): int
  {
    x
  }

  /** sort.Slice on the latencies. */
  function SortLatencies(data: seq<int>): seq<int>
  {
    SortBy(data, Itself)
  }

  lemma LatenciesSorted(data: seq<int>)
    ensures Ascending(SortLatencies(data)) && multiset(SortLatencies(data)) == multiset(data)
  {
    var out := SortLatencies(data);
    SortBySorts(data, Itself);
    forall i, j | 0 <= i < j < |out| ensures out[i] <= out[j] {
      assert Itself(out[i]) <= Itself(out[j]);
    }
  }

  function Scale(x: real, p: real): real
  {
    x * p
  }

  lemma ScaleMonotone(x: real, p: real, q: real)
    requires x >= 0.0 && p <= q
    ensures Scale(x, p) <= Scale(x, q)
  {
  }

  lemma RankInRange(n: nat, p: real)
    requires n > 0 && 0.0 <= p <= 1.0
    ensures 0 <= Scale((n - 1) as real, p).Floor <= n - 1
  {
    var x := (n - 1) as real;
    ScaleMonotone(x, 0.0, p);
    ScaleMonotone(x, p, 1.0);
    assert Scale(x, 0.0) == 0.0 && Scale(x, 1.0) == x;
  }

  /** int(float64(n-1) * p). */
  function Rank(n: nat, p: real): (k: nat)
    requires n > 0
    ensures k < n
  {
    if p <= 0.0 then 0
    else if p >= 1.0 then n - 1
    else
      RankInRange(n, p);
      Scale((n - 1) as real, p).Floor
  }

  lemma FloorMonotone(a: real, b: real)
    requires a <= b
    ensures a.Floor <= b.Floor
  {
    assert a.Floor as real <= a <= b < (b.Floor + 1) as real;
  }

  lemma RankMonotone(n: nat, p: real, q: real)
    requires n > 0 && p <= q
    ensures Rank(n, p) <= Rank(n, q)
  {
    ScaleMonotone((n - 1) as real, p, q);
    FloorMonotone(Scale((n - 1) as real, p), Scale((n - 1) as real, q));
  }

  function Percentile(data: seq<int>, p: real): int
  {
    if data == [] then 0 else data[Rank(|data|, p)]
  }

  function AtMost(data: seq<int>, v: int, n: nat): nat
    requires n <= |data|
  {
    if n == 0 then 0 else AtMost(data, v, n - 1) + (if data[n - 1] <= v then 1 else 0)
  }

  function Below(data: seq<int>, v: int, n: nat): nat
    requires n <= |data|
  {
    if n == 0 then 0 else Below(data, v, n - 1) + (if data[n - 1] < v then 1 else 0)
  }

  lemma {:induction false} SortedRank(data: seq<int>, i: nat, n: nat)
    requires Ascending(data) && i < |data| && n <= |data|
    ensures AtMost(data, data[i], n) >= if n <= i then n else i + 1
    ensures Below(data, data[i], n) <= if n <= i then n else i
  {
    if n > 0 {
      SortedRank(data, i, n - 1);
      assert n - 1 < i ==> data[n - 1] <= data[i];
      assert i < n - 1 ==> data[i] <= data[n - 1];
    }
  }

  function Without(data: seq<int>, k: nat): seq<int>
    requires k < |data|
  {
    data[..k] + data[k + 1..]
  }

  lemma {:induction false} CountsWithout(data: seq<int>, k: nat, v: int, n: nat)
    requires k < n <= |data|
    ensures AtMost(data, v, n) == AtMost(Without(data, k), v, n - 1) + (if data[k] <= v then 1 else 0)
    ensures Below(data, v, n) == Below(Without(data, k), v, n - 1) + (if data[k] < v then 1 else 0)
  {
    if k == n - 1 {
      SameFront(data, Without(data, k), v, k);
    } else {
      CountsWithout(data, k, v, n - 1);
      assert Without(data, k)[n - 2] == data[n - 1];
    }
  }

  lemma {:induction false} SameFront(a: seq<int>, b: seq<int>, v: int, n: nat)
    requires n <= |a| && n <= |b| && forall i :: 0 <= i < n ==> a[i] == b[i]
    ensures AtMost(a, v, n) == AtMost(b, v, n) && Below(a, v, n) == Below(b, v, n)
  {
    if n > 0 { SameFront(a, b, v, n - 1); }
  }

  lemma WithoutMultiset(data: seq<int>, k: nat)
    requires k < |data|
    ensures multiset(Without(data, k)) == multiset(data) - multiset{data[k]}
  {
    assert data == data[..k] + [data[k]] + data[k + 1..];
  }

  lemma SameWithout(a: seq<int>, b: seq<int>)
    returns (k: nat)
    requires a != [] && multiset(a) == multiset(b)
    ensures k < |b| && b[k] == a[0] && |a| == |b|
    ensures multiset(Without(a, 0)) == multiset(Without(b, k))
  {
    assert |multiset(a)| == |multiset(b)|;
    assert a[0] in multiset(b);
    k :| 0 <= k < |b| && b[k] == a[0];
    WithoutMultiset(a, 0);
    WithoutMultiset(b, k);
  }

  /** Counts do not depend on the order. */
  lemma {:induction false} CountsOfPermutation(a: seq<int>, b: seq<int>, v: int)
    requires multiset(a) == multiset(b)
    ensures |a| == |b| && AtMost(a, v, |a|) == AtMost(b, v, |b|) && Below(a, v, |a|) == Below(b, v, |b|)
    decreases |a|
  {
    if a == [] {
      assert |multiset(b)| == 0;
    } else {
      var k := SameWithout(a, b);
      CountsOfPermutation(Without(a, 0), Without(b, k), v);
      CountsWithout(a, 0, v, |a|);
      CountsWithout(b, k, v, |b|);
    }
  }

  lemma RankIs(n: nat, p: real)
    requires n > 0
    ensures 0.0 < p < 1.0 ==> Rank(n, p) == ((n - 1) as real * p).Floor
    ensures p <= 0.0 ==> Rank(n, p) == 0
    ensures p >= 1.0 ==> Rank(n, p) == n - 1
  {
    assert Scale((n - 1) as real, p) == (n - 1) as real * p;
  }

  lemma CountsAtRank(latencies: seq<int>, sorted: seq<int>, k: nat)
    requires k < |latencies| && Ascending(sorted) && multiset(sorted) == multiset(latencies)
    ensures k < |sorted| == |latencies| && sorted[k] in latencies
    ensures AtMost(latencies, sorted[k], |latencies|) > k && Below(latencies, sorted[k], |latencies|) <= k
  {
    assert |multiset(sorted)| == |multiset(latencies)|;
    CountsOfPermutation(sorted, latencies, sorted[k]);
    SortedRank(sorted, k, |sorted|);
    assert sorted[k] in multiset(sorted);
  }

  lemma EndsOfSorted(latencies: seq<int>, sorted: seq<int>)
    requires latencies != [] && Ascending(sorted) && multiset(sorted) == multiset(latencies)
    ensures |sorted| == |latencies|
    ensures forall i :: 0 <= i < |latencies| ==> sorted[0] <= latencies[i] <= sorted[|sorted| - 1]
  {
    assert |multiset(sorted)| == |multiset(latencies)|;
    forall i | 0 <= i < |latencies| ensures sorted[0] <= latencies[i] <= sorted[|sorted| - 1] {
      assert latencies[i] in multiset(latencies);
      var j :| 0 <= j < |sorted| && sorted[j] == latencies[i];
    }
  }

  /**
   * A percentile is an order statistic of the latencies as they came: more than
   * floor((n-1)p) of them are at most the value, and no more than that are below it. A
   * rank of 0 or less gives the least latency, one of 1 or more the greatest.
   */
  lemma PercentileIsOrderStatistic(latencies: seq<int>, sorted: seq<int>, p: real)
    requires latencies != [] && Ascending(sorted) && multiset(sorted) == multiset(latencies)
    ensures Percentile(sorted, p) in latencies
    ensures 0.0 < p < 1.0 ==>
              var v, k := Percentile(sorted, p), ((|latencies| - 1) as real * p).Floor;
              && AtMost(latencies, v, |latencies|) > k
              && Below(latencies, v, |latencies|) <= k
    ensures p <= 0.0 ==> forall i :: 0 <= i < |latencies| ==> Percentile(sorted, p) <= latencies[i]
    ensures p >= 1.0 ==> forall i :: 0 <= i < |latencies| ==> latencies[i] <= Percentile(sorted, p)
  {
    hide AtMost, Below, Ascending, Rank, Percentile;
    EndsOfSorted(latencies, sorted);
    RankIs(|latencies|, p);
    var k := Rank(|latencies|, p);
    CountsAtRank(latencies, sorted, k);
    PercentileAt(sorted, p, k);
  }

  lemma PercentileAt(sorted: seq<int>, p: real, k: nat)
    requires sorted != [] && k == Rank(|sorted|, p)
    ensures Percentile(sorted, p) == sorted[k]
  {
  }

  lemma PercentilesOrdered(sorted: seq<int>, p: real, q: real)
    requires Ascending(sorted) && p <= q
    ensures Percentile(sorted, p) <= Percentile(sorted, q)
  {
    if sorted != [] {
      RankMonotone(|sorted|, p, q);
      assert Rank(|sorted|, p) < Rank(|sorted|, q) || Rank(|sorted|, p) == Rank(|sorted|, q);
    }
  }

  // ------------------------------------------------------------ the mean

  /** Go's integer division, for a positive divisor. */
  function GoDiv(a: int, n: int): int
    requires n > 0
  {
    if a >= 0 then a / n else -(-a / n)
  }

  lemma Quotient(a: int, n: int)
    requires n > 0 && a >= 0
    ensures (a / n) * n <= a < (a / n + 1) * n
  {
  }

  lemma Cancel(a: int, b: int, n: int)
    requires n > 0 && a * n < b * n
    ensures a < b
  {
  }

  /** The quotient is the exact one, cut off toward zero. */
  lemma GoDivMeaning(a: int, n: int)
    requires n > 0
    ensures a >= 0 ==> GoDiv(a, n) * n <= a < (GoDiv(a, n) + 1) * n
    ensures a <= 0 ==> (GoDiv(a, n) - 1) * n < a <= GoDiv(a, n) * n
  {
    if a >= 0 { Quotient(a, n); } else { Quotient(-a, n); }
  }

  /** A mean lies between any bounds of the values, the upper one nonnegative. */
  lemma {:induction false} MeanBetween(sum: int, n: int, lo: int, hi: int)
    requires n > 0 && hi >= 0 && lo * n <= sum <= hi * n
    ensures lo <= GoDiv(sum, n) <= hi
  {
    if sum >= 0 {
      Quotient(sum, n);
      Cancel(lo, sum / n + 1, n);
      assert (sum / n) * n < (hi + 1) * n;
      Cancel(sum / n, hi + 1, n);
    } else {
      Quotient(-sum, n);
      var d := -sum / n;
      assert d * n <= -sum <= -lo * n;
      assert d * n < (-lo + 1) * n;
      Cancel(d, -lo + 1, n);
      assert d >= 0 by { if d < 0 { Cancel(-1, d + 1, n); } }
    }
  }
}
