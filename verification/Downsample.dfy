/** internal/chart/markdown.go, downsample: a long series as averages of contiguous buckets. */
module Downsample {

  /** Where bucket i of n begins in a series of the given length, and bucket i - 1 ends. */
  function Bound(i: nat, length: nat, n: nat): nat
    requires n > 0
  {
    i * length / n
  }

  function Sum(v: seq<real>, lo: nat, hi: nat): real
    requires lo <= hi <= |v|
  {
    if lo == hi then 0.0 else Sum(v, lo, hi - 1) + v[hi - 1]
  }

  function Size(i: nat, length: nat, n: nat): int
    requires n > 0
  {
    Bound(i + 1, length, n) - Bound(i, length, n)
  }

  function Average(v: seq<real>, lo: nat, hi: nat): real
    requires lo < hi <= |v|
  {
    Sum(v, lo, hi) / (hi - lo) as real
  }

  ghost predicate IsDownsampled(out: seq<real>, v: seq<real>, n: nat) {
    if |v| <= n then out == v
    else
      |out| == n && forall i | 0 <= i < n :: IsBucketAverage(out[i], v, n, i)
  }

  predicate IsBucketAverage(a: real, v: seq<real>, n: nat, i: nat)
    requires n > 0
  {
    var lo, hi := Bound(i, |v|, n), Bound(i + 1, |v|, n);
    lo < hi <= |v| && a == Average(v, lo, hi)
  }

  // ---- the buckets --------------------------------------------------------------------

  lemma DivBounds(a: nat, n: nat)
    requires n > 0
    ensures n * (a / n) <= a < n * (a / n) + n
  {
  }

  lemma MulMonotone(n: nat, x: int, y: int)
    requires x <= y
    ensures n * x <= n * y
  {
    assert n * (y - x) >= 0;
  }

  lemma MulLess(n: nat, x: int, y: int)
    requires n * x < n * y
    ensures x < y
  {
    if y <= x {
      MulMonotone(n, y, x);
    }
  }

  /** Dividing a sum of two numbers drops at most one more than dividing them apart. */
  lemma DivOfSum(a: nat, b: nat, n: nat)
    requires n > 0
    ensures a / n + b / n <= (a + b) / n <= a / n + b / n + 1
  {
    DivBounds(a, n);
    DivBounds(b, n);
    QuotientOfSum(a, b, a / n, b / n, n);
  }

  lemma QuotientOfSum(a: nat, b: nat, q: nat, s: nat, n: nat)
    requires n > 0 && n * q <= a < n * q + n && n * s <= b < n * s + n
    ensures q + s <= (a + b) / n <= q + s + 1
  {
    assert n * (q + s) == n * q + n * s;
    assert n * (q + s + 1) == n * q + n * s + n;
    if a + b < n * (q + s) + n {
      QuotientIs(a + b, q + s, n);
    } else {
      QuotientIs(a + b, q + s + 1, n);
    }
  }

  lemma QuotientIs(a: nat, q: nat, n: nat)
    requires n > 0 && n * q <= a < n * q + n
    ensures a / n == q
  {
    var c := a / n;
    DivBounds(a, n);
    assert n * (c + 1) == n * c + n && n * (q + 1) == n * q + n;
    MulLess(n, q, c + 1);
    MulLess(n, c, q + 1);
  }

  /** With more samples than buckets, every bucket holds one or more, all hold the same number or
      one more, and together they hold all: the guards of the loop are never needed. */
  lemma BucketSizes(i: nat, length: nat, n: nat)
    requires 0 < n < length && i < n
    ensures Bound(0, length, n) == 0 && Bound(n, length, n) == length
    ensures 1 <= length / n <= Size(i, length, n) <= length / n + 1
    ensures Bound(i, length, n) < Bound(i + 1, length, n) <= length
  {
    BoundStep(i, length, n);
    DivBounds(length, n);
    MulLess(n, 1, length / n + 1);
    QuotientIs(n * length, length, n);
    QuotientIs(0, 0, n);
    BoundMonotone(i + 1, n, length, n);
  }

  /** A bucket begins at the greatest whole place that is not beyond its share of the length. */
  lemma BoundIs(i: nat, length: nat, n: nat)
    requires n > 0
    ensures n * Bound(i, length, n) <= i * length < n * (Bound(i, length, n) + 1)
  {
    DivBounds(i * length, n);
    assert n * (i * length / n + 1) == n * (i * length / n) + n;
  }

  lemma BoundStep(i: nat, length: nat, n: nat)
    requires n > 0
    ensures length / n <= Size(i, length, n) <= length / n + 1
  {
    DivOfSum(i * length, length, n);
    assert (i + 1) * length == i * length + length;
  }

  lemma {:induction false} BoundMonotone(i: nat, j: nat, length: nat, n: nat)
    requires n > 0 && i <= j
    ensures Bound(i, length, n) <= Bound(j, length, n)
    decreases j - i
  {
    hide Bound;
    if i < j {
      BoundMonotone(i, j - 1, length, n);
      BoundStep(j - 1, length, n);
    }
  }

  /** Every sample is in exactly one bucket. */
  lemma {:induction false} BucketOf(j: nat, length: nat, n: nat, m: nat) returns (i: nat)
    requires 0 < n < length && m <= n && j < Bound(m, length, n)
    ensures i < m && Bound(i, length, n) <= j < Bound(i + 1, length, n)
    ensures forall k: nat | Bound(k, length, n) <= j < Bound(k + 1, length, n) :: k == i
  {
    QuotientIs(0, 0, n);
    assert Bound(0, length, n) == 0;
    if Bound(m - 1, length, n) <= j {
      i := m - 1;
    } else {
      i := BucketOf(j, length, n, m - 1);
    }
    forall k: nat | Bound(k, length, n) <= j < Bound(k + 1, length, n)
      ensures k == i
    {
      if k < i {
        BoundMonotone(k + 1, i, length, n);
      } else if i < k {
        BoundMonotone(i + 1, k, length, n);
      }
    }
  }

  // ---- the loop -------------------------------------------------------------------------

  method Reduce(v: seq<real>, n: nat) returns (out: seq<real>)
    ensures IsDownsampled(out, v, n)
  {
    if |v| <= n {
      return v;
    }
    out := [];
    for i := 0 to n
      invariant |out| == i
      invariant forall k | 0 <= k < i :: IsBucketAverage(out[k], v, n, k)
    {
      var lo := i * |v| / n;
      var hi := (i + 1) * |v| / n;
      BucketSizes(i, |v|, n);
      if hi <= lo {
        hi := lo + 1;
      }
      var sum, count := 0.0, 0;
      var j := lo;
      while j < hi && j < |v|
        invariant lo <= j <= hi
        invariant count == j - lo && sum == Sum(v, lo, j)
      {
        sum := sum + v[j];
        count := count + 1;
        j := j + 1;
      }
      out := out + [sum / count as real];
    }
  }

  // ---- what the averages keep ------------------------------------------------------------

  lemma {:induction false} SumSplit(v: seq<real>, lo: nat, mid: nat, hi: nat)
    requires lo <= mid <= hi <= |v|
    ensures Sum(v, lo, hi) == Sum(v, lo, mid) + Sum(v, mid, hi)
    decreases hi
  {
    if mid < hi {
      SumSplit(v, lo, mid, hi - 1);
    }
  }

  lemma {:induction false} SumBetween(v: seq<real>, lo: nat, hi: nat, low: real, high: real)
    requires lo <= hi <= |v| && forall i | lo <= i < hi :: low <= v[i] <= high
    ensures low * (hi - lo) as real <= Sum(v, lo, hi) <= high * (hi - lo) as real
    decreases hi
  {
    if lo < hi {
      SumBetween(v, lo, hi - 1, low, high);
      var k := (hi - 1 - lo) as real;
      assert (hi - lo) as real == k + 1.0;
      assert low * (k + 1.0) == low * k + low && high * (k + 1.0) == high * k + high;
    }
  }

  lemma AverageBetween(v: seq<real>, lo: nat, hi: nat, low: real, high: real)
    requires lo < hi <= |v| && forall i | lo <= i < hi :: low <= v[i] <= high
    ensures low <= Average(v, lo, hi) <= high
  {
    SumBetween(v, lo, hi, low, high);
    var k := (hi - lo) as real;
    QuotientBetween(Sum(v, lo, hi), k, low, high);
  }

  lemma QuotientBetween(sum: real, k: real, low: real, high: real)
    requires k > 0.0 && low * k <= sum <= high * k
    ensures low <= sum / k <= high
  {
    var a := sum / k;
    assert a * k == sum;
    assert (a - low) * k >= 0.0;
    assert (high - a) * k >= 0.0;
  }

  /** No average leaves the range of the samples. */
  lemma StaysBetween(out: seq<real>, v: seq<real>, n: nat, low: real, high: real)
    requires IsDownsampled(out, v, n) && forall i | 0 <= i < |v| :: low <= v[i] <= high
    ensures forall i | 0 <= i < |out| :: low <= out[i] <= high
  {
    if |v| > n {
      forall i | 0 <= i < |out|
        ensures low <= out[i] <= high
      {
        assert IsBucketAverage(out[i], v, n, i);
        AverageBetween(v, Bound(i, |v|, n), Bound(i + 1, |v|, n), low, high);
      }
    }
  }

  lemma AverageWeighs(v: seq<real>, lo: nat, hi: nat)
    requires lo < hi <= |v|
    ensures Average(v, lo, hi) * (hi - lo) as real == Sum(v, lo, hi)
  {
  }

  /** The averages, each times the size of its bucket, over the first k buckets. */
  function Weighted(out: seq<real>, length: nat, n: nat, k: nat): real
    requires n > 0 && k <= |out|
  {
    if k == 0 then 0.0 else Weighted(out, length, n, k - 1) + out[k - 1] * Size(k - 1, length, n) as real
  }

  lemma {:induction false} WeightedIsSum(out: seq<real>, v: seq<real>, n: nat, k: nat)
    requires 0 < n < |v| && IsDownsampled(out, v, n) && k <= n
    ensures Bound(k, |v|, n) <= |v|
    ensures Weighted(out, |v|, n, k) == Sum(v, 0, Bound(k, |v|, n))
  {
    hide Bound, Average;
    BucketSizes(0, |v|, n);
    if k > 0 {
      WeightedIsSum(out, v, n, k - 1);
      var lo, hi := Bound(k - 1, |v|, n), Bound(k, |v|, n);
      assert IsBucketAverage(out[k - 1], v, n, k - 1);
      AverageWeighs(v, lo, hi);
      SumSplit(v, 0, lo, hi);
    }
  }

  /** Nothing is lost: the averages weigh as much as the samples. */
  lemma KeepsTotal(out: seq<real>, v: seq<real>, n: nat)
    requires 0 < n < |v| && IsDownsampled(out, v, n)
    ensures Weighted(out, |v|, n, n) == Sum(v, 0, |v|)
  {
    WeightedIsSum(out, v, n, n);
    BucketSizes(0, |v|, n);
  }
}
