/** `ChordLengthParameterize`: each sample of a region gets the fraction of
    the polyline's length, measured from the region's first sample, at
    which it lies.
 */
module Chord {
  import opened Vectors
  import opened Outcomes

  /** The distances between consecutive samples: `g[k]` separates
      `d[first + k]` from `d[first + k + 1]`. */
  function Gaps(sqrt: real -> real, d: seq<Point>, first: nat, count: nat): (g: seq<real>)
    requires IsSqrt(sqrt)
    requires 1 <= count && first + count <= |d|
    ensures |g| == count - 1
    ensures forall k :: 0 <= k < |g| ==> 0.0 <= g[k]
    ensures forall k :: 0 <= k < |g| ==> (g[k] == 0.0 <==> d[first + k + 1] == d[first + k])
  {
    var g := seq(count - 1, k requires 0 <= k < count - 1 => Distance(sqrt, d[first + k + 1], d[first + k]));
    assert forall k :: 0 <= k < |g| ==> g[k] == Distance(sqrt, d[first + k + 1], d[first + k]);
    g
  }

  /** Running sums of non-negative gaps, starting from `0.0`. */
  function PartialSums(g: seq<real>): (c: seq<real>)
    requires forall k :: 0 <= k < |g| ==> 0.0 <= g[k]
    ensures |c| == |g| + 1 && c[0] == 0.0
    ensures forall k :: 0 <= k < |c| ==> 0.0 <= c[k]
    ensures forall k :: 0 < k < |c| ==> c[k - 1] <= c[k]
    decreases |g|
  {
    if |g| == 0 then
      [0.0]
    else
      var p := PartialSums(g[..|g| - 1]);
      p + [p[|g| - 1] + g[|g| - 1]]
  }

  /** Cumulative chord lengths: `c[k]` is the length of the polyline from
      `d[first]` to `d[first + k]`, over the first `count` samples. */
  function ChordLengths(sqrt: real -> real, d: seq<Point>, first: nat, count: nat): (c: seq<real>)
    requires IsSqrt(sqrt)
    requires 1 <= count && first + count <= |d|
    ensures |c| == count
    ensures c[0] == 0.0
    ensures forall k :: 0 <= k < count ==> 0.0 <= c[k]
    ensures forall k :: 0 < k < count ==> c[k - 1] <= c[k]
  {
    PartialSums(Gaps(sqrt, d, first, count))
  }

  /** The total chord length of `d[first..last]`. */
  function TotalChord(sqrt: real -> real, d: seq<Point>, first: nat, last: nat): real
    requires IsSqrt(sqrt)
    requires first <= last < |d|
  {
    ChordLengths(sqrt, d, first, last - first + 1)[last - first]
  }

  /** `ChordLengthParameterize`.  The cumulative lengths are divided by the
      total; a region of two or more samples whose total is zero would
      divide by zero, and is reported instead. */
  function ChordLengthParameterize(sqrt: real -> real, d: seq<Point>, first: nat, last: nat): (r: Outcome<seq<real>>)
    requires IsSqrt(sqrt)
    requires first <= last < |d|
    ensures r.Ok? <==> first == last || TotalChord(sqrt, d, first, last) != 0.0
    ensures r.Fail? ==> r.failure == NonFinite(ChordLength)
    ensures r.Ok? ==> |r.value| == last - first + 1 && r.value[0] == 0.0
    ensures r.Ok? && first < last ==> r.value[last - first] == 1.0
    ensures r.Ok? ==> forall k :: 0 <= k <= last - first ==> 0.0 <= r.value[k] <= 1.0
    ensures r.Ok? ==> forall k :: 0 < k <= last - first ==> r.value[k - 1] <= r.value[k]
    ensures r.Ok? ==> ProportionalToLength(r.value, ChordLengths(sqrt, d, first, last - first + 1))
  {
    var c := ChordLengths(sqrt, d, first, last - first + 1);
    if first < last && c[last - first] == 0.0 then
      Fail(NonFinite(ChordLength))
    else
      Ok(Fractions(c))
  }

  /** `u[k]` is the fraction of the total length `c[|c| - 1]` covered by `c[k]`. */
  ghost predicate ProportionalToLength(u: seq<real>, c: seq<real>)
    requires |u| == |c| >= 1
  {
    forall k :: 0 <= k < |u| ==> u[k] * c[|c| - 1] == c[k]
  }

  /** Each cumulative length as a fraction of the last one.  The original
      sets the first entry to `0.0` instead of dividing; the first length
      is `0.0`, so dividing it gives the same value. */
  function Fractions(c: seq<real>): (u: seq<real>)
    requires |c| >= 1 && c[0] == 0.0
    requires forall k :: 0 < k < |c| ==> c[k - 1] <= c[k]
    requires |c| > 1 ==> c[|c| - 1] != 0.0
    ensures |u| == |c| && u[0] == 0.0
    ensures |c| > 1 ==> u[|u| - 1] == 1.0
    ensures forall k :: 0 <= k < |u| ==> 0.0 <= u[k] <= 1.0
    ensures forall k :: 0 < k < |u| ==> u[k - 1] <= u[k]
    ensures ProportionalToLength(u, c)
  {
    if |c| == 1 then
      [0.0]
    else
      var total := c[|c| - 1];
      var u := seq(|c|, k requires 0 <= k < |c| => c[k] / total);
      BetweenEnds(c);
      FractionsOrdered(c, total, u);
      FractionsProportional(c, total, u);
      u
  }

  /** A sequence that never decreases from one entry to the next never
      decreases between any two entries. */
  lemma {:induction false} StepsOrder(s: seq<real>, i: nat, j: nat)
    requires forall k :: 0 < k < |s| ==> s[k - 1] <= s[k]
    requires i <= j < |s|
    ensures s[i] <= s[j]
    decreases j - i
  {
    if i < j {
      StepsOrder(s, i, j - 1);
    }
  }

  lemma StepsOrderAll(s: seq<real>)
    requires forall k :: 0 < k < |s| ==> s[k - 1] <= s[k]
    ensures forall i, j :: 0 <= i <= j < |s| ==> s[i] <= s[j]
  {
    forall i, j | 0 <= i <= j < |s|
      ensures s[i] <= s[j]
    {
      StepsOrder(s, i, j);
    }
  }

  /** Every entry of such a sequence lies between its first and last. */
  lemma BetweenEnds(s: seq<real>)
    requires |s| >= 1
    requires forall k :: 0 < k < |s| ==> s[k - 1] <= s[k]
    ensures forall k :: 0 <= k < |s| ==> s[0] <= s[k] <= s[|s| - 1]
  {
    forall k | 0 <= k < |s|
      ensures s[0] <= s[k] <= s[|s| - 1]
    {
      StepsOrder(s, 0, k);
      StepsOrder(s, k, |s| - 1);
    }
  }

  /** The parameters of a region never decrease along it. */
  lemma ParametersOrdered(sqrt: real -> real, d: seq<Point>, first: nat, last: nat)
    requires IsSqrt(sqrt)
    requires first <= last < |d|
    requires ChordLengthParameterize(sqrt, d, first, last).Ok?
    ensures var u := ChordLengthParameterize(sqrt, d, first, last).value;
      forall i, j :: 0 <= i <= j < |u| ==> u[i] <= u[j]
  {
    StepsOrderAll(ChordLengthParameterize(sqrt, d, first, last).value);
  }

  /** Dividing a non-decreasing sequence of lengths by its last entry gives
      non-decreasing fractions in [0, 1], the last of them 1. */
  lemma FractionsOrdered(c: seq<real>, total: real, u: seq<real>)
    requires |c| > 1 && total == c[|c| - 1] && total != 0.0
    requires forall k :: 0 <= k < |c| ==> 0.0 <= c[k] <= total
    requires forall k :: 0 < k < |c| ==> c[k - 1] <= c[k]
    requires |u| == |c|
    requires forall k :: 0 <= k < |u| ==> u[k] == c[k] / total
    ensures u[|u| - 1] == 1.0
    ensures forall k :: 0 <= k < |u| ==> 0.0 <= u[k] <= 1.0
    ensures forall k :: 0 < k < |u| ==> u[k - 1] <= u[k]
  {
    forall k | 0 <= k < |u|
      ensures 0.0 <= u[k] <= 1.0
    {
      OrderedQuotients(c[k], c[k], total, u[k], u[k]);
    }
    forall k | 0 < k < |u|
      ensures u[k - 1] <= u[k]
    {
      OrderedQuotients(c[k - 1], c[k], total, u[k - 1], u[k]);
    }
    OrderedQuotients(total, total, total, u[|u| - 1], u[|u| - 1]);
  }

  /** Those fractions multiply back to the lengths. */
  lemma FractionsProportional(c: seq<real>, total: real, u: seq<real>)
    requires |c| > 1 && total == c[|c| - 1] && total != 0.0
    requires forall k :: 0 <= k < |c| ==> 0.0 <= c[k] <= total
    requires |u| == |c|
    requires forall k :: 0 <= k < |u| ==> u[k] == c[k] / total
    ensures ProportionalToLength(u, c)
  {
    forall k | 0 <= k < |u|
      ensures u[k] * total == c[k]
    {
      OrderedQuotients(c[k], c[k], total, u[k], u[k]);
    }
  }

  /** Quotients by a positive total keep the order of the lengths divided,
      lie in [0, 1] for lengths in [0, total], and multiply back. */
  lemma OrderedQuotients(a: real, b: real, total: real, qa: real, qb: real)
    requires 0.0 <= a <= b <= total && 0.0 < total
    requires qa == a / total && qb == b / total
    ensures 0.0 <= qa <= qb <= 1.0
    ensures qa * total == a
    ensures b == total ==> qb == 1.0
  {
  }

  /** The total chord of a region is zero exactly when all its samples
      coincide: the one case `ChordLengthParameterize` cannot handle. */
  lemma ZeroChordMeansOnePoint(sqrt: real -> real, d: seq<Point>, first: nat, last: nat)
    requires IsSqrt(sqrt)
    requires first <= last < |d|
    ensures TotalChord(sqrt, d, first, last) == 0.0 <==> AllSame(d, first, last)
  {
    var g := Gaps(sqrt, d, first, last - first + 1);
    ZeroSumMeansZeroGaps(g);
    RepeatsMeanAllSame(d, first, last);
    forall k | first < k <= last
      ensures g[k - first - 1] == 0.0 <==> d[k] == d[k - 1]
    {
    }
  }

  /** A running sum of non-negative gaps ends at zero exactly when every
      gap is zero. */
  lemma {:induction false} ZeroSumMeansZeroGaps(g: seq<real>)
    requires forall k :: 0 <= k < |g| ==> 0.0 <= g[k]
    ensures PartialSums(g)[|g|] == 0.0 <==> forall k :: 0 <= k < |g| ==> g[k] == 0.0
    decreases |g|
  {
    if |g| > 0 {
      var h := g[..|g| - 1];
      ZeroSumMeansZeroGaps(h);
      NonNegativeSum(PartialSums(h)[|h|], g[|g| - 1]);
      assert forall k :: 0 <= k < |h| ==> h[k] == g[k];
    }
  }

  lemma NonNegativeSum(a: real, b: real)
    requires 0.0 <= a && 0.0 <= b
    ensures a + b == 0.0 <==> a == 0.0 && b == 0.0
  {
  }

  /** All of `d[first..last]` coincide with `d[first]`. */
  ghost predicate AllSame(d: seq<Point>, first: nat, last: nat)
    requires first <= last < |d|
  {
    forall k :: first <= k <= last ==> d[k] == d[first]
  }

  /** A run of samples coincides exactly when each repeats the one before. */
  lemma {:induction false} RepeatsMeanAllSame(d: seq<Point>, first: nat, last: nat)
    requires first <= last < |d|
    ensures (forall k :: first < k <= last ==> d[k] == d[k - 1]) <==> AllSame(d, first, last)
    decreases last - first
  {
    if first < last {
      RepeatsMeanAllSame(d, first, last - 1);
      AllSameExtend(d, first, last);
    }
  }

  /** A run of equal samples extends by one exactly when the next sample
      repeats the previous one. */
  lemma AllSameExtend(d: seq<Point>, first: nat, last: nat)
    requires first < last < |d|
    ensures AllSame(d, first, last) <==> AllSame(d, first, last - 1) && d[last] == d[last - 1]
  {
  }

  /** Each running sum adds the next gap to the one before. */
  lemma {:induction false} PartialSumStep(g: seq<real>, k: nat)
    requires forall i :: 0 <= i < |g| ==> 0.0 <= g[i]
    requires k < |g|
    ensures PartialSums(g)[k + 1] == PartialSums(g)[k] + g[k]
    decreases |g|
  {
    if k < |g| - 1 {
      var h := g[..|g| - 1];
      PartialSumStep(h, k);
      assert h[k] == g[k];
    }
  }

  /** Consecutive cumulative lengths differ by the distance between the
      two samples. */
  lemma ChordIncrement(sqrt: real -> real, d: seq<Point>, first: nat, count: nat, k: nat)
    requires IsSqrt(sqrt)
    requires 1 <= count && first + count <= |d|
    requires 0 < k < count
    ensures var c := ChordLengths(sqrt, d, first, count);
      c[k] - c[k - 1] == Distance(sqrt, d[first + k], d[first + k - 1])
  {
    PartialSumStep(Gaps(sqrt, d, first, count), k - 1);
  }

  /** Samples without consecutive repeats, which the drawing front end
      guarantees by dropping a pointer position equal to the previous one,
      always parameterize. */
  lemma NoRepeatsParameterize(sqrt: real -> real, d: seq<Point>, first: nat, last: nat)
    requires IsSqrt(sqrt)
    requires first <= last < |d|
    requires forall k :: 0 < k < |d| ==> d[k] != d[k - 1]
    ensures ChordLengthParameterize(sqrt, d, first, last).Ok?
  {
    if first < last {
      ZeroChordMeansOnePoint(sqrt, d, first, last);
      assert d[first + 1] != d[first];
    }
  }
}
