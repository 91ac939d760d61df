/** `ComputeMaxError`: the largest squared distance between an interior
    sample of a region and the curve point at that sample's parameter,
    and the sample where it occurs, at which the fitter splits the region.
 */
module MaxError {
  import opened Vectors
  import opened Bezier

  /** The result and the `splitVector.ref` out-parameter. */
  datatype Worst = Worst(maxDist: real, split: nat)

  /** Squared distance from sample `i` to the curve at its parameter. */
  function Deviation(d: seq<Point>, first: nat, last: nat, c: Cubic, u: seq<real>, i: nat): (r: real)
    requires first <= i <= last < |d| && |u| == last - first + 1
    ensures 0.0 <= r
    ensures r == 0.0 <==> OnCurve(d, first, last, c, u, i)
  {
    SquaredLength(Sub(Evaluate(c.Controls(), u[i - first]), d[i]))
  }

  /** Sample `i` lies on the curve at its parameter. */
  predicate OnCurve(d: seq<Point>, first: nat, last: nat, c: Cubic, u: seq<real>, i: nat)
    requires first <= i <= last < |d| && |u| == last - first + 1
  {
    Evaluate(c.Controls(), u[i - first]) == d[i]
  }

  /** The deviations of all samples of the region, the `i`-th belonging
      to sample `first + i`. */
  function Deviations(d: seq<Point>, first: nat, last: nat, c: Cubic, u: seq<real>): (r: seq<real>)
    requires first <= last < |d| && |u| == last - first + 1
    ensures |r| == last - first + 1
    ensures forall i :: 0 <= i < |r| ==> r[i] == Deviation(d, first, last, c, u, first + i) && 0.0 <= r[i]
  {
    seq(last - first + 1, i requires 0 <= i < last - first + 1 => Deviation(d, first, last, c, u, first + i))
  }

  /** The scan over the interior samples `first + 1` up to `k - 1`, whose
      deviations are `dev[1]` up to `dev[k - first - 1]`.  The split starts
      at `(last - first + 1) / 2`, and `>=` moves it to every sample at
      least as far off as the worst so far, so it ends on the last of the
      worst samples. */
  function ScanTo(dev: seq<real>, first: nat, last: nat, k: nat): (w: Worst)
    requires first < last && |dev| == last - first + 1
    requires forall i :: 0 <= i < |dev| ==> 0.0 <= dev[i]
    requires first + 1 <= k <= last
    ensures 0.0 <= w.maxDist
    ensures forall i :: 0 < i < k - first ==> dev[i] <= w.maxDist
    ensures k == first + 1 ==> w == Worst(0.0, (last - first + 1) / 2)
    ensures first + 1 < k ==> first < w.split < k && dev[w.split - first] == w.maxDist
    ensures forall i :: 0 < i < k - first && w.split - first < i ==> dev[i] < w.maxDist
    decreases k
  {
    if k == first + 1 then
      Worst(0.0, (last - first + 1) / 2)
    else
      var w := ScanTo(dev, first, last, k - 1);
      var dist := dev[k - 1 - first];
      if dist >= w.maxDist then Worst(dist, k - 1) else w
  }

  /** `ComputeMaxError` on a region of at least two samples.  With exactly
      two there is no interior sample, and the default split `1` is kept. */
  function ComputeMaxError(d: seq<Point>, first: nat, last: nat, c: Cubic, u: seq<real>): (w: Worst)
    requires first < last < |d| && |u| == last - first + 1
    ensures 0.0 <= w.maxDist
    ensures forall j :: first < j < last ==> Deviation(d, first, last, c, u, j) <= w.maxDist
    ensures first + 1 == last ==> w == Worst(0.0, 1)
    ensures first + 1 < last ==> first < w.split < last && Deviation(d, first, last, c, u, w.split) == w.maxDist
    ensures forall j :: w.split < j < last && first < j ==> Deviation(d, first, last, c, u, j) < w.maxDist
  {
    var dev := Deviations(d, first, last, c, u);
    var w := ScanTo(dev, first, last, last);
    assert forall j :: first < j < last ==> Deviation(d, first, last, c, u, j) == dev[j - first];
    w
  }

  /** The result is determined by the deviations alone: any maximum that
      is attained at an interior sample after which every deviation is
      smaller is the one `ComputeMaxError` returns. */
  lemma MaxErrorIsLastArgmax(d: seq<Point>, first: nat, last: nat, c: Cubic, u: seq<real>, m: real, s: nat)
    requires first + 1 < last < |d| && |u| == last - first + 1
    requires first < s < last && Deviation(d, first, last, c, u, s) == m
    requires forall j :: first < j < last ==> Deviation(d, first, last, c, u, j) <= m
    requires forall j :: s < j < last ==> Deviation(d, first, last, c, u, j) < m
    ensures ComputeMaxError(d, first, last, c, u) == Worst(m, s)
  {
    var w := ComputeMaxError(d, first, last, c, u);
    assert Deviation(d, first, last, c, u, w.split) <= m;
    assert m <= w.maxDist;
  }
}
