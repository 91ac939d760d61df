/** `FitCubic` as written, with its tangents shared between calls.

  The original passes tangent vectors as objects.  A region of two samples
  rescales both of its tangents in place to a third of its chord
  (`V2Scale` inside the `V2Add` calls), and a split hands the one
  `tHatCenter` object to the left half as its right tangent, negates it in
  place, and hands it to the right half as its left tangent.  So whenever
  the last region the left half emits has two samples, the right half
  starts from a tangent whose length is a third of that region's chord
  instead of 1.  `GenerateBezier` normalizes copies of the tangents when it
  sets up the normal equations but places the inner control points with
  the tangents as given, so the length shows in the curve.

  `FitCubicAsWritten` threads the value the caller's `tHat2` object holds
  when the call returns; `Fitter.FitCubic` is the corrected fitter, which
  hands each half the unit tangent.
 */
module SharedTangents {
  import opened Vectors
  import opened Bezier
  import opened Outcomes
  import opened Tangents
  import opened Chord
  import opened LeastSquares
  import opened MaxError
  import opened Fitter

  /** The pieces a call emits, and what its `tHat2` holds afterwards. */
  datatype Handed = Handed(pieces: seq<Piece>, t2After: Point)

  /** `FitCubic` as written: a two-sample region leaves its right tangent
      rescaled to a third of its chord; a fitted region leaves it alone; a
      split region leaves it as the right half left it. */
  function FitCubicAsWritten(sqrt: real -> real, d: seq<Point>, first: nat, last: nat, t1: Point, t2: Point,
                             error: real): (r: Outcome<Handed>)
    requires IsSqrt(sqrt)
    requires first < last < |d|
    ensures r.Fail? ==> r.failure.NonFinite?
    ensures r.Ok? ==> Covers(r.value.pieces, first, last)
    ensures r.Ok? ==> forall i :: 0 <= i < |r.value.pieces| ==> Acceptable(sqrt, d, r.value.pieces[i], error)
    ensures r.Ok? ==> Along(r.value.t2After, t2)
    ensures first + 1 == last ==>
      r == Ok(Handed([Piece(TwoPointCurve(sqrt, d, first, last, t1, t2), first, last, TwoPoints)],
                     ScaleTo(sqrt, t2, Distance(sqrt, d[last], d[first]) / 3.0)))
    decreases last - first, 1
  {
    if last - first + 1 == 2 then
      var dist := Distance(sqrt, d[last], d[first]) / 3.0;
      ScaleToAlong(sqrt, t2, dist);
      Ok(Handed([Piece(TwoPointCurve(sqrt, d, first, last, t1, t2), first, last, TwoPoints)], ScaleTo(sqrt, t2, dist)))
    else
      var attempt :- FitRegion(sqrt, d, first, last, t1, t2, error);
      match attempt
      case Emit(p) =>
        assert t2 == Scale(t2, 1.0);
        Ok(Handed([p], t2))
      case Split(split) => FitHalvesAsWritten(sqrt, d, first, split, last, t1, t2, error)
  }

  /** The split as written: the right half gets the center tangent as the
      left half left it, negated. */
  function FitHalvesAsWritten(sqrt: real -> real, d: seq<Point>, first: nat, split: nat, last: nat, t1: Point,
                              t2: Point, error: real): (r: Outcome<Handed>)
    requires IsSqrt(sqrt)
    requires first < split < last < |d|
    ensures r.Fail? ==> r.failure.NonFinite?
    ensures r.Ok? ==> Covers(r.value.pieces, first, last)
    ensures r.Ok? ==> forall i :: 0 <= i < |r.value.pieces| ==> Acceptable(sqrt, d, r.value.pieces[i], error)
    ensures r.Ok? ==> Along(r.value.t2After, t2)
    decreases last - first, 0
  {
    var center := CenterTangent(sqrt, d, split);
    var left :- FitCubicAsWritten(sqrt, d, first, split, t1, center, error);
    var right :- FitCubicAsWritten(sqrt, d, split, last, Negate(left.t2After), t2, error);
    CoversJoin(left.pieces, right.pieces, first, split, last);
    AcceptableJoin(sqrt, d, error, left.pieces, right.pieces);
    Ok(Handed(left.pieces + right.pieces, right.t2After))
  }

  /** `FitCurveArray` as written. */
  function FitCurveArrayAsWritten(sqrt: real -> real, d: seq<Point>, error: real): (r: Outcome<seq<Cubic>>)
    requires IsSqrt(sqrt)
    ensures |d| < 2 ==> r == Fail(TooFewPoints)
    ensures r.Ok? ==> |d| >= 2 && |r.value| >= 1
    ensures r.Ok? ==> r.value[0].p0 == d[0] && r.value[|r.value| - 1].p3 == d[|d| - 1]
    ensures r.Ok? ==> forall i :: 0 <= i < |r.value| - 1 ==> r.value[i].p3 == r.value[i + 1].p0
  {
    if |d| < 2 then
      Fail(TooFewPoints)
    else
      var fitted :- FitCubicAsWritten(sqrt, d, 0, |d| - 1, LeftTangent(sqrt, d, 0), RightTangent(sqrt, d, |d| - 1), error);
      ChainedCurves(sqrt, d, error, fitted.pieces);
      Ok(Curves(fitted.pieces))
  }

  /** Four samples on the horizontal line at height `o` that the fitter
      splits after the first. */
  function Sample(o: real): seq<Point> {
    [Point(2.0, o), Point(0.0, o), Point(6.0, o), Point(12.0, o)]
  }

  /** The gaps of `Sample(o)` are 2, 6 and 6. */
  lemma SampleDistances(sqrt: real -> real, o: real)
    requires IsSqrt(sqrt)
    ensures var d := Sample(o);
      && Distance(sqrt, d[1], d[0]) == 2.0 && Distance(sqrt, d[2], d[1]) == 6.0
      && Distance(sqrt, d[3], d[2]) == 6.0 && Distance(sqrt, d[3], d[1]) == 12.0
      && Distance(sqrt, d[3], d[0]) == 10.0
  {
    var d := Sample(o);
    SqrtOfSquare(sqrt, 2.0);
    SqrtOfSquare(sqrt, 6.0);
    SqrtOfSquare(sqrt, 12.0);
    SqrtOfSquare(sqrt, 10.0);
    assert Sub(d[1], d[0]) == Point(-2.0, 0.0);
    assert Sub(d[2], d[1]) == Point(6.0, 0.0);
    assert Sub(d[3], d[2]) == Point(6.0, 0.0);
    assert Sub(d[3], d[1]) == Point(12.0, 0.0);
    assert Sub(d[3], d[0]) == Point(10.0, 0.0);
  }

  /** The parameters `ChordLengthParameterize` gives the whole of `Sample(o)`
      and its right half. */
  const FirstParameters: seq<real> := [0.0, 1.0 / 7.0, 4.0 / 7.0, 1.0]
  const HalfParameters: seq<real> := [0.0, 0.5, 1.0]

  lemma SampleParameters(sqrt: real -> real, o: real)
    requires IsSqrt(sqrt)
    ensures ChordLengthParameterize(sqrt, Sample(o), 0, 3) == Ok(FirstParameters)
  {
    var d := Sample(o);
    SampleDistances(sqrt, o);
    var g := Gaps(sqrt, d, 0, 4);
    assert g == [2.0, 6.0, 6.0];
    assert PartialSums(g[..1]) == [0.0, 2.0];
    assert PartialSums(g[..2]) == [0.0, 2.0, 8.0];
    assert ChordLengths(sqrt, d, 0, 4) == [0.0, 2.0, 8.0, 14.0];
    var r := ChordLengthParameterize(sqrt, d, 0, 3);
    assert r.Ok?;
    assert r.value[1] * 14.0 == 2.0 && r.value[2] * 14.0 == 8.0;
    assert r.value == FirstParameters;
  }

  lemma HalfParametersOf(sqrt: real -> real, o: real)
    requires IsSqrt(sqrt)
    ensures ChordLengthParameterize(sqrt, Sample(o), 1, 3) == Ok(HalfParameters)
  {
    var d := Sample(o);
    SampleDistances(sqrt, o);
    var g := Gaps(sqrt, d, 1, 3);
    assert g == [6.0, 6.0];
    assert PartialSums(g[..1]) == [0.0, 6.0];
    assert ChordLengths(sqrt, d, 1, 3) == [0.0, 6.0, 12.0];
    var r := ChordLengthParameterize(sqrt, d, 1, 3);
    assert r.value[1] * 12.0 == 6.0;
    assert r.value == HalfParameters;
  }

  /** The unit direction of a non-zero vector on the x-axis. */
  lemma OnAxis(r: Point, a: real)
    requires a != 0.0 && IsDirectionOf(r, Point(a, 0.0))
    ensures r == Point(if a > 0.0 then 1.0 else -1.0, 0.0)
  {
    assert Cross(r, Point(a, 0.0)) == -(r.y * a);
    ProductZero(r.y, a);
    assert r.x * r.x == 1.0;
    if a > 0.0 {
      assert r.x > 0.0 by {
        assert Dot(r, Point(a, 0.0)) == r.x * a;
      }
      SquareOneIsOne(r.x);
    } else {
      assert r.x < 0.0 by {
        assert Dot(r, Point(a, 0.0)) == r.x * a;
      }
      assert (-r.x) * (-r.x) == 1.0;
      SquareOneIsOne(-r.x);
    }
  }

  /** Both end tangents of `Sample(o)`, and the tangent at its second
      sample, point in the negative x direction. */
  lemma SampleTangents(sqrt: real -> real, o: real)
    requires IsSqrt(sqrt)
    ensures LeftTangent(sqrt, Sample(o), 0) == Point(-1.0, 0.0)
    ensures RightTangent(sqrt, Sample(o), 3) == Point(-1.0, 0.0)
    ensures CenterTangent(sqrt, Sample(o), 1) == Point(-1.0, 0.0)
  {
    var d := Sample(o);
    assert Sub(d[1], d[0]) == Point(-2.0, 0.0);
    assert Sub(d[2], d[3]) == Point(-6.0, 0.0);
    assert Sub(d[0], d[1]) == Point(2.0, 0.0) && Sub(d[1], d[2]) == Point(-6.0, 0.0);
    OnAxis(LeftTangent(sqrt, d, 0), -2.0);
    OnAxis(RightTangent(sqrt, d, 3), -6.0);
    OnAxis(CenterTangent(sqrt, d, 1), -4.0);
  }

  /** The columns `A[i]` at parameter `u` for tangents along the negative
      x-axis: unit vectors, so `V2Scale` multiplies them by the weights. */
  lemma BackwardColumns(sqrt: real -> real, u: real, b1: real, b2: real)
    requires IsSqrt(sqrt) && B1(u) == b1 && B2(u) == b2
    ensures LeftColumn(sqrt, Point(-1.0, 0.0), u) == Point(-b1, 0.0)
    ensures RightColumn(sqrt, Point(-1.0, 0.0), u) == Point(-b2, 0.0)
  {
    ScaleToUnit(sqrt, Point(-1.0, 0.0), b1);
    ScaleToUnit(sqrt, Point(-1.0, 0.0), b2);
  }

  /** One step of `Accumulate`, with the sample's columns and target given. */
  lemma AccumulateAt(sqrt: real -> real, d: seq<Point>, first: nat, last: nat, u: seq<real>, t1: Point, t2: Point,
                     n: nat, a0: Point, a1: Point, tmp: Point)
    requires IsSqrt(sqrt)
    requires first <= last < |d| && |u| == last - first + 1 && 1 <= n <= |u|
    requires LeftColumn(sqrt, t1, u[n - 1]) == a0 && RightColumn(sqrt, t2, u[n - 1]) == a1
    requires Target(d, first, last, n - 1, u[n - 1]) == tmp
    ensures Accumulate(sqrt, d, first, last, u, t1, t2, n)
         == AddSample(Accumulate(sqrt, d, first, last, u, t1, t2, n - 1), a0, a1, tmp)
  {
  }

  /** One sample's step of the sums for the whole of `Sample(o)`. */
  lemma SampleStep(sqrt: real -> real, o: real, n: nat, b1: real, b2: real, tmp: Point, before: Normal, after: Normal)
    requires IsSqrt(sqrt) && 1 <= n <= 4
    requires B1(FirstParameters[n - 1]) == b1 && B2(FirstParameters[n - 1]) == b2
    requires Target(Sample(o), 0, 3, n - 1, FirstParameters[n - 1]) == tmp
    requires Accumulate(sqrt, Sample(o), 0, 3, FirstParameters, Point(-1.0, 0.0), Point(-1.0, 0.0), n - 1) == before
    requires AddSample(before, Point(-b1, 0.0), Point(-b2, 0.0), tmp) == after
    ensures Accumulate(sqrt, Sample(o), 0, 3, FirstParameters, Point(-1.0, 0.0), Point(-1.0, 0.0), n) == after
  {
    BackwardColumns(sqrt, FirstParameters[n - 1], b1, b2);
    AccumulateAt(sqrt, Sample(o), 0, 3, FirstParameters, Point(-1.0, 0.0), Point(-1.0, 0.0), n,
                 Point(-b1, 0.0), Point(-b2, 0.0), tmp);
  }

  /** The sums over no sample, over the first two samples and over the
      first three samples of the whole of `Sample(o)`. */
  const NoSums := Normal(0.0, 0.0, 0.0, 0.0, 0.0, 0.0)
  const TwoSums := Normal(11664.0 / 117649.0, 1944.0 / 117649.0, 1944.0 / 117649.0, 324.0 / 117649.0,
                          94608.0 / 117649.0, 15768.0 / 117649.0)
  const ThreeSums := Normal(23328.0 / 117649.0, 17496.0 / 117649.0, 17496.0 / 117649.0, 21060.0 / 117649.0,
                            171072.0 / 117649.0, 117720.0 / 117649.0)

  /** The normal equations for the whole of `Sample(o)`, summed sample by
      sample: after one, two, three and all four samples. */
  lemma SampleNormal1(sqrt: real -> real, o: real)
    requires IsSqrt(sqrt)
    ensures Accumulate(sqrt, Sample(o), 0, 3, FirstParameters, Point(-1.0, 0.0), Point(-1.0, 0.0), 1) == NoSums
  {
    assert Target(Sample(o), 0, 3, 0, 0.0) == Point(0.0, 0.0);
    SampleStep(sqrt, o, 1, 0.0, 0.0, Point(0.0, 0.0), NoSums, NoSums);
  }

  lemma SampleNormal2(sqrt: real -> real, o: real)
    requires IsSqrt(sqrt)
    ensures Accumulate(sqrt, Sample(o), 0, 3, FirstParameters, Point(-1.0, 0.0), Point(-1.0, 0.0), 2) == TwoSums
  {
    SampleNormal1(sqrt, o);
    assert Target(Sample(o), 0, 3, 1, 1.0 / 7.0) == Point(-876.0 / 343.0, 0.0);
    SampleStep(sqrt, o, 2, 108.0 / 343.0, 18.0 / 343.0, Point(-876.0 / 343.0, 0.0), NoSums, TwoSums);
  }

  lemma SampleNormal3(sqrt: real -> real, o: real)
    requires IsSqrt(sqrt)
    ensures Accumulate(sqrt, Sample(o), 0, 3, FirstParameters, Point(-1.0, 0.0), Point(-1.0, 0.0), 3) == ThreeSums
  {
    SampleNormal2(sqrt, o);
    assert Target(Sample(o), 0, 3, 2, 4.0 / 7.0) == Point(-708.0 / 343.0, 0.0);
    SampleStep(sqrt, o, 3, 108.0 / 343.0, 144.0 / 343.0, Point(-708.0 / 343.0, 0.0), TwoSums, ThreeSums);
  }

  lemma SampleNormal(sqrt: real -> real, o: real)
    requires IsSqrt(sqrt)
    ensures Accumulate(sqrt, Sample(o), 0, 3, FirstParameters, Point(-1.0, 0.0), Point(-1.0, 0.0), 4) == ThreeSums
  {
    SampleNormal3(sqrt, o);
    assert Target(Sample(o), 0, 3, 3, 1.0) == Zero;
    BackwardColumns(sqrt, 1.0, 0.0, 0.0);
    AccumulateAt(sqrt, Sample(o), 0, 3, FirstParameters, Point(-1.0, 0.0), Point(-1.0, 0.0), 4, Zero, Zero, Zero);
    AddNothing(ThreeSums);
  }

  /** A sample whose columns and target are zero adds nothing to the sums. */
  lemma AddNothing(e: Normal)
    requires e.c10 == e.c01 && 0.0 <= e.c00 && 0.0 <= e.c11
    ensures AddSample(e, Zero, Zero, Zero) == e
  {
  }

  /** Cramer's rule on those sums: the right alpha comes out negative. */
  lemma SampleSolve()
    ensures Solve(ThreeSums) == Ok(Alphas(25.0 / 3.0, -4.0 / 3.0))
  {
    var e := ThreeSums;
    assert Det(e) == 3779136.0 / 282475249.0;
    assert Cramer(e) == Alphas(25.0 / 3.0, -4.0 / 3.0);
  }

  /** The Wu/Barsky curve through the whole of `Sample(o)`. */
  function FirstCurve(o: real): Cubic {
    Cubic(Point(2.0, o), Point(-4.0 / 3.0, o), Point(26.0 / 3.0, o), Point(12.0, o))
  }

  /** The least-squares fit to the whole of `Sample(o)` comes out with a
      negative right alpha, so `GenerateBezier` falls back to Wu/Barsky,
      a third of the chord (10) out along each tangent. */
  lemma SampleFirstFit(sqrt: real -> real, o: real)
    requires IsSqrt(sqrt)
    ensures GenerateBezier(sqrt, Sample(o), 0, 3, FirstParameters, Point(-1.0, 0.0), Point(-1.0, 0.0))
         == Ok(FirstCurve(o))
  {
    var t := Point(-1.0, 0.0);
    var a := Alphas(25.0 / 3.0, -4.0 / 3.0);
    SampleNormal(sqrt, o);
    SampleSolve();
    assert !Usable(a);
    assert Shape(sqrt, Sample(o), 0, 3, t, t, a) == WuBarsky(sqrt, Sample(o), 0, 3, t, t);
    SampleDistances(sqrt, o);
    assert Scale(t, 10.0 / 3.0) == Point(-10.0 / 3.0, 0.0);
  }

  /** The deviation of sample `i` is its squared distance from the point
      the Bernstein weights give. */
  lemma DeviationAt(d: seq<Point>, first: nat, last: nat, c: Cubic, u: seq<real>, i: nat, p: Point)
    requires first <= i <= last < |d| && |u| == last - first + 1
    requires var t := u[i - first]; Combine(B0(t), B1(t), B2(t), B3(t), c) == p
    ensures Deviation(d, first, last, c, u, i) == SquaredLength(Sub(p, d[i]))
  {
    CubicIsBernstein(c, u[i - first]);
  }

  lemma OnXAxis(q: Point)
    requires q.y == 0.0
    ensures SquaredLength(q) == q.x * q.x
  {
  }

  /** The squared distances from samples 1 and 2 of `Sample(o)` to
      `FirstCurve(o)`: the first is the larger, and above 1. */
  lemma FirstDeviations(o: real)
    ensures Deviation(Sample(o), 0, 3, FirstCurve(o), FirstParameters, 1) == 207936.0 / 117649.0
    ensures Deviation(Sample(o), 0, 3, FirstCurve(o), FirstParameters, 2) == 17424.0 / 117649.0
  {
    var d := Sample(o);
    var c := FirstCurve(o);
    var p1 := Point(456.0 / 343.0, o);
    assert Combine(B0(1.0 / 7.0), B1(1.0 / 7.0), B2(1.0 / 7.0), B3(1.0 / 7.0), c) == p1;
    DeviationAt(d, 0, 3, c, FirstParameters, 1, p1);
    OnXAxis(Sub(p1, d[1]));
    var p2 := Point(1926.0 / 343.0, o);
    assert Combine(B0(4.0 / 7.0), B1(4.0 / 7.0), B2(4.0 / 7.0), B3(4.0 / 7.0), c) == p2;
    DeviationAt(d, 0, 3, c, FirstParameters, 2, p2);
    OnXAxis(Sub(p2, d[2]));
  }

  /** With a tolerance of 1, the first fit is off by more than the square
      of the tolerance, worst at sample 1, so `FitCubic` splits there. */
  lemma SampleWholeSplits(sqrt: real -> real, o: real)
    requires IsSqrt(sqrt)
    ensures FitRegion(sqrt, Sample(o), 0, 3, Point(-1.0, 0.0), Point(-1.0, 0.0), 1.0) == Ok(Split(1))
  {
    SampleParameters(sqrt, o);
    SampleFirstFit(sqrt, o);
    FirstDeviations(o);
    MaxErrorIsLastArgmax(Sample(o), 0, 3, FirstCurve(o), FirstParameters, 207936.0 / 117649.0, 1);
  }

  /** `V2Scale` of a tangent `(k, 0)` with `k > 0` to length `n`. */
  lemma ForwardScale(sqrt: real -> real, k: real, n: real)
    requires IsSqrt(sqrt) && k > 0.0
    ensures ScaleTo(sqrt, Point(k, 0.0), n) == Point(n, 0.0)
  {
    SqrtOfSquare(sqrt, k);
    assert SquaredLength(Point(k, 0.0)) == k * k;
    assert Length(sqrt, Point(k, 0.0)) == k;
    assert k * (n / k) == n;
  }

  /** The sums for the right half of `Sample(o)`, samples 1 to 3, with left
      tangent `(k, 0)`: only the middle sample contributes, and the matrix
      is singular. */
  const HalfSums := Normal(9.0 / 64.0, -9.0 / 64.0, -9.0 / 64.0, 9.0 / 64.0, 0.0, 0.0)

  lemma HalfNormal(sqrt: real -> real, o: real, k: real)
    requires IsSqrt(sqrt) && k > 0.0
    ensures Accumulate(sqrt, Sample(o), 1, 3, HalfParameters, Point(k, 0.0), Point(-1.0, 0.0), 3) == HalfSums
  {
    var d := Sample(o);
    var t1 := Point(k, 0.0);
    var t2 := Point(-1.0, 0.0);
    ForwardScale(sqrt, k, 0.0);
    BackwardColumns(sqrt, 0.0, 0.0, 0.0);
    assert Target(d, 1, 3, 0, 0.0) == Zero;
    AccumulateAt(sqrt, d, 1, 3, HalfParameters, t1, t2, 1, Zero, Zero, Zero);
    AddNothing(NoSums);
    ForwardScale(sqrt, k, 3.0 / 8.0);
    BackwardColumns(sqrt, 0.5, 3.0 / 8.0, 3.0 / 8.0);
    assert Target(d, 1, 3, 1, 0.5) == Zero;
    AccumulateAt(sqrt, d, 1, 3, HalfParameters, t1, t2, 2, Point(3.0 / 8.0, 0.0), Point(-3.0 / 8.0, 0.0), Zero);
    assert AddSample(NoSums, Point(3.0 / 8.0, 0.0), Point(-3.0 / 8.0, 0.0), Zero) == HalfSums;
    BackwardColumns(sqrt, 1.0, 0.0, 0.0);
    assert Target(d, 1, 3, 2, 1.0) == Zero;
    AccumulateAt(sqrt, d, 1, 3, HalfParameters, t1, t2, 3, Zero, Zero, Zero);
    AddNothing(HalfSums);
  }

  /** The Wu/Barsky curve through the right half of `Sample(o)`: the chord
      is 12, so the inner control points are 4 out along each tangent, and
      the left one is `4 k` out when the tangent has length `k`. */
  function RightCurve(o: real, k: real): Cubic {
    Cubic(Point(0.0, o), Point(4.0 * k, o), Point(8.0, o), Point(12.0, o))
  }

  lemma HalfFit(sqrt: real -> real, o: real, k: real)
    requires IsSqrt(sqrt) && k > 0.0
    ensures GenerateBezier(sqrt, Sample(o), 1, 3, HalfParameters, Point(k, 0.0), Point(-1.0, 0.0))
         == Ok(RightCurve(o, k))
  {
    var t1 := Point(k, 0.0);
    var t2 := Point(-1.0, 0.0);
    var a := Alphas(0.0, 0.0);
    HalfSolved(sqrt, o, k);
    FitFromSums(sqrt, Sample(o), 1, 3, HalfParameters, t1, t2, a);
    assert Shape(sqrt, Sample(o), 1, 3, t1, t2, a) == WuBarsky(sqrt, Sample(o), 1, 3, t1, t2);
    SampleDistances(sqrt, o);
    assert Scale(t1, 12.0 / 3.0) == Point(4.0 * k, 0.0);
  }

  /** The alphas for the right half are both zero. */
  lemma HalfSolved(sqrt: real -> real, o: real, k: real)
    requires IsSqrt(sqrt) && k > 0.0
    ensures Solve(Accumulate(sqrt, Sample(o), 1, 3, HalfParameters, Point(k, 0.0), Point(-1.0, 0.0), 3))
         == Ok(Alphas(0.0, 0.0))
  {
    HalfNormal(sqrt, o, k);
    HalfSumsSolve();
  }

  lemma HalfSumsSolve()
    ensures Solve(HalfSums) == Ok(Alphas(0.0, 0.0))
  {
    SolveWithoutTargets(9.0 / 64.0);
  }

  /** `GenerateBezier` shapes the curve from the alphas its sums solve to. */
  lemma FitFromSums(sqrt: real -> real, d: seq<Point>, first: nat, last: nat, u: seq<real>, t1: Point, t2: Point,
                    a: Alphas)
    requires IsSqrt(sqrt)
    requires first <= last < |d| && |u| == last - first + 1
    requires Solve(Accumulate(sqrt, d, first, last, u, t1, t2, |u|)) == Ok(a)
    ensures GenerateBezier(sqrt, d, first, last, u, t1, t2) == Ok(Shape(sqrt, d, first, last, t1, t2, a))
  {
  }

  /** Singular sums of the shape the right half produces, with a non-zero
      perturbed determinant and no target terms, give zero alphas. */
  lemma SolveWithoutTargets(c: real)
    requires c != 0.0
    ensures Solve(Normal(c, -c, -c, c, 0.0, 0.0)) == Ok(Alphas(0.0, 0.0))
  {
    var e := Normal(c, -c, -c, c, 0.0, 0.0);
    assert Det(e) == 0.0;
    var perturbed := e.c00 * e.c11 * Perturbation;
    assert perturbed != 0.0;
  }

  /** How far sample 2 lies from `RightCurve(o, k)` at parameter 1/2. */
  function HalfError(k: real): real {
    (1.5 * k - 1.5) * (1.5 * k - 1.5)
  }

  /** The only interior sample of the right half is its worst. */
  lemma HalfMaxError(o: real, k: real)
    ensures ComputeMaxError(Sample(o), 1, 3, RightCurve(o, k), HalfParameters) == Worst(HalfError(k), 2)
  {
    var d := Sample(o);
    var c := RightCurve(o, k);
    var p := Point(1.5 * k + 4.5, o);
    assert Combine(B0(0.5), B1(0.5), B2(0.5), B3(0.5), c) == p;
    DeviationAt(d, 1, 3, c, HalfParameters, 2, p);
    OnXAxis(Sub(p, d[2]));
    MaxErrorIsLastArgmax(d, 1, 3, c, HalfParameters, HalfError(k), 2);
  }

  /** With a tolerance of 1, the right half is fitted by one curve whenever
      its error is below 1; the piece records the parameters and the error. */
  lemma HalfEmits(sqrt: real -> real, o: real, k: real)
    requires IsSqrt(sqrt) && k > 0.0 && HalfError(k) < 1.0
    ensures FitRegion(sqrt, Sample(o), 1, 3, Point(k, 0.0), Point(-1.0, 0.0), 1.0)
         == Ok(Emit(Piece(RightCurve(o, k), 1, 3, Fitted(HalfParameters, HalfError(k), 0, HalfError(k)))))
  {
    HalfParametersOf(sqrt, o);
    HalfFit(sqrt, o, k);
    HalfMaxError(o, k);
  }

  /** The two-sample curve through samples 0 and 1 of `Sample(o)`, with
      both tangents along the negative x-axis: a third of the chord (2)
      out along each. */
  function LeftCurve(o: real): Cubic {
    Cubic(Point(2.0, o), Point(4.0 / 3.0, o), Point(-2.0 / 3.0, o), Point(0.0, o))
  }

  lemma LeftHalf(sqrt: real -> real, o: real)
    requires IsSqrt(sqrt)
    ensures TwoPointCurve(sqrt, Sample(o), 0, 1, Point(-1.0, 0.0), Point(-1.0, 0.0)) == LeftCurve(o)
    ensures ScaleTo(sqrt, Point(-1.0, 0.0), Distance(sqrt, Sample(o)[1], Sample(o)[0]) / 3.0)
         == Point(-2.0 / 3.0, 0.0)
  {
    SampleDistances(sqrt, o);
    ScaleToUnit(sqrt, Point(-1.0, 0.0), 2.0 / 3.0);
  }

  /** How the as-written fitter puts its results together, stated for
      given results of the calls it makes. */
  lemma CubicEmitsAsWritten(sqrt: real -> real, d: seq<Point>, first: nat, last: nat, t1: Point, t2: Point,
                            error: real, p: Piece)
    requires IsSqrt(sqrt) && first + 1 < last < |d|
    requires FitRegion(sqrt, d, first, last, t1, t2, error) == Ok(Emit(p))
    ensures FitCubicAsWritten(sqrt, d, first, last, t1, t2, error) == Ok(Handed([p], t2))
  {
  }

  lemma CubicSplitsAsWritten(sqrt: real -> real, d: seq<Point>, first: nat, split: nat, last: nat, t1: Point,
                             t2: Point, error: real)
    requires IsSqrt(sqrt) && first < split < last < |d|
    requires FitRegion(sqrt, d, first, last, t1, t2, error) == Ok(Split(split))
    ensures FitCubicAsWritten(sqrt, d, first, last, t1, t2, error)
         == FitHalvesAsWritten(sqrt, d, first, split, last, t1, t2, error)
  {
  }

  /** An unfolding of `FitHalves` for given results of its two calls,
      used only by the example below; what a split promises in general is
      stated on `FitHalves` itself. */
  lemma HalvesJoin(sqrt: real -> real, d: seq<Point>, first: nat, split: nat, last: nat, t1: Point, t2: Point,
                   error: real, left: Piece, right: Piece)
    requires IsSqrt(sqrt) && first < split < last < |d|
    requires FitCubic(sqrt, d, first, split, t1, CenterTangent(sqrt, d, split), error) == Ok([left])
    requires FitCubic(sqrt, d, split, last, Negate(CenterTangent(sqrt, d, split)), t2, error) == Ok([right])
    ensures FitHalves(sqrt, d, first, split, last, t1, t2, error) == Ok([left, right])
  {
    assert [left] + [right] == [left, right];
  }

  lemma HalvesJoinAsWritten(sqrt: real -> real, d: seq<Point>, first: nat, split: nat, last: nat, t1: Point,
                            t2: Point, error: real, left: Piece, leftAfter: Point, right: Piece, rightAfter: Point)
    requires IsSqrt(sqrt) && first < split < last < |d|
    requires FitCubicAsWritten(sqrt, d, first, split, t1, CenterTangent(sqrt, d, split), error)
          == Ok(Handed([left], leftAfter))
    requires FitCubicAsWritten(sqrt, d, split, last, Negate(leftAfter), t2, error) == Ok(Handed([right], rightAfter))
    ensures FitHalvesAsWritten(sqrt, d, first, split, last, t1, t2, error)
         == Ok(Handed([left, right], rightAfter))
  {
    assert [left] + [right] == [left, right];
  }

  lemma ArrayOf(sqrt: real -> real, d: seq<Point>, error: real, ps: seq<Piece>)
    requires IsSqrt(sqrt) && |d| >= 2
    requires FitCubic(sqrt, d, 0, |d| - 1, LeftTangent(sqrt, d, 0), RightTangent(sqrt, d, |d| - 1), error) == Ok(ps)
    ensures FitCurveArray(sqrt, d, error) == Ok(Curves(ps))
  {
  }

  lemma ArrayOfAsWritten(sqrt: real -> real, d: seq<Point>, error: real, h: Handed)
    requires IsSqrt(sqrt) && |d| >= 2
    requires FitCubicAsWritten(sqrt, d, 0, |d| - 1, LeftTangent(sqrt, d, 0), RightTangent(sqrt, d, |d| - 1), error)
          == Ok(h)
    ensures FitCurveArrayAsWritten(sqrt, d, error) == Ok(Curves(h.pieces))
  {
  }

  lemma CurvesOfTwo(a: Piece, b: Piece)
    ensures Curves([a, b]) == [a.curve, b.curve]
  {
  }

  /** The pieces both fitters emit for the left half of `Sample(o)`, and
      the ones they emit for the right half when it starts from the tangent
      `(k, 0)`. */
  function LeftPiece(o: real): Piece {
    Piece(LeftCurve(o), 0, 1, TwoPoints)
  }

  function RightPiece(o: real, k: real): Piece {
    Piece(RightCurve(o, k), 1, 3, Fitted(HalfParameters, HalfError(k), 0, HalfError(k)))
  }

  /** Both fitters split the whole of `Sample(o)` after sample 1, where
      the tangent points in the negative x direction. */
  lemma SampleSplitsAfterFirst(sqrt: real -> real, o: real)
    requires IsSqrt(sqrt)
    ensures FitCubic(sqrt, Sample(o), 0, 3, Point(-1.0, 0.0), Point(-1.0, 0.0), 1.0)
         == FitHalves(sqrt, Sample(o), 0, 1, 3, Point(-1.0, 0.0), Point(-1.0, 0.0), 1.0)
    ensures FitCubicAsWritten(sqrt, Sample(o), 0, 3, Point(-1.0, 0.0), Point(-1.0, 0.0), 1.0)
         == FitHalvesAsWritten(sqrt, Sample(o), 0, 1, 3, Point(-1.0, 0.0), Point(-1.0, 0.0), 1.0)
    ensures CenterTangent(sqrt, Sample(o), 1) == Point(-1.0, 0.0)
  {
    SampleTangents(sqrt, o);
    SampleWholeSplits(sqrt, o);
    CubicSplits(sqrt, Sample(o), 0, 1, 3, Point(-1.0, 0.0), Point(-1.0, 0.0), 1.0);
    CubicSplitsAsWritten(sqrt, Sample(o), 0, 1, 3, Point(-1.0, 0.0), Point(-1.0, 0.0), 1.0);
  }

  /** Both fitters on the halves of `Sample(o)`: the left half is a
      two-sample region, and the right half with left tangent `(k, 0)` is
      fitted by one curve when its error stays below the tolerance 1. */
  lemma HalvesOfSample(sqrt: real -> real, o: real, k: real)
    requires IsSqrt(sqrt) && k > 0.0 && HalfError(k) < 1.0
    ensures FitCubic(sqrt, Sample(o), 0, 1, Point(-1.0, 0.0), Point(-1.0, 0.0), 1.0) == Ok([LeftPiece(o)])
    ensures FitCubicAsWritten(sqrt, Sample(o), 0, 1, Point(-1.0, 0.0), Point(-1.0, 0.0), 1.0)
         == Ok(Handed([LeftPiece(o)], Point(-2.0 / 3.0, 0.0)))
    ensures FitCubic(sqrt, Sample(o), 1, 3, Point(k, 0.0), Point(-1.0, 0.0), 1.0) == Ok([RightPiece(o, k)])
    ensures FitCubicAsWritten(sqrt, Sample(o), 1, 3, Point(k, 0.0), Point(-1.0, 0.0), 1.0)
         == Ok(Handed([RightPiece(o, k)], Point(-1.0, 0.0)))
  {
    LeftHalf(sqrt, o);
    HalfEmits(sqrt, o, k);
    CubicEmits(sqrt, Sample(o), 1, 3, Point(k, 0.0), Point(-1.0, 0.0), 1.0, RightPiece(o, k));
    CubicEmitsAsWritten(sqrt, Sample(o), 1, 3, Point(k, 0.0), Point(-1.0, 0.0), 1.0, RightPiece(o, k));
  }

  /** The corrected fitter on `Sample(o)` with tolerance 1: a split after
      sample 1, a two-sample curve on the left, and on the right the curve
      whose left tangent has unit length. */
  lemma CorrectedPieces(sqrt: real -> real, o: real)
    requires IsSqrt(sqrt)
    ensures FitCubic(sqrt, Sample(o), 0, 3, Point(-1.0, 0.0), Point(-1.0, 0.0), 1.0)
         == Ok([LeftPiece(o), RightPiece(o, 1.0)])
  {
    var d := Sample(o);
    var t := Point(-1.0, 0.0);
    SampleSplitsAfterFirst(sqrt, o);
    assert HalfError(1.0) < 1.0;
    HalvesOfSample(sqrt, o, 1.0);
    assert Negate(t) == Point(1.0, 0.0);
    HalvesJoin(sqrt, d, 0, 1, 3, t, t, 1.0, LeftPiece(o), RightPiece(o, 1.0));
  }

  lemma CorrectedSampleFit(sqrt: real -> real, o: real)
    requires IsSqrt(sqrt)
    ensures FitCurveArray(sqrt, Sample(o), 1.0) == Ok([LeftCurve(o), RightCurve(o, 1.0)])
  {
    SampleTangents(sqrt, o);
    CorrectedPieces(sqrt, o);
    ArrayOf(sqrt, Sample(o), 1.0, [LeftPiece(o), RightPiece(o, 1.0)]);
    CurvesOfTwo(LeftPiece(o), RightPiece(o, 1.0));
  }

  /** The fitter as written on the same input: the left half leaves the
      shared tangent at length 2/3, so the right half's inner control point
      is 8/3 out instead of 4. */
  lemma AsWrittenPieces(sqrt: real -> real, o: real)
    requires IsSqrt(sqrt)
    ensures FitCubicAsWritten(sqrt, Sample(o), 0, 3, Point(-1.0, 0.0), Point(-1.0, 0.0), 1.0)
         == Ok(Handed([LeftPiece(o), RightPiece(o, 2.0 / 3.0)], Point(-1.0, 0.0)))
  {
    var d := Sample(o);
    var t := Point(-1.0, 0.0);
    var shared := Point(-2.0 / 3.0, 0.0);
    SampleSplitsAfterFirst(sqrt, o);
    assert HalfError(2.0 / 3.0) == 0.25;
    HalvesOfSample(sqrt, o, 2.0 / 3.0);
    assert Negate(shared) == Point(2.0 / 3.0, 0.0);
    HalvesJoinAsWritten(sqrt, d, 0, 1, 3, t, t, 1.0, LeftPiece(o), shared, RightPiece(o, 2.0 / 3.0), t);
  }

  lemma AsWrittenSampleFit(sqrt: real -> real, o: real)
    requires IsSqrt(sqrt)
    ensures FitCurveArrayAsWritten(sqrt, Sample(o), 1.0) == Ok([LeftCurve(o), RightCurve(o, 2.0 / 3.0)])
  {
    SampleTangents(sqrt, o);
    AsWrittenPieces(sqrt, o);
    ArrayOfAsWritten(sqrt, Sample(o), 1.0,
                     Handed([LeftPiece(o), RightPiece(o, 2.0 / 3.0)], Point(-1.0, 0.0)));
    CurvesOfTwo(LeftPiece(o), RightPiece(o, 2.0 / 3.0));
  }

  /** Sharing the tangent changes the result: the two fitters disagree on
      `Sample(o)`, in the second curve's first inner control point. */
  lemma SharedTangentChangesTheFit(sqrt: real -> real, o: real)
    requires IsSqrt(sqrt)
    ensures FitCurveArrayAsWritten(sqrt, Sample(o), 1.0) != FitCurveArray(sqrt, Sample(o), 1.0)
  {
    CorrectedSampleFit(sqrt, o);
    AsWrittenSampleFit(sqrt, o);
    assert RightCurve(o, 2.0 / 3.0).p1 != RightCurve(o, 1.0).p1;
  }
}
