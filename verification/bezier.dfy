/** Bezier curves: the cubic segment the fitter emits, de Casteljau
    evaluation of a curve of any degree (`BezierII`), the cubic Bernstein
    weights (`B0` to `B3`) and the control points of a curve's derivative
    (as built inside `NewtonRaphsonRootFind`).
 */
module Bezier {
  import opened Vectors

  /** A cubic segment: anchors `p0` and `p3`, inner control points `p1` and `p2`. */
  datatype Cubic = Cubic(p0: Point, p1: Point, p2: Point, p3: Point) {
    function Controls(): seq<Point> {
      [p0, p1, p2, p3]
    }
  }

  /** The affine combination `(1 - t) a + t b` of two numbers. */
  function Mix(a: real, b: real, t: real): real {
    (1.0 - t) * a + t * b
  }

  /** The affine combination `(1 - t) a + t b`, coordinate by coordinate. */
  function Lerp(a: Point, b: Point, t: real): Point {
    Point(Mix(a.x, b.x, t), Mix(a.y, b.y, t))
  }

  /** One row of de Casteljau's triangle: interpolate each neighbouring pair. */
  function Reduce(v: seq<Point>, t: real): seq<Point>
    requires |v| >= 1
  {
    seq(|v| - 1, j requires 0 <= j < |v| - 1 => Lerp(v[j], v[j + 1], t))
  }

  /** `BezierII`: the point at parameter `t` of the curve with control
      points `v` (degree `|v| - 1`), by repeated interpolation. */
  function Evaluate(v: seq<Point>, t: real): Point
    requires |v| >= 1
    decreases |v|
  {
    if |v| == 1 then v[0] else Evaluate(Reduce(v, t), t)
  }

  /** `BezierII` as the original computes it: the triangle is worked out in
      place on a copy of the control points, row by row. */
  method EvaluateInPlace(v: seq<Point>, t: real) returns (q: Point)
    requires |v| >= 1
    ensures q == Evaluate(v, t)
  {
    var degree := |v| - 1;
    var work := v;
    var i := 1;
    assert work[..degree + 1] == v;
    while i <= degree
      invariant 1 <= i <= degree + 1
      invariant |work| == |v|
      invariant Evaluate(work[..degree - i + 2], t) == Evaluate(v, t)
    {
      ghost var row := work[..degree - i + 2];
      var j := 0;
      while j <= degree - i
        invariant 0 <= j <= degree - i + 1
        invariant |work| == |v|
        invariant forall k :: 0 <= k < j ==> work[k] == Lerp(row[k], row[k + 1], t)
        invariant forall k :: j <= k < degree - i + 2 ==> work[k] == row[k]
      {
        work := work[j := Lerp(work[j], work[j + 1], t)];
        j := j + 1;
      }
      assert work[..degree - i + 1] == Reduce(row, t);
      i := i + 1;
    }
    q := work[0];
  }

  /** The cubic Bernstein weights. */
  function B0(u: real): real {
    var tmp := 1.0 - u;
    tmp * tmp * tmp
  }

  function B1(u: real): real {
    var tmp := 1.0 - u;
    3.0 * u * (tmp * tmp)
  }

  function B2(u: real): real {
    var tmp := 1.0 - u;
    3.0 * u * u * tmp
  }

  function B3(u: real): real {
    u * u * u
  }

  /** The weighted sum `w0 p0 + w1 p1 + w2 p2 + w3 p3`. */
  function Combine(w0: real, w1: real, w2: real, w3: real, c: Cubic): Point {
    Point(w0 * c.p0.x + w1 * c.p1.x + w2 * c.p2.x + w3 * c.p3.x,
          w0 * c.p0.y + w1 * c.p1.y + w2 * c.p2.y + w3 * c.p3.y)
  }

  /** The four weights form a partition of unity, so a cubic's points are
      affine combinations of its control points. */
  lemma BernsteinSumIsOne(u: real)
    ensures B0(u) + B1(u) + B2(u) + B3(u) == 1.0
  {
  }

  /** A curve starts at its first control point. */
  lemma {:induction false} EvaluateAtZero(v: seq<Point>)
    requires |v| >= 1
    ensures Evaluate(v, 0.0) == v[0]
    decreases |v|
  {
    if |v| > 1 {
      var r := Reduce(v, 0.0);
      assert r[0] == v[0];
      EvaluateAtZero(r);
    }
  }

  /** A curve ends at its last control point. */
  lemma {:induction false} EvaluateAtOne(v: seq<Point>)
    requires |v| >= 1
    ensures Evaluate(v, 1.0) == v[|v| - 1]
    decreases |v|
  {
    if |v| > 1 {
      var r := Reduce(v, 1.0);
      assert r[|r| - 1] == v[|v| - 1];
      EvaluateAtOne(r);
    }
  }

  /** De Casteljau's triangle and the Bernstein form agree on a cubic. */
  lemma CubicIsBernstein(c: Cubic, t: real)
    ensures Evaluate(c.Controls(), t) == Combine(B0(t), B1(t), B2(t), B3(t), c)
  {
    var r1 := Reduce(c.Controls(), t);
    assert r1 == [Lerp(c.p0, c.p1, t), Lerp(c.p1, c.p2, t), Lerp(c.p2, c.p3, t)];
    var r2 := Reduce(r1, t);
    assert r2 == [Lerp(r1[0], r1[1], t), Lerp(r1[1], r1[2], t)];
    var r3 := Reduce(r2, t);
    assert r3 == [Lerp(r2[0], r2[1], t)];
    calc {
      Evaluate(c.Controls(), t);
      Evaluate(r1, t);
      Evaluate(r2, t);
      Evaluate(r3, t);
      r3[0];
    }
    CubicTriangle(c, t);
  }

  /** The apex of de Casteljau's triangle for a cubic. */
  lemma CubicTriangle(c: Cubic, t: real)
    ensures Lerp(Lerp(Lerp(c.p0, c.p1, t), Lerp(c.p1, c.p2, t), t),
                 Lerp(Lerp(c.p1, c.p2, t), Lerp(c.p2, c.p3, t), t), t)
         == Combine(B0(t), B1(t), B2(t), B3(t), c)
  {
    ScalarCubic(c.p0.x, c.p1.x, c.p2.x, c.p3.x, t);
    ScalarCubic(c.p0.y, c.p1.y, c.p2.y, c.p3.y, t);
  }

  /** One coordinate of `CubicIsBernstein`. */
  lemma ScalarCubic(a: real, b: real, c: real, d: real, t: real)
    ensures Mix(Mix(Mix(a, b, t), Mix(b, c, t), t), Mix(Mix(b, c, t), Mix(c, d, t), t), t)
      == B0(t) * a + B1(t) * b + B2(t) * c + B3(t) * d
  {
    var s := 1.0 - t;
    MixQuadratic(a, b, c, t);
    MixQuadratic(b, c, d, t);
    var l := s * s * a + 2.0 * s * t * b + t * t * c;
    var m := s * s * b + 2.0 * s * t * c + t * t * d;
    assert s * l == s * s * s * a + 2.0 * s * s * t * b + s * t * t * c;
    assert t * m == s * s * t * b + 2.0 * s * t * t * c + t * t * t * d;
  }

  /** Two rounds of interpolation weigh three numbers quadratically. */
  lemma MixQuadratic(a: real, b: real, c: real, t: real)
    ensures Mix(Mix(a, b, t), Mix(b, c, t), t) == (1.0 - t) * (1.0 - t) * a + 2.0 * (1.0 - t) * t * b + t * t * c
  {
    var s := 1.0 - t;
    assert s * (s * a + t * b) == s * s * a + s * t * b;
    assert t * (s * b + t * c) == s * t * b + t * t * c;
  }

  /** The control points of a curve's derivative: `n` times each difference
      of neighbouring control points, for a curve of degree `n`.  The
      original writes them out for the cubic (factor 3) and for its
      derivative (factor 2). */
  function Derivative(v: seq<Point>): (r: seq<Point>)
    requires |v| >= 2
    ensures |r| == |v| - 1
  {
    seq(|v| - 1, i requires 0 <= i < |v| - 1 => Scale(Sub(v[i + 1], v[i]), (|v| - 1) as real))
  }

  /** Derivatives of the Bernstein weights. */
  function dB0(u: real): real {
    -3.0 * (1.0 - u) * (1.0 - u)
  }

  function dB1(u: real): real {
    3.0 * (1.0 - u) * (1.0 - u) - 6.0 * u * (1.0 - u)
  }

  function dB2(u: real): real {
    6.0 * u * (1.0 - u) - 3.0 * u * u
  }

  function dB3(u: real): real {
    3.0 * u * u
  }

  /** Second derivatives of the Bernstein weights. */
  function ddB0(u: real): real {
    6.0 * (1.0 - u)
  }

  function ddB1(u: real): real {
    18.0 * u - 12.0
  }

  function ddB2(u: real): real {
    6.0 - 18.0 * u
  }

  function ddB3(u: real): real {
    6.0 * u
  }

  /** Evaluating the derivative control points gives the first derivative
      of the cubic: the weights are those of `B0'` to `B3'`. */
  lemma FirstDerivativeIsBernsteinDerivative(c: Cubic, t: real)
    ensures Evaluate(Derivative(c.Controls()), t) == Combine(dB0(t), dB1(t), dB2(t), dB3(t), c)
  {
    var d := Derivative(c.Controls());
    assert d == [Scale(Sub(c.p1, c.p0), 3.0), Scale(Sub(c.p2, c.p1), 3.0), Scale(Sub(c.p3, c.p2), 3.0)];
    var r1 := Reduce(d, t);
    assert r1 == [Lerp(d[0], d[1], t), Lerp(d[1], d[2], t)];
    var r2 := Reduce(r1, t);
    assert r2 == [Lerp(r1[0], r1[1], t)];
    calc {
      Evaluate(d, t);
      Evaluate(r1, t);
      Evaluate(r2, t);
      r2[0];
    }
    HodographPoint(c, t);
  }

  /** The last row of the triangle for the derivative, in Bernstein form. */
  lemma HodographPoint(c: Cubic, t: real)
    ensures var e0 := Scale(Sub(c.p1, c.p0), 3.0);
      var e1 := Scale(Sub(c.p2, c.p1), 3.0);
      var e2 := Scale(Sub(c.p3, c.p2), 3.0);
      Lerp(Lerp(e0, e1, t), Lerp(e1, e2, t), t) == Combine(dB0(t), dB1(t), dB2(t), dB3(t), c)
  {
    var e0 := Scale(Sub(c.p1, c.p0), 3.0);
    var e1 := Scale(Sub(c.p2, c.p1), 3.0);
    var e2 := Scale(Sub(c.p3, c.p2), 3.0);
    ScalarFirstDerivative(c.p0.x, c.p1.x, c.p2.x, c.p3.x, e0.x, e1.x, e2.x, t);
    ScalarFirstDerivative(c.p0.y, c.p1.y, c.p2.y, c.p3.y, e0.y, e1.y, e2.y, t);
    LerpComponents(e0, e1, e2, t);
    var lhs := Lerp(Lerp(e0, e1, t), Lerp(e1, e2, t), t);
    var rhs := Combine(dB0(t), dB1(t), dB2(t), dB3(t), c);
    assert lhs.x == rhs.x;
    assert lhs.y == rhs.y;
  }

  /** Two rounds of `Lerp` act on each coordinate by two rounds of `Mix`. */
  lemma LerpComponents(e0: Point, e1: Point, e2: Point, t: real)
    ensures Lerp(Lerp(e0, e1, t), Lerp(e1, e2, t), t)
      == Point(Mix(Mix(e0.x, e1.x, t), Mix(e1.x, e2.x, t), t), Mix(Mix(e0.y, e1.y, t), Mix(e1.y, e2.y, t), t))
  {
  }

  /** One coordinate of `FirstDerivativeIsBernsteinDerivative`. */
  lemma ScalarFirstDerivative(a: real, b: real, c: real, d: real, e0: real, e1: real, e2: real, t: real)
    requires e0 == (b - a) * 3.0 && e1 == (c - b) * 3.0 && e2 == (d - c) * 3.0
    ensures Mix(Mix(e0, e1, t), Mix(e1, e2, t), t) == dB0(t) * a + dB1(t) * b + dB2(t) * c + dB3(t) * d
  {
    var s := 1.0 - t;
    MixQuadratic(e0, e1, e2, t);
    assert s * s * e0 == -3.0 * s * s * a + 3.0 * s * s * b;
    assert 2.0 * s * t * e1 == 6.0 * s * t * c - 6.0 * s * t * b;
    assert t * t * e2 == 3.0 * t * t * d - 3.0 * t * t * c;
  }

  /** Taking `Derivative` twice gives the second derivative of the cubic. */
  lemma SecondDerivativeIsBernsteinSecondDerivative(c: Cubic, t: real)
    ensures Evaluate(Derivative(Derivative(c.Controls())), t) == Combine(ddB0(t), ddB1(t), ddB2(t), ddB3(t), c)
  {
    var d := Derivative(c.Controls());
    assert d == [Scale(Sub(c.p1, c.p0), 3.0), Scale(Sub(c.p2, c.p1), 3.0), Scale(Sub(c.p3, c.p2), 3.0)];
    var dd := Derivative(d);
    assert dd == [Scale(Sub(d[1], d[0]), 2.0), Scale(Sub(d[2], d[1]), 2.0)];
    var r1 := Reduce(dd, t);
    assert r1 == [Lerp(dd[0], dd[1], t)];
    calc {
      Evaluate(dd, t);
      Evaluate(r1, t);
      r1[0];
      Lerp(dd[0], dd[1], t);
    }
    ScalarSecondDerivative(c.p0.x, c.p1.x, c.p2.x, c.p3.x, t);
    ScalarSecondDerivative(c.p0.y, c.p1.y, c.p2.y, c.p3.y, t);
  }

  /** One coordinate of `SecondDerivativeIsBernsteinSecondDerivative`. */
  lemma ScalarSecondDerivative(a: real, b: real, c: real, d: real, t: real)
    ensures Mix(((c - b) * 3.0 - (b - a) * 3.0) * 2.0, ((d - c) * 3.0 - (c - b) * 3.0) * 2.0, t)
      == ddB0(t) * a + ddB1(t) * b + ddB2(t) * c + ddB3(t) * d
  {
  }
}
