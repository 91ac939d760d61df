/** `GenerateBezier`: with the end points of the region as anchors and the
    end tangents fixed, the two inner control points are placed at distances
    `alpha_l` and `alpha_r` along the tangents, where the alphas solve the
    2x2 normal equations of the least-squares problem.  When the solution is
    not usable (an alpha below `1.0e-6`), the Wu/Barsky heuristic puts both
    inner points a third of the chord out instead.
 */
module LeastSquares {
  import opened Vectors
  import opened Bezier
  import opened Outcomes

  /** The matrix `C` and the right-hand side `X` of the normal equations. */
  datatype Normal = Normal(c00: real, c01: real, c10: real, c11: real, x0: real, x1: real)

  /** `A[i][0]`: the left tangent rescaled (`V2Scale`) to length `B1(u)`. */
  function LeftColumn(sqrt: real -> real, t1: Point, u: real): Point
    requires IsSqrt(sqrt)
  {
    ScaleTo(sqrt, t1, B1(u))
  }

  /** `A[i][1]`: the right tangent rescaled to length `B2(u)`. */
  function RightColumn(sqrt: real -> real, t2: Point, u: real): Point
    requires IsSqrt(sqrt)
  {
    ScaleTo(sqrt, t2, B2(u))
  }

  /** `tmp`: sample `first + i` less the part of the curve that the anchors
      alone contribute at parameter `u`. */
  function Target(d: seq<Point>, first: nat, last: nat, i: nat, u: real): Point
    requires first + i < |d| && last < |d|
  {
    Sub(d[first + i],
        Add(Scale(d[first], B0(u)),
            Add(Scale(d[first], B1(u)),
                Add(Scale(d[last], B2(u)), Scale(d[last], B3(u))))))
  }

  /** The sums over the first `n` samples of the region.  As in the
      original, `C[1][0]` is not summed but copied from `C[0][1]`. */
  function Accumulate(sqrt: real -> real, d: seq<Point>, first: nat, last: nat, u: seq<real>,
                      t1: Point, t2: Point, n: nat): (e: Normal)
    requires IsSqrt(sqrt)
    requires first <= last < |d| && |u| == last - first + 1 && n <= |u|
    ensures e.c10 == e.c01
    ensures 0.0 <= e.c00 && 0.0 <= e.c11
    decreases n
  {
    if n == 0 then
      Normal(0.0, 0.0, 0.0, 0.0, 0.0, 0.0)
    else
      var e := Accumulate(sqrt, d, first, last, u, t1, t2, n - 1);
      var a0 := LeftColumn(sqrt, t1, u[n - 1]);
      var a1 := RightColumn(sqrt, t2, u[n - 1]);
      var tmp := Target(d, first, last, n - 1, u[n - 1]);
      AddSample(e, a0, a1, tmp)
  }

  /** One sample's contribution: `A[i]` against itself and against `tmp`. */
  function AddSample(e: Normal, a0: Point, a1: Point, tmp: Point): (r: Normal)
    requires e.c10 == e.c01 && 0.0 <= e.c00 && 0.0 <= e.c11
    ensures r.c10 == r.c01
    ensures e.c00 <= r.c00 && e.c11 <= r.c11
  {
    assert Dot(a0, a0) == SquaredLength(a0) && Dot(a1, a1) == SquaredLength(a1);
    var Normal(c00, c01, _, c11, x0, x1) := e;
    var sum01 := c01 + Dot(a0, a1);
    Normal(c00 + Dot(a0, a0), sum01, sum01, c11 + Dot(a1, a1), x0 + Dot(a0, tmp), x1 + Dot(a1, tmp))
  }

  /** `det_C0_C1`. */
  function Det(e: Normal): real {
    e.c00 * e.c11 - e.c10 * e.c01
  }

  /** No finite alphas: the determinant is zero, and so is its perturbed
      replacement `C[0][0] C[1][1] 10e-12`. */
  predicate Singular(e: Normal) {
    Det(e) == 0.0 && e.c00 * e.c11 == 0.0
  }

  /** The factor `10e-12` that replaces a zero determinant by a small one. */
  const Perturbation: real := 0.00000000001

  /** The alphas: how far out along each tangent the inner control points go. */
  datatype Alphas = Alphas(left: real, right: real)

  /** Cramer's rule, with the original's perturbation of a singular
      matrix.  The perturbed determinant is still zero when `C[0][0]` or
      `C[1][1]` is, and then the division has no finite result. */
  function Solve(e: Normal): (r: Outcome<Alphas>)
    ensures r.Fail? <==> Singular(e)
    ensures r.Fail? ==> r.failure == NonFinite(Determinant)
    ensures r.Ok? && Det(e) != 0.0 && e.c10 == e.c01 ==> Defects(e, r.value) == (0.0, 0.0)
  {
    if Det(e) != 0.0 then
      var a := Cramer(e);
      assert e.c10 == e.c01 ==> Defects(e, a) == (0.0, 0.0) by {
        if e.c10 == e.c01 {
          CramerHasNoDefects(e);
        }
      }
      Ok(a)
    else
      var perturbed := e.c00 * e.c11 * Perturbation;
      if perturbed == 0.0 then
        Fail(NonFinite(Determinant))
      else
        Ok(Alphas((e.x0 * e.c11 - e.x1 * e.c01) / perturbed, (e.c00 * e.x1 - e.c01 * e.x0) / perturbed))
  }

  /** `alpha_l = det_X_C1 / det_C0_C1` and `alpha_r = det_C0_X / det_C0_C1`. */
  function Cramer(e: Normal): Alphas
    requires Det(e) != 0.0
  {
    Alphas((e.x0 * e.c11 - e.x1 * e.c01) / Det(e), (e.c00 * e.x1 - e.c01 * e.x0) / Det(e))
  }

  /** For a symmetric matrix, Cramer's alphas solve the normal equations. */
  lemma CramerHasNoDefects(e: Normal)
    requires Det(e) != 0.0 && e.c10 == e.c01
    ensures Defects(e, Cramer(e)) == (0.0, 0.0)
  {
    var a := Cramer(e);
    CramerSolves(e.c00, e.c01, e.c10, e.c11, e.x0, e.x1, Det(e), a.left, a.right);
    assert Defects(e, a).0 == e.x0 - a.left * e.c00 - a.right * e.c01;
    assert Defects(e, a).1 == e.x1 - a.left * e.c01 - a.right * e.c11;
    assert Defects(e, a).0 == 0.0 && Defects(e, a).1 == 0.0;
  }

  /** Cramer's rule solves a symmetric 2x2 system with non-zero determinant. */
  lemma CramerSolves(c00: real, c01: real, c10: real, c11: real, x0: real, x1: real, det: real, l: real, r: real)
    requires c10 == c01 && det == c00 * c11 - c10 * c01 && det != 0.0
    requires l == (x0 * c11 - x1 * c01) / det
    requires r == (c00 * x1 - c01 * x0) / det
    ensures x0 - l * c00 - r * c01 == 0.0
    ensures x1 - l * c01 - r * c11 == 0.0
  {
    assert l * det == x0 * c11 - x1 * c01;
    assert r * det == c00 * x1 - c01 * x0;
    assert (c00 * l + c01 * r) * det == c00 * (l * det) + c01 * (r * det);
    assert (c00 * l + c01 * r) * det == x0 * det;
    CancelNonZero(c00 * l + c01 * r, x0, det);
    assert (c01 * l + c11 * r) * det == c01 * (l * det) + c11 * (r * det);
    assert (c01 * l + c11 * r) * det == x1 * det;
    CancelNonZero(c01 * l + c11 * r, x1, det);
  }

  lemma CancelNonZero(a: real, b: real, k: real)
    requires k != 0.0 && a * k == b * k
    ensures a == b
  {
    assert (a - b) * k == 0.0;
    ProductZero(a - b, k);
  }

  /** The alphas are used only when both reach `1.0e-6`; a zero alpha
      would make two control points coincide. */
  const AlphaThreshold: real := 0.000001

  predicate Usable(a: Alphas) {
    a.left >= AlphaThreshold && a.right >= AlphaThreshold
  }

  /** The curve with the inner control points `alpha` out along the tangents. */
  function Placed(d: seq<Point>, first: nat, last: nat, t1: Point, t2: Point, a: Alphas): (c: Cubic)
    requires first <= last < |d|
    ensures c.p0 == d[first] && c.p3 == d[last]
    ensures Sub(c.p1, c.p0) == Scale(t1, a.left) && Sub(c.p2, c.p3) == Scale(t2, a.right)
  {
    Cubic(d[first], Add(d[first], Scale(t1, a.left)), Add(d[last], Scale(t2, a.right)), d[last])
  }

  /** The Wu/Barsky heuristic: both inner control points a third of the
      chord out along the tangents. */
  function WuBarsky(sqrt: real -> real, d: seq<Point>, first: nat, last: nat, t1: Point, t2: Point): (c: Cubic)
    requires IsSqrt(sqrt)
    requires first <= last < |d|
    ensures c.p0 == d[first] && c.p3 == d[last]
    ensures Along(Sub(c.p1, c.p0), t1) && Along(Sub(c.p2, c.p3), t2)
    ensures SquaredLength(t1) == 1.0 ==> 9.0 * SquaredLength(Sub(c.p1, c.p0)) == SquaredLength(Sub(d[last], d[first]))
    ensures SquaredLength(t2) == 1.0 ==> 9.0 * SquaredLength(Sub(c.p2, c.p3)) == SquaredLength(Sub(d[last], d[first]))
  {
    var dist := Distance(sqrt, d[last], d[first]) / 3.0;
    var c := Placed(d, first, last, t1, t2, Alphas(dist, dist));
    ThirdOfChord(sqrt, d[last], d[first], t1);
    ThirdOfChord(sqrt, d[last], d[first], t2);
    c
  }

  /** A unit vector times a third of the distance from `b` to `a` has a
      ninth of the squared distance as its squared length. */
  lemma ThirdOfChord(sqrt: real -> real, a: Point, b: Point, t: Point)
    requires IsSqrt(sqrt)
    ensures var k := Distance(sqrt, a, b) / 3.0;
      && Along(Scale(t, k), t)
      && (SquaredLength(t) == 1.0 ==> 9.0 * SquaredLength(Scale(t, k)) == SquaredLength(Sub(a, b)))
  {
    var dist := Distance(sqrt, a, b);
    var k := dist / 3.0;
    assert 0.0 <= k;
    if SquaredLength(t) == 1.0 {
      LengthSquared(sqrt, Sub(a, b));
      assert dist * dist == SquaredLength(Sub(a, b));
      ScaledSquaredLength(t, k);
      assert 9.0 * (k * k) == dist * dist;
    }
  }

  /** Scaling by `k` scales the squared length by `k * k`. */
  lemma ScaledSquaredLength(t: Point, k: real)
    ensures SquaredLength(Scale(t, k)) == k * k * SquaredLength(t)
  {
    calc {
      SquaredLength(Scale(t, k));
      (t.x * k) * (t.x * k) + (t.y * k) * (t.y * k);
      k * k * (t.x * t.x + t.y * t.y);
    }
  }

  /** `GenerateBezier`. */
  function GenerateBezier(sqrt: real -> real, d: seq<Point>, first: nat, last: nat, u: seq<real>,
                          t1: Point, t2: Point): (r: Outcome<Cubic>)
    requires IsSqrt(sqrt)
    requires first <= last < |d| && |u| == last - first + 1
    ensures var e := Accumulate(sqrt, d, first, last, u, t1, t2, |u|);
      r.Fail? <==> Singular(e)
    ensures r.Fail? ==> r.failure == NonFinite(Determinant)
    ensures r.Ok? ==> r.value.p0 == d[first] && r.value.p3 == d[last]
    ensures r.Ok? ==> Along(Sub(r.value.p1, r.value.p0), t1) && Along(Sub(r.value.p2, r.value.p3), t2)
  {
    var e := Accumulate(sqrt, d, first, last, u, t1, t2, |u|);
    var solved := Solve(e);
    if solved.Fail? then
      Fail(solved.failure)
    else
      Ok(Shape(sqrt, d, first, last, t1, t2, solved.value))
  }

  /** The curve `GenerateBezier` returns: the least-squares curve when both
      alphas are usable, and otherwise the Wu/Barsky curve, whose inner
      control points do not coincide with the anchors. */
  lemma GenerateBezierShape(sqrt: real -> real, d: seq<Point>, first: nat, last: nat, u: seq<real>,
                            t1: Point, t2: Point)
    requires IsSqrt(sqrt)
    requires first <= last < |d| && |u| == last - first + 1
    ensures var s := Solve(Accumulate(sqrt, d, first, last, u, t1, t2, |u|));
      s.Ok? && Usable(s.value) ==>
      GenerateBezier(sqrt, d, first, last, u, t1, t2) == Ok(Placed(d, first, last, t1, t2, s.value))
    ensures var s := Solve(Accumulate(sqrt, d, first, last, u, t1, t2, |u|));
      s.Ok? && !Usable(s.value) ==>
      GenerateBezier(sqrt, d, first, last, u, t1, t2) == Ok(WuBarsky(sqrt, d, first, last, t1, t2))
    ensures var s := Solve(Accumulate(sqrt, d, first, last, u, t1, t2, |u|));
      s.Ok? && !Usable(s.value) && SquaredLength(t1) == 1.0 && SquaredLength(t2) == 1.0 && d[first] != d[last] ==>
      var c := GenerateBezier(sqrt, d, first, last, u, t1, t2).value;
      c.p1 != c.p0 && c.p2 != c.p3
  {
    var s := Solve(Accumulate(sqrt, d, first, last, u, t1, t2, |u|));
    if s.Ok? && !Usable(s.value) && SquaredLength(t1) == 1.0 && SquaredLength(t2) == 1.0 && d[first] != d[last] {
      var c := WuBarsky(sqrt, d, first, last, t1, t2);
      assert SquaredLength(Sub(d[last], d[first])) != 0.0;
      assert SquaredLength(Sub(c.p1, c.p0)) != 0.0;
      assert SquaredLength(Sub(c.p2, c.p3)) != 0.0;
    }
  }

  /** The curve for the solved alphas: placed along the tangents when the
      alphas are usable, the Wu/Barsky curve otherwise. */
  function Shape(sqrt: real -> real, d: seq<Point>, first: nat, last: nat, t1: Point, t2: Point,
                 a: Alphas): (c: Cubic)
    requires IsSqrt(sqrt)
    requires first <= last < |d|
    ensures c.p0 == d[first] && c.p3 == d[last]
    ensures Along(Sub(c.p1, c.p0), t1) && Along(Sub(c.p2, c.p3), t2)
    ensures Usable(a) ==> c == Placed(d, first, last, t1, t2, a)
    ensures !Usable(a) ==> c == WuBarsky(sqrt, d, first, last, t1, t2)
  {
    if Usable(a) then
      var c := Placed(d, first, last, t1, t2, a);
      assert Sub(c.p1, c.p0) == Scale(t1, a.left);
      assert Sub(c.p2, c.p3) == Scale(t2, a.right);
      c
    else
      WuBarsky(sqrt, d, first, last, t1, t2)
  }

  /** How far sample `first + i` lies from the curve at parameter `u`
      (the curve in Bernstein form). */
  function Residual(d: seq<Point>, first: nat, i: nat, u: real, c: Cubic): Point
    requires first + i < |d|
  {
    Sub(d[first + i], Combine(B0(u), B1(u), B2(u), B3(u), c))
  }

  /** The residuals of the first `n` samples projected on the two columns:
      up to a factor of -2, the derivatives of the summed squared residual
      with respect to `alpha_l` and `alpha_r`. */
  function Projections(sqrt: real -> real, d: seq<Point>, first: nat, last: nat, u: seq<real>,
                       t1: Point, t2: Point, c: Cubic, n: nat): (real, real)
    requires IsSqrt(sqrt)
    requires first <= last < |d| && |u| == last - first + 1 && n <= |u|
    decreases n
  {
    if n == 0 then
      (0.0, 0.0)
    else
      var s := Projections(sqrt, d, first, last, u, t1, t2, c, n - 1);
      var res := Residual(d, first, n - 1, u[n - 1], c);
      (s.0 + Dot(LeftColumn(sqrt, t1, u[n - 1]), res), s.1 + Dot(RightColumn(sqrt, t2, u[n - 1]), res))
  }

  /** A tangent as the fitter produces it: of unit length, or zero where
      the points it was taken from coincide. */
  predicate UnitOrZero(t: Point) {
    SquaredLength(t) == 1.0 || SquaredLength(t) == 0.0
  }

  /** The defects `X - C alpha` of the normal equations for given alphas. */
  function Defects(e: Normal, a: Alphas): (real, real) {
    (e.x0 - a.left * e.c00 - a.right * e.c01, e.x1 - a.left * e.c01 - a.right * e.c11)
  }

  /** For the placed curve, the projections of the residuals are the
      normal equations' defects. */
  lemma {:induction false} ProjectionsAreDefects(sqrt: real -> real, d: seq<Point>, first: nat, last: nat, u: seq<real>,
                                                 t1: Point, t2: Point, a: Alphas, n: nat)
    requires IsSqrt(sqrt)
    requires first <= last < |d| && |u| == last - first + 1 && n <= |u|
    requires UnitOrZero(t1) && UnitOrZero(t2)
    ensures Projections(sqrt, d, first, last, u, t1, t2, Placed(d, first, last, t1, t2, a), n)
      == Defects(Accumulate(sqrt, d, first, last, u, t1, t2, n), a)
    decreases n
  {
    if n > 0 {
      var c := Placed(d, first, last, t1, t2, a);
      ProjectionsAreDefects(sqrt, d, first, last, u, t1, t2, a, n - 1);
      var e := Accumulate(sqrt, d, first, last, u, t1, t2, n - 1);
      var ui := u[n - 1];
      var a0 := LeftColumn(sqrt, t1, ui);
      var a1 := RightColumn(sqrt, t2, ui);
      var tmp := Target(d, first, last, n - 1, ui);
      var res := Residual(d, first, n - 1, ui, c);
      ResidualOfPlaced(sqrt, d, first, last, n - 1, ui, t1, t2, a);
      StepDefects(e, a, a0, a1, tmp, res);
      AccumulateStep(sqrt, d, first, last, u, t1, t2, n);
      ProjectionsStep(sqrt, d, first, last, u, t1, t2, c, n);
      SumsAgree(Projections(sqrt, d, first, last, u, t1, t2, c, n - 1),
                Projections(sqrt, d, first, last, u, t1, t2, c, n),
                Defects(e, a), Defects(Accumulate(sqrt, d, first, last, u, t1, t2, n), a),
                Dot(a0, res), Dot(a1, res));
    }
  }

  /** The sums over `n` samples add the last sample to those over `n - 1`. */
  lemma AccumulateStep(sqrt: real -> real, d: seq<Point>, first: nat, last: nat, u: seq<real>,
                       t1: Point, t2: Point, n: nat)
    requires IsSqrt(sqrt)
    requires first <= last < |d| && |u| == last - first + 1 && 0 < n <= |u|
    ensures Accumulate(sqrt, d, first, last, u, t1, t2, n)
      == AddSample(Accumulate(sqrt, d, first, last, u, t1, t2, n - 1),
                   LeftColumn(sqrt, t1, u[n - 1]), RightColumn(sqrt, t2, u[n - 1]),
                   Target(d, first, last, n - 1, u[n - 1]))
  {
  }

  /** The projections over `n` samples add the last sample's to those over `n - 1`. */
  lemma ProjectionsStep(sqrt: real -> real, d: seq<Point>, first: nat, last: nat, u: seq<real>,
                        t1: Point, t2: Point, c: Cubic, n: nat)
    requires IsSqrt(sqrt)
    requires first <= last < |d| && |u| == last - first + 1 && 0 < n <= |u|
    ensures var p := Projections(sqrt, d, first, last, u, t1, t2, c, n - 1);
      var res := Residual(d, first, n - 1, u[n - 1], c);
      Projections(sqrt, d, first, last, u, t1, t2, c, n)
        == (p.0 + Dot(LeftColumn(sqrt, t1, u[n - 1]), res), p.1 + Dot(RightColumn(sqrt, t2, u[n - 1]), res))
  {
  }

  /** Equal sums stay equal when the same terms are added to both. */
  lemma SumsAgree(p: (real, real), p2: (real, real), f: (real, real), f2: (real, real), y0: real, y1: real)
    requires p == f
    requires p2 == (p.0 + y0, p.1 + y1)
    requires f2 == (f.0 + y0, f.1 + y1)
    ensures p2 == f2
  {
  }

  /** Adding one sample to the sums adds its residual's projections to
      the defects. */
  lemma StepDefects(e: Normal, a: Alphas, a0: Point, a1: Point, tmp: Point, res: Point)
    requires e.c10 == e.c01 && 0.0 <= e.c00 && 0.0 <= e.c11
    requires res == Sub(Sub(tmp, Scale(a0, a.left)), Scale(a1, a.right))
    ensures Defects(AddSample(e, a0, a1, tmp), a) == (Defects(e, a).0 + Dot(a0, res), Defects(e, a).1 + Dot(a1, res))
  {
    ProjectedDefects(a0, a1, tmp, res, a.left, a.right);
    DefectsAdd(e, a, Dot(a0, a0), Dot(a0, a1), Dot(a1, a1), Dot(a0, tmp), Dot(a1, tmp));
    var e2 := AddSample(e, a0, a1, tmp);
    assert e2 == Normal(e.c00 + Dot(a0, a0), e.c01 + Dot(a0, a1), e.c01 + Dot(a0, a1), e.c11 + Dot(a1, a1),
                        e.x0 + Dot(a0, tmp), e.x1 + Dot(a1, tmp));
    var f := Defects(e2, a);
    assert f.0 == Defects(e, a).0 + Dot(a0, res);
    assert f.1 == Defects(e, a).1 + Dot(a1, res);
  }

  /** Adding one sample's terms to the sums adds that sample's defects. */
  lemma DefectsAdd(e: Normal, a: Alphas, g00: real, g01: real, g11: real, y0: real, y1: real)
    ensures var f := Defects(Normal(e.c00 + g00, e.c01 + g01, e.c01 + g01, e.c11 + g11, e.x0 + y0, e.x1 + y1), a);
      && f.0 == Defects(e, a).0 + (y0 - a.left * g00 - a.right * g01)
      && f.1 == Defects(e, a).1 + (y1 - a.left * g01 - a.right * g11)
  {
    var e2 := Normal(e.c00 + g00, e.c01 + g01, e.c01 + g01, e.c11 + g11, e.x0 + y0, e.x1 + y1);
    ScaleSum(a.left, e2.c00, e.c00, g00);
    ScaleSum(a.right, e2.c01, e.c01, g01);
    ScaleSum(a.left, e2.c01, e.c01, g01);
    ScaleSum(a.right, e2.c11, e.c11, g11);
    assert Defects(e2, a).0 == e2.x0 - a.left * e2.c00 - a.right * e2.c01;
    assert Defects(e2, a).1 == e2.x1 - a.left * e2.c01 - a.right * e2.c11;
    assert Defects(e, a).0 == e.x0 - a.left * e.c00 - a.right * e.c01;
    assert Defects(e, a).1 == e.x1 - a.left * e.c01 - a.right * e.c11;
    assert Defects(e2, a).0 == Defects(e, a).0 + (y0 - a.left * g00 - a.right * g01);
    assert Defects(e2, a).1 == Defects(e, a).1 + (y1 - a.left * g01 - a.right * g11);
  }

  lemma ScaleSum(k: real, x: real, y: real, z: real)
    requires x == y + z
    ensures k * x == k * y + k * z
  {
  }

  /** The residual of the placed curve at one sample is the target less the
      alphas times the columns. */
  lemma ResidualOfPlaced(sqrt: real -> real, d: seq<Point>, first: nat, last: nat, i: nat, u: real,
                         t1: Point, t2: Point, a: Alphas)
    requires IsSqrt(sqrt)
    requires first <= last < |d| && first + i < |d|
    requires UnitOrZero(t1) && UnitOrZero(t2)
    ensures var a0 := LeftColumn(sqrt, t1, u);
      var a1 := RightColumn(sqrt, t2, u);
      var tmp := Target(d, first, last, i, u);
      Residual(d, first, i, u, Placed(d, first, last, t1, t2, a))
        == Sub(Sub(tmp, Scale(a0, a.left)), Scale(a1, a.right))
  {
    var w0, w1, w2, w3 := B0(u), B1(u), B2(u), B3(u);
    ScaleToUnit(sqrt, t1, w1);
    ScaleToUnit(sqrt, t2, w2);
    assert LeftColumn(sqrt, t1, u) == Scale(t1, w1);
    assert RightColumn(sqrt, t2, u) == Scale(t2, w2);
    var p, q, s := d[first + i], d[first], d[last];
    assert Placed(d, first, last, t1, t2, a) == Cubic(q, Add(q, Scale(t1, a.left)), Add(s, Scale(t2, a.right)), s);
    assert Target(d, first, last, i, u) == Sub(p, Add(Scale(q, w0), Add(Scale(q, w1), Add(Scale(s, w2), Scale(s, w3)))));
    assert Residual(d, first, i, u, Placed(d, first, last, t1, t2, a))
      == Sub(p, Combine(w0, w1, w2, w3, Cubic(q, Add(q, Scale(t1, a.left)), Add(s, Scale(t2, a.right)), s)));
    PlacedResidual(p, q, s, t1, t2, w0, w1, w2, w3, a.left, a.right);
  }

  /** `ResidualOfPlaced` for any four weights. */
  lemma PlacedResidual(p: Point, q: Point, s: Point, t1: Point, t2: Point,
                       w0: real, w1: real, w2: real, w3: real, l: real, r: real)
    ensures var tmp := Sub(p, Add(Scale(q, w0), Add(Scale(q, w1), Add(Scale(s, w2), Scale(s, w3)))));
      var a0 := Scale(t1, w1);
      var a1 := Scale(t2, w2);
      Sub(p, Combine(w0, w1, w2, w3, Cubic(q, Add(q, Scale(t1, l)), Add(s, Scale(t2, r)), s)))
        == Sub(Sub(tmp, Scale(a0, l)), Scale(a1, r))
  {
    var c := Combine(w0, w1, w2, w3, Cubic(q, Add(q, Scale(t1, l)), Add(s, Scale(t2, r)), s));
    var tmp := Sub(p, Add(Scale(q, w0), Add(Scale(q, w1), Add(Scale(s, w2), Scale(s, w3)))));
    var a0 := Scale(t1, w1);
    var a1 := Scale(t2, w2);
    ScalarResidual(p.x, q.x, s.x, t1.x, t2.x, w0, w1, w2, w3, l, r, c.x, tmp.x);
    ScalarResidual(p.y, q.y, s.y, t1.y, t2.y, w0, w1, w2, w3, l, r, c.y, tmp.y);
    var lhs := Sub(p, c);
    var rhs := Sub(Sub(tmp, Scale(a0, l)), Scale(a1, r));
    assert lhs.x == rhs.x && lhs.y == rhs.y;
  }

  /** One coordinate of `PlacedResidual`: `cx` is the curve point and `tx`
      the target. */
  lemma ScalarResidual(p: real, q: real, s: real, t1: real, t2: real,
                       b0: real, b1: real, b2: real, b3: real, l: real, r: real, cx: real, tx: real)
    requires cx == b0 * q + b1 * (q + t1 * l) + b2 * (s + t2 * r) + b3 * s
    requires tx == p - (q * b0 + (q * b1 + (s * b2 + s * b3)))
    ensures p - cx == tx - (t1 * b1) * l - (t2 * b2) * r
  {
    assert b1 * (q + t1 * l) == q * b1 + (t1 * b1) * l;
    assert b2 * (s + t2 * r) == s * b2 + (t2 * b2) * r;
  }

  /** Projecting `tmp - l a0 - r a1` on the two columns. */
  lemma ProjectedDefects(a0: Point, a1: Point, tmp: Point, res: Point, l: real, r: real)
    requires res == Sub(Sub(tmp, Scale(a0, l)), Scale(a1, r))
    ensures Dot(a0, res) == Dot(a0, tmp) - l * Dot(a0, a0) - r * Dot(a0, a1)
    ensures Dot(a1, res) == Dot(a1, tmp) - l * Dot(a0, a1) - r * Dot(a1, a1)
  {
    assert res == Point(tmp.x - a0.x * l - a1.x * r, tmp.y - a0.y * l - a1.y * r);
    ScalarProjection(a0.x, a0.y, a1.x, a1.y, tmp.x, tmp.y, l, r);
    ScalarProjection(a1.x, a1.y, a0.x, a0.y, tmp.x, tmp.y, r, l);
  }

  lemma ScalarProjection(u0: real, u1: real, v0: real, v1: real, w0: real, w1: real, l: real, r: real)
    ensures u0 * (w0 - u0 * l - v0 * r) + u1 * (w1 - u1 * l - v1 * r)
      == (u0 * w0 + u1 * w1) - l * (u0 * u0 + u1 * u1) - r * (u0 * v0 + u1 * v1)
    ensures u0 * (w0 - v0 * r - u0 * l) + u1 * (w1 - v1 * r - u1 * l)
      == (u0 * w0 + u1 * w1) - l * (u0 * u0 + u1 * u1) - r * (u0 * v0 + u1 * v1)
  {
  }

  /** The quadratic form of `C` at `(p, -q)`: `p² C00 - 2pq C01 + q² C11`. */
  function Form(e: Normal, p: real, q: real): real {
    p * p * e.c00 - 2.0 * p * q * e.c01 + q * q * e.c11
  }

  /** The sums are a Gram matrix at `(p, -q)`: the form is never negative,
      and where it vanishes so does `p X[0] - q X[1]`. */
  predicate Gram(e: Normal, p: real, q: real) {
    && 0.0 <= Form(e, p, q)
    && (Form(e, p, q) == 0.0 ==> p * e.x0 - q * e.x1 == 0.0)
  }

  /** The form is a sum of squares `|p A[i][0] - q A[i][1]|²`, so the sums
      over any number of samples are a Gram matrix at every `(p, -q)`. */
  lemma {:induction false} FormOfAccumulate(sqrt: real -> real, d: seq<Point>, first: nat, last: nat, u: seq<real>,
                                            t1: Point, t2: Point, n: nat, p: real, q: real)
    requires IsSqrt(sqrt)
    requires first <= last < |d| && |u| == last - first + 1 && n <= |u|
    ensures Gram(Accumulate(sqrt, d, first, last, u, t1, t2, n), p, q)
    decreases n
  {
    if n > 0 {
      var e1 := Accumulate(sqrt, d, first, last, u, t1, t2, n - 1);
      FormOfAccumulate(sqrt, d, first, last, u, t1, t2, n - 1, p, q);
      AccumulateStep(sqrt, d, first, last, u, t1, t2, n);
      FormStep(e1, LeftColumn(sqrt, t1, u[n - 1]), RightColumn(sqrt, t2, u[n - 1]),
               Target(d, first, last, n - 1, u[n - 1]), p, q);
    }
  }

  /** One sample adds `|p a0 - q a1|²` to the form and `(p a0 - q a1) . tmp`
      to `p X[0] - q X[1]`, so it keeps the sums a Gram matrix. */
  lemma FormStep(e: Normal, a0: Point, a1: Point, tmp: Point, p: real, q: real)
    requires e.c10 == e.c01 && 0.0 <= e.c00 && 0.0 <= e.c11
    requires Gram(e, p, q)
    ensures Gram(AddSample(e, a0, a1, tmp), p, q)
  {
    var e2 := AddSample(e, a0, a1, tmp);
    var w := Sub(Scale(a0, p), Scale(a1, q));
    DifferenceDots(a0, a1, tmp, p, q);
    FormAdd(e, e2, Dot(a0, a0), Dot(a0, a1), Dot(a1, a1), Dot(a0, tmp), Dot(a1, tmp), SquaredLength(w),
            Dot(w, tmp), p, q);
    NullVector(w, tmp);
  }

  /** A squared length is never negative, and a vector of length zero is
      orthogonal to everything. */
  lemma NullVector(w: Point, tmp: Point)
    ensures 0.0 <= SquaredLength(w)
    ensures SquaredLength(w) == 0.0 ==> Dot(w, tmp) == 0.0
  {
    if SquaredLength(w) == 0.0 {
      assert w.x * w.x == 0.0 && w.y * w.y == 0.0;
    }
  }

  /** The squared length of `w = p a0 - q a1`, and its projection on `tmp`. */
  lemma DifferenceDots(a0: Point, a1: Point, tmp: Point, p: real, q: real)
    ensures var w := Sub(Scale(a0, p), Scale(a1, q));
      SquaredLength(w) == p * p * Dot(a0, a0) - 2.0 * p * q * Dot(a0, a1) + q * q * Dot(a1, a1)
    ensures Dot(Sub(Scale(a0, p), Scale(a1, q)), tmp) == p * Dot(a0, tmp) - q * Dot(a1, tmp)
  {
    var Point(ax, ay) := a0;
    var Point(cx, cy) := a1;
    var wx, wy := ax * p - cx * q, ay * p - cy * q;
    assert Sub(Scale(a0, p), Scale(a1, q)) == Point(wx, wy);
    assert wx * wx == p * p * (ax * ax) - 2.0 * p * q * (ax * cx) + q * q * (cx * cx);
    assert wy * wy == p * p * (ay * ay) - 2.0 * p * q * (ay * cy) + q * q * (cy * cy);
  }

  /** Adding a sample's terms to the sums adds them to the form. */
  lemma FormAdd(e: Normal, e2: Normal, g00: real, g01: real, g11: real, y0: real, y1: real, sq: real, proj: real,
                p: real, q: real)
    requires e2 == Normal(e.c00 + g00, e.c01 + g01, e.c01 + g01, e.c11 + g11, e.x0 + y0, e.x1 + y1)
    requires sq == p * p * g00 - 2.0 * p * q * g01 + q * q * g11
    requires proj == p * y0 - q * y1
    ensures Form(e2, p, q) == Form(e, p, q) + sq
    ensures p * e2.x0 - q * e2.x1 == (p * e.x0 - q * e.x1) + proj
  {
    assert p * p * (e.c00 + g00) == p * p * e.c00 + p * p * g00;
    assert 2.0 * p * q * (e.c01 + g01) == 2.0 * p * q * e.c01 + 2.0 * p * q * g01;
    assert q * q * (e.c11 + g11) == q * q * e.c11 + q * q * g11;
  }

  /** The form at `(C11, C01)` and at `(C01, C00)` is the determinant
      times `C11` and times `C00`. */
  lemma FormIsDet(e: Normal)
    requires e.c10 == e.c01
    ensures Form(e, e.c11, e.c01) == e.c11 * Det(e)
    ensures Form(e, e.c01, e.c00) == e.c00 * Det(e)
  {
  }

  /** The perturbation of a zero determinant yields zero alphas: over the
      reals, a zero determinant of the Gram matrix makes both numerators
      `det_X_C1` and `det_C0_X` vanish as well.  So a region whose matrix
      is singular, but not so singular that the perturbation fails, always
      gets the Wu/Barsky curve. */
  lemma PerturbedAlphasAreZero(sqrt: real -> real, d: seq<Point>, first: nat, last: nat, u: seq<real>,
                               t1: Point, t2: Point)
    requires IsSqrt(sqrt)
    requires first <= last < |d| && |u| == last - first + 1
    ensures var e := Accumulate(sqrt, d, first, last, u, t1, t2, |u|);
      Det(e) == 0.0 && !Singular(e) ==> Solve(e) == Ok(Alphas(0.0, 0.0))
    ensures var e := Accumulate(sqrt, d, first, last, u, t1, t2, |u|);
      Det(e) == 0.0 && !Singular(e) ==>
      GenerateBezier(sqrt, d, first, last, u, t1, t2) == Ok(WuBarsky(sqrt, d, first, last, t1, t2))
  {
    var e := Accumulate(sqrt, d, first, last, u, t1, t2, |u|);
    FormOfAccumulate(sqrt, d, first, last, u, t1, t2, |u|, e.c11, e.c01);
    FormOfAccumulate(sqrt, d, first, last, u, t1, t2, |u|, e.c01, e.c00);
    GramPerturbation(e);
    GenerateBezierShape(sqrt, d, first, last, u, t1, t2);
  }

  /** For a Gram matrix, a zero determinant makes both numerators zero, so
      the perturbed determinant, where it is not zero, divides zero. */
  lemma GramPerturbation(e: Normal)
    requires e.c10 == e.c01
    requires Gram(e, e.c11, e.c01) && Gram(e, e.c01, e.c00)
    ensures Det(e) == 0.0 && !Singular(e) ==> Solve(e) == Ok(Alphas(0.0, 0.0))
  {
    if Det(e) == 0.0 && !Singular(e) {
      FormIsDet(e);
      var left, right := e.x0 * e.c11 - e.x1 * e.c01, e.c00 * e.x1 - e.c01 * e.x0;
      assert e.c11 * e.x0 - e.c01 * e.x1 == 0.0;
      assert e.c01 * e.x0 - e.c00 * e.x1 == 0.0;
      assert left == 0.0 && right == 0.0;
      var perturbed := e.c00 * e.c11 * Perturbation;
      assert perturbed != 0.0;
      assert Solve(e).value == Alphas(left / perturbed, right / perturbed);
      assert left / perturbed == 0.0 && right / perturbed == 0.0;
    }
  }

  /** The least-squares property: when the normal equations are regular
      and their solution is used, the residuals of the fitted curve are
      orthogonal to both columns, so the summed squared distance of the
      samples from the curve is stationary in both alphas. */
  lemma GenerateBezierIsLeastSquares(sqrt: real -> real, d: seq<Point>, first: nat, last: nat, u: seq<real>,
                                     t1: Point, t2: Point)
    requires IsSqrt(sqrt)
    requires first <= last < |d| && |u| == last - first + 1
    requires UnitOrZero(t1) && UnitOrZero(t2)
    requires var e := Accumulate(sqrt, d, first, last, u, t1, t2, |u|);
      Det(e) != 0.0 && Usable(Solve(e).value)
    ensures var r := GenerateBezier(sqrt, d, first, last, u, t1, t2);
      r.Ok? && Projections(sqrt, d, first, last, u, t1, t2, r.value, |u|) == (0.0, 0.0)
  {
    var e := Accumulate(sqrt, d, first, last, u, t1, t2, |u|);
    CramerHasNoDefects(e);
    ProjectionsAreDefects(sqrt, d, first, last, u, t1, t2, Cramer(e), |u|);
  }
}
