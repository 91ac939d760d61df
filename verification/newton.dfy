/** `Reparameterize` and `NewtonRaphsonRootFind`: one Newton-Raphson step
    per sample towards the parameter of the curve point nearest to it.

  The step looks for a zero of `f(u) = (Q(u) - P) . Q'(u)`, half the
  derivative of the squared distance from `P` to the curve point `Q(u)`;
  its derivative is `f'(u) = |Q'(u)|^2 + (Q(u) - P) . Q''(u)`.  The
  original evaluates `Q`, `Q'` and `Q''` by de Casteljau's scheme on the
  control points and on the derivative control points it builds; the
  reference below writes them in Bernstein form.
 */
module Newton {
  import opened Vectors
  import opened Bezier
  import opened Outcomes

  /** `Q(u)` in Bernstein form. */
  function PointAt(q: Cubic, u: real): Point {
    Combine(B0(u), B1(u), B2(u), B3(u), q)
  }

  /** `Q'(u)` in Bernstein form. */
  function VelocityAt(q: Cubic, u: real): Point {
    Combine(dB0(u), dB1(u), dB2(u), dB3(u), q)
  }

  /** `Q''(u)` in Bernstein form. */
  function AccelerationAt(q: Cubic, u: real): Point {
    Combine(ddB0(u), ddB1(u), ddB2(u), ddB3(u), q)
  }

  /** `f(u)`: the residual `Q(u) - P` projected on the curve's velocity. */
  function Gradient(q: Cubic, p: Point, u: real): real {
    Dot(Sub(PointAt(q, u), p), VelocityAt(q, u))
  }

  /** `f'(u)`. */
  function Slope(q: Cubic, p: Point, u: real): real {
    SquaredLength(VelocityAt(q, u)) + Dot(Sub(PointAt(q, u), p), AccelerationAt(q, u))
  }

  /** `u2` is where the tangent line of `f` at `u` crosses zero. */
  predicate NewtonUpdate(q: Cubic, p: Point, u: real, u2: real) {
    Slope(q, p, u) != 0.0 && Gradient(q, p, u) + Slope(q, p, u) * (u2 - u) == 0.0
  }

  /** `NewtonRaphsonRootFind`.  A zero denominator has no finite quotient. */
  function NewtonRaphsonRootFind(q: Cubic, p: Point, u: real): (r: Outcome<real>)
    ensures r.Ok? <==> Slope(q, p, u) != 0.0
    ensures r.Fail? ==> r.failure == NonFinite(NewtonStep)
    ensures r.Ok? ==> NewtonUpdate(q, p, u, r.value)
    ensures r.Ok? ==> (r.value == u <==> Gradient(q, p, u) == 0.0)
  {
    var qu := Evaluate(q.Controls(), u);
    var q1 := Derivative(q.Controls());
    var q2 := Derivative(q1);
    var q1u := Evaluate(q1, u);
    var q2u := Evaluate(q2, u);
    var numerator := (qu.x - p.x) * q1u.x + (qu.y - p.y) * q1u.y;
    var denominator := q1u.x * q1u.x + q1u.y * q1u.y + (qu.x - p.x) * q2u.x + (qu.y - p.y) * q2u.y;
    StepTerms(q, p, u, qu, q1u, q2u);
    if denominator == 0.0 then
      Fail(NonFinite(NewtonStep))
    else
      var u2 := u - numerator / denominator;
      TangentRoot(numerator, denominator, u, u2);
      Ok(u2)
  }

  /** The original's numerator and denominator are `f(u)` and `f'(u)`. */
  lemma StepTerms(q: Cubic, p: Point, u: real, qu: Point, q1u: Point, q2u: Point)
    requires qu == Evaluate(q.Controls(), u)
    requires q1u == Evaluate(Derivative(q.Controls()), u)
    requires q2u == Evaluate(Derivative(Derivative(q.Controls())), u)
    ensures (qu.x - p.x) * q1u.x + (qu.y - p.y) * q1u.y == Gradient(q, p, u)
    ensures q1u.x * q1u.x + q1u.y * q1u.y + (qu.x - p.x) * q2u.x + (qu.y - p.y) * q2u.y == Slope(q, p, u)
  {
    CubicIsBernstein(q, u);
    FirstDerivativeIsBernsteinDerivative(q, u);
    SecondDerivativeIsBernsteinSecondDerivative(q, u);
    DotTerms(qu, p, q1u, q2u, PointAt(q, u), VelocityAt(q, u), AccelerationAt(q, u));
  }

  lemma DotTerms(qu: Point, p: Point, q1u: Point, q2u: Point, a: Point, v: Point, w: Point)
    requires qu == a && q1u == v && q2u == w
    ensures (qu.x - p.x) * q1u.x + (qu.y - p.y) * q1u.y == Dot(Sub(a, p), v)
    ensures q1u.x * q1u.x + q1u.y * q1u.y + (qu.x - p.x) * q2u.x + (qu.y - p.y) * q2u.y
      == SquaredLength(v) + Dot(Sub(a, p), w)
  {
  }

  /** `u - g / s` is the root of `g + s (x - u)`, and it is `u` exactly
      when `g` is zero. */
  lemma TangentRoot(g: real, s: real, u: real, u2: real)
    requires s != 0.0 && u2 == u - g / s
    ensures g + s * (u2 - u) == 0.0
    ensures u2 == u <==> g == 0.0
  {
    assert s * (u2 - u) == -(s * (g / s));
  }

  /** A sample lying on the curve at its current parameter keeps it. */
  lemma OnCurveIsFixed(q: Cubic, p: Point, u: real)
    requires p == Evaluate(q.Controls(), u)
    requires Slope(q, p, u) != 0.0
    ensures NewtonRaphsonRootFind(q, p, u) == Ok(u)
  {
    CubicIsBernstein(q, u);
    assert Sub(PointAt(q, u), p) == Zero;
  }

  /** `Reparameterize`, over the first `n` samples of the region: one
      Newton step each.  It fails as soon as one step has no finite result. */
  function Reparameterize(d: seq<Point>, first: nat, last: nat, u: seq<real>, q: Cubic, n: nat): (r: Outcome<seq<real>>)
    requires first <= last < |d| && |u| == last - first + 1 && n <= |u|
    ensures r.Ok? <==> forall i :: 0 <= i < n ==> Slope(q, d[first + i], u[i]) != 0.0
    ensures r.Fail? ==> r.failure == NonFinite(NewtonStep)
    ensures r.Ok? ==> |r.value| == n
    ensures r.Ok? ==> forall i :: 0 <= i < n ==> NewtonUpdate(q, d[first + i], u[i], r.value[i])
    ensures r.Ok? ==> forall i :: 0 <= i < n ==> (r.value[i] == u[i] <==> Gradient(q, d[first + i], u[i]) == 0.0)
    decreases n
  {
    if n == 0 then
      Ok([])
    else
      var prefix :- Reparameterize(d, first, last, u, q, n - 1);
      var step :- NewtonRaphsonRootFind(q, d[first + n - 1], u[n - 1]);
      Ok(prefix + [step])
  }
}
