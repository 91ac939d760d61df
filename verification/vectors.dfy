/** Two-dimensional points and vectors, and the `V2*` helpers that act on them.

  The original mutates some of its arguments in place (`V2Negate`,
  `V2Normalize`, `V2Scale`, `V2Add`); here every helper returns a new value.
  `Math.sqrt` has no counterpart in Dafny, so it is a parameter `sqrt`
  wherever a length is taken, constrained by `IsSqrt` to be the exact
  real square root.
 */
module Vectors {

  /** A position or a displacement: the original uses one type for both. */
  datatype Point = Point(x: real, y: real)

  const Zero := Point(0.0, 0.0)

  /** `sqrt` is the non-negative square root on the non-negative reals. */
  ghost predicate IsSqrt(sqrt: real -> real) {
    forall v :: 0.0 <= v ==> 0.0 <= sqrt(v) && sqrt(v) * sqrt(v) == v
  }

  function Dot(a: Point, b: Point): real {
    var Point(ax, ay) := a;
    ax * b.x + ay * b.y
  }

  /** Zero exactly when the two vectors are parallel. */
  function Cross(a: Point, b: Point): real {
    var Point(ax, ay) := a;
    ax * b.y - ay * b.x
  }

  /** `V2AddII` (and `V2Add`, which writes the same sum into its third argument). */
  function Add(a: Point, b: Point): Point {
    var Point(ax, ay) := a;
    Point(ax + b.x, ay + b.y)
  }

  /** `V2SubII`. */
  function Sub(a: Point, b: Point): (r: Point)
    ensures r == Zero <==> a == b
  {
    var Point(ax, ay) := a;
    Point(ax - b.x, ay - b.y)
  }

  /** Subtraction undoes addition, in both orders. */
  lemma SubAdd(p: Point, h: Point)
    ensures Sub(Add(p, h), p) == h
    ensures Add(Sub(p, h), h) == p
  {
  }

  /** `V2ScaleIII`: multiply both coordinates by `s`. */
  function Scale(v: Point, s: real): Point {
    var Point(vx, vy) := v;
    Point(vx * s, vy * s)
  }

  /** `V2Negate`. */
  function Negate(v: Point): (r: Point)
    ensures r == Zero <==> v == Zero
  {
    var Point(vx, vy) := v;
    Point(-vx, -vy)
  }

  /** A vector plus its negation is zero, and negating twice is the identity. */
  lemma NegateCancels(v: Point)
    ensures Add(v, Negate(v)) == Zero
    ensures Negate(Negate(v)) == v
  {
  }

  /** `V2SquaredLength`. */
  function SquaredLength(a: Point): (r: real)
    ensures 0.0 <= r
    ensures r == 0.0 <==> a == Zero
  {
    var Point(ax, ay) := a;
    SquaresVanish(ax, ay);
    ax * ax + ay * ay
  }

  lemma SquaresVanish(x: real, y: real)
    ensures 0.0 <= x * x + y * y
    ensures x * x + y * y == 0.0 <==> x == 0.0 && y == 0.0
  {
    SquareSign(x);
    SquareSign(y);
    if x * x + y * y == 0.0 {
      ProductZero(x, x);
      ProductZero(y, y);
    }
  }

  lemma SquareSign(x: real)
    ensures 0.0 <= x * x
  {
    if x < 0.0 {
      assert x * x == (-x) * (-x);
    }
  }

  lemma ProductZero(x: real, y: real)
    requires x * y == 0.0
    ensures x == 0.0 || y == 0.0
  {
  }

  /** What `IsSqrt` promises about one argument. */
  lemma SqrtAt(sqrt: real -> real, v: real)
    requires IsSqrt(sqrt) && 0.0 <= v
    ensures 0.0 <= sqrt(v) && sqrt(v) * sqrt(v) == v
    ensures sqrt(v) == 0.0 <==> v == 0.0
  {
    if v == 0.0 {
      ProductZero(sqrt(v), sqrt(v));
    }
  }

  /** `V2Length`. */
  function Length(sqrt: real -> real, a: Point): (r: real)
    requires IsSqrt(sqrt)
    ensures 0.0 <= r
    ensures r == 0.0 <==> a == Zero
  {
    var s := SquaredLength(a);
    SqrtAt(sqrt, s);
    sqrt(s)
  }

  /** The length squares back to the squared length. */
  lemma LengthSquared(sqrt: real -> real, a: Point)
    requires IsSqrt(sqrt)
    ensures Length(sqrt, a) * Length(sqrt, a) == SquaredLength(a)
  {
    SqrtAt(sqrt, SquaredLength(a));
  }

  /** `V2DistanceBetween2Points`. */
  function Distance(sqrt: real -> real, a: Point, b: Point): (r: real)
    requires IsSqrt(sqrt)
    ensures 0.0 <= r
    ensures r == Length(sqrt, Sub(a, b))
    ensures r == 0.0 <==> a == b
  {
    var Point(ax, ay) := a;
    var dx := ax - b.x;
    var dy := ay - b.y;
    var s := dx * dx + dy * dy;
    assert s == SquaredLength(Sub(a, b));
    SqrtAt(sqrt, s);
    sqrt(s)
  }

  /** `u` is the unit vector along `v`, or zero when `v` is zero. */
  ghost predicate IsDirectionOf(u: Point, v: Point) {
    && (v == Zero ==> u == Zero)
    && (v != Zero ==> SquaredLength(u) == 1.0 && Cross(u, v) == 0.0 && Dot(u, v) > 0.0)
  }

  /** `V2Normalize`: divide by the length unless the length is exactly zero. */
  function Normalize(sqrt: real -> real, v: Point): (r: Point)
    requires IsSqrt(sqrt)
    ensures IsDirectionOf(r, v)
  {
    var len := Length(sqrt, v);
    if len != 0.0 then
      LengthSquared(sqrt, v);
      RescaledLength(v, len, 1.0);
      assert Point(v.x / len, v.y / len) == Scale(v, 1.0 / len);
      Point(v.x / len, v.y / len)
    else
      v
  }

  /** `V2Scale`: rescale `v` to length `newlen` (a negative `newlen` also
      reverses it); the zero vector is left alone. */
  function ScaleTo(sqrt: real -> real, v: Point, newlen: real): (r: Point)
    requires IsSqrt(sqrt)
    ensures v == Zero ==> r == Zero
    ensures v != Zero ==> SquaredLength(r) == newlen * newlen
    ensures v != Zero ==> Cross(r, v) == 0.0 && Dot(r, v) == newlen * Length(sqrt, v)
  {
    var len := Length(sqrt, v);
    if len != 0.0 then
      LengthSquared(sqrt, v);
      RescaledLength(v, len, newlen);
      Scale(v, newlen / len)
    else
      v
  }

  /** Multiplying `v` by `n / |v|` gives a vector of length `|n|` along `v`. */
  lemma RescaledLength(v: Point, len: real, n: real)
    requires len != 0.0 && len * len == SquaredLength(v)
    ensures SquaredLength(Scale(v, n / len)) == n * n
    ensures Dot(Scale(v, n / len), v) == n * len
  {
    var k := n / len;
    assert k * len == n;
    calc {
      SquaredLength(Scale(v, k));
      (v.x * k) * (v.x * k) + (v.y * k) * (v.y * k);
      (v.x * v.x + v.y * v.y) * (k * k);
      (len * len) * (k * k);
      (k * len) * (k * len);
    }
    calc {
      Dot(Scale(v, k), v);
      (v.x * k) * v.x + (v.y * k) * v.y;
      (v.x * v.x + v.y * v.y) * k;
      (len * len) * k;
      (k * len) * len;
    }
  }

  lemma DistanceSymmetric(sqrt: real -> real, a: Point, b: Point)
    requires IsSqrt(sqrt)
    ensures Distance(sqrt, a, b) == Distance(sqrt, b, a)
  {
    assert SquaredLength(Sub(a, b)) == SquaredLength(Sub(b, a));
  }

  /** Normalizing twice is normalizing once. */
  lemma NormalizeIdempotent(sqrt: real -> real, v: Point)
    requires IsSqrt(sqrt)
    ensures Normalize(sqrt, Normalize(sqrt, v)) == Normalize(sqrt, v)
  {
    var u := Normalize(sqrt, v);
    if v != Zero {
      var l := Length(sqrt, u);
      LengthSquared(sqrt, u);
      assert l * l == 1.0;
      SquareOneIsOne(l);
    }
  }

  lemma SquareOneIsOne(l: real)
    requires 0.0 <= l && l * l == 1.0
    ensures l == 1.0
  {
    assert (l - 1.0) * (l + 1.0) == l * l - 1.0;
    ProductZero(l - 1.0, l + 1.0);
  }

  /** `v` points along `t`: a non-negative multiple of it. */
  ghost predicate Along(v: Point, t: Point) {
    exists k: real :: 0.0 <= k && v == Scale(t, k)
  }

  /** Rescaling to a non-negative length keeps the direction. */
  lemma ScaleToAlong(sqrt: real -> real, t: Point, n: real)
    requires IsSqrt(sqrt) && 0.0 <= n
    ensures Along(ScaleTo(sqrt, t, n), t)
  {
    var len := Length(sqrt, t);
    if len != 0.0 {
      assert ScaleTo(sqrt, t, n) == Scale(t, n / len);
    } else {
      assert t == Zero;
      assert ScaleTo(sqrt, t, n) == Scale(t, 0.0);
    }
  }

  /** On a unit (or zero) vector, `V2Scale` is plain multiplication. */
  lemma ScaleToUnit(sqrt: real -> real, t: Point, n: real)
    requires IsSqrt(sqrt)
    requires SquaredLength(t) == 1.0 || t == Zero
    ensures ScaleTo(sqrt, t, n) == Scale(t, n)
  {
    if t != Zero {
      var l := Length(sqrt, t);
      LengthSquared(sqrt, t);
      assert l * l == 1.0;
      SquareOneIsOne(l);
      assert n / l == n;
    } else {
      assert Scale(Zero, n) == Zero;
      assert ScaleTo(sqrt, Zero, n) == Zero;
    }
  }

  /** The square root of a square is the (non-negative) base. */
  lemma SqrtOfSquare(sqrt: real -> real, a: real)
    requires IsSqrt(sqrt) && 0.0 <= a
    ensures sqrt(a * a) == a
  {
    SquareSign(a);
    var s := sqrt(a * a);
    SqrtAt(sqrt, a * a);
    assert (s - a) * (s + a) == s * s - a * a;
    ProductZero(s - a, s + a);
  }
}
