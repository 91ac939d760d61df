/** Unit tangents estimated from neighbouring samples: at the left end of a
    region, at its right end, and at an interior split point
    (`ComputeLeftTangent`, `ComputeRightTangent`, `ComputeCenterTangent`).
    Each is the zero vector when the points it is taken from coincide.
 */
module Tangents {
  import opened Vectors

  /** `ComputeLeftTangent`: points from `d[end]` toward `d[end + 1]`. */
  function LeftTangent(sqrt: real -> real, d: seq<Point>, end: nat): (r: Point)
    requires IsSqrt(sqrt)
    requires end + 1 < |d|
    ensures IsDirectionOf(r, Sub(d[end + 1], d[end]))
    ensures r == Zero <==> d[end + 1] == d[end]
  {
    var tHat1 := Sub(d[end + 1], d[end]);
    Normalize(sqrt, tHat1)
  }

  /** `ComputeRightTangent`: points from `d[end]` back toward `d[end - 1]`. */
  function RightTangent(sqrt: real -> real, d: seq<Point>, end: nat): (r: Point)
    requires IsSqrt(sqrt)
    requires 1 <= end < |d|
    ensures IsDirectionOf(r, Sub(d[end - 1], d[end]))
    ensures r == Zero <==> d[end - 1] == d[end]
  {
    var tHat2 := Sub(d[end - 1], d[end]);
    Normalize(sqrt, tHat2)
  }

  /** `ComputeCenterTangent`: the mean of the two secants at `center`,
      normalized.  The secants telescope, so the tangent points from the
      successor toward the predecessor of the center point. */
  function CenterTangent(sqrt: real -> real, d: seq<Point>, center: nat): (r: Point)
    requires IsSqrt(sqrt)
    requires 0 < center < |d| - 1
    ensures IsDirectionOf(r, Sub(d[center - 1], d[center + 1]))
    ensures r == Zero <==> d[center - 1] == d[center + 1]
  {
    var v1 := Sub(d[center - 1], d[center]);
    var v2 := Sub(d[center], d[center + 1]);
    var mean := Point((v1.x + v2.x) / 2.0, (v1.y + v2.y) / 2.0);
    var r := Normalize(sqrt, mean);
    assert Sub(d[center - 1], d[center + 1]) == Scale(mean, 2.0);
    DirectionOfDouble(r, mean, Sub(d[center - 1], d[center + 1]));
    r
  }

  /** A direction of `m` is also a direction of `2 m`. */
  lemma DirectionOfDouble(u: Point, m: Point, v: Point)
    requires v == Scale(m, 2.0)
    requires IsDirectionOf(u, m)
    ensures IsDirectionOf(u, v)
  {
    if m == Zero {
      assert v.x == 0.0 && v.y == 0.0;
    } else {
      assert m.x != 0.0 || m.y != 0.0;
      assert v.x != 0.0 || v.y != 0.0;
      ScaledProducts(u.x, u.y, m.x, m.y);
    }
  }

  /** Cross and dot products scale with their second argument. */
  lemma ScaledProducts(a: real, b: real, x: real, y: real)
    ensures a * (y * 2.0) - b * (x * 2.0) == 2.0 * (a * y - b * x)
    ensures a * (x * 2.0) + b * (y * 2.0) == 2.0 * (a * x + b * y)
  {
  }
}
