/** `FitCubic`, `FitCurve` and `FitCurveArray`: the recursive fitter.

  A region of two samples gets the heuristic curve with its inner control
  points a third of the chord out along the tangents.  A longer region is
  parameterized by chord length and fitted by least squares; the curve is
  emitted when its error is below the tolerance.  An error below the square
  of the tolerance first earns up to four rounds of Newton-Raphson
  reparameterization and refitting.  Otherwise the region is split at the
  sample of maximum error, both halves are fitted with the tangent
  estimated there (negated for the right half), and their curves are
  emitted left half first.

  The original hands each curve to a `DrawBezierCurve` callback as soon as
  it is accepted; here the fitter returns the sequence of accepted pieces,
  in the order the callback would have seen them, each with the region it
  covers and why it was accepted.
 */
module Fitter {
  import opened Vectors
  import opened Bezier
  import opened Outcomes
  import opened Tangents
  import opened Chord
  import opened LeastSquares
  import opened Newton
  import opened MaxError
  import opened Rounds

  /** `maxIterations`. */
  const MaxIterations: nat := 4

  /** Why a curve was accepted: the two-sample heuristic, or a least-squares
      fit whose error `maxError` at the parameters `u` is below the
      tolerance, reached after `rounds` reparameterizations from a first
      fit of error `firstError`. */
  datatype Reason =
    | TwoPoints
    | Fitted(u: seq<real>, maxError: real, rounds: nat, firstError: real)

  /** One emitted curve and the region `d[first..last]` it covers. */
  datatype Piece = Piece(curve: Cubic, first: nat, last: nat, reason: Reason)

  /** The curve for a region of two samples.  `V2Scale` rescales each
      tangent to a third of the chord length. */
  function TwoPointCurve(sqrt: real -> real, d: seq<Point>, first: nat, last: nat, t1: Point, t2: Point): (c: Cubic)
    requires IsSqrt(sqrt)
    requires first <= last < |d|
    ensures c.p0 == d[first] && c.p3 == d[last]
    ensures Along(Sub(c.p1, c.p0), t1) && Along(Sub(c.p2, c.p3), t2)
  {
    var dist := Distance(sqrt, d[last], d[first]) / 3.0;
    var h1 := ScaleTo(sqrt, t1, dist);
    var h2 := ScaleTo(sqrt, t2, dist);
    ScaleToAlong(sqrt, t1, dist);
    ScaleToAlong(sqrt, t2, dist);
    SubAdd(d[first], h1);
    SubAdd(d[last], h2);
    Cubic(d[first], Add(d[first], h1), Add(d[last], h2), d[last])
  }

  /** For unit tangents the two-sample heuristic and the Wu/Barsky
      fallback of `GenerateBezier` place the same curve: `V2Scale` and
      `V2ScaleIII` agree on a unit vector. */
  lemma TwoPointIsWuBarsky(sqrt: real -> real, d: seq<Point>, first: nat, last: nat, t1: Point, t2: Point)
    requires IsSqrt(sqrt)
    requires first <= last < |d|
    requires UnitOrZero(t1) && UnitOrZero(t2)
    ensures TwoPointCurve(sqrt, d, first, last, t1, t2) == WuBarsky(sqrt, d, first, last, t1, t2)
  {
    var dist := Distance(sqrt, d[last], d[first]) / 3.0;
    ScaleToUnit(sqrt, t1, dist);
    ScaleToUnit(sqrt, t2, dist);
  }

  /** Every interior sample lies within squared distance `m` of the curve
      at its parameter. */
  predicate Measured(d: seq<Point>, first: nat, last: nat, c: Cubic, u: seq<real>, m: real)
    requires first <= last < |d| && |u| == last - first + 1
  {
    forall j :: first < j < last ==> Deviation(d, first, last, c, u, j) <= m
  }

  /** What the fitter guarantees of every piece it emits. */
  predicate Acceptable(sqrt: real -> real, d: seq<Point>, p: Piece, error: real)
    requires IsSqrt(sqrt)
  {
    && p.first < p.last < |d|
    && p.curve.p0 == d[p.first] && p.curve.p3 == d[p.last]
    && match p.reason
       case TwoPoints => p.last == p.first + 1
       case Fitted(u, m, rounds, firstError) =>
         && p.first + 1 < p.last && |u| == p.last - p.first + 1
         && 0.0 <= m < error
         && Measured(d, p.first, p.last, p.curve, u, m)
         && rounds <= MaxIterations
         && (rounds == 0 ==> firstError == m && ChordLengthParameterize(sqrt, d, p.first, p.last) == Ok(u))
         && (rounds > 0 ==> error <= firstError < error * error)
  }

  /** The pieces cover `d[first..last]` in order, each starting where the
      previous one ends. */
  predicate Covers(ps: seq<Piece>, first: nat, last: nat) {
    && |ps| >= 1
    && ps[0].first == first && ps[|ps| - 1].last == last
    && forall i :: 0 <= i < |ps| - 1 ==> ps[i].last == ps[i + 1].first
  }

  /** The inner control points next to the joint of `a` and `b` lie on
      opposite rays from it: the curves meet with a common tangent line. */
  ghost predicate Joined(a: Cubic, b: Cubic) {
    exists t :: Along(Sub(a.p2, a.p3), t) && Along(Sub(b.p1, b.p0), Negate(t))
  }

  ghost predicate Smooth(ps: seq<Piece>) {
    forall i :: 0 <= i < |ps| - 1 ==> Joined(ps[i].curve, ps[i + 1].curve)
  }

  /** The first curve leaves along `t1` and the last arrives along `t2`. */
  ghost predicate Tangential(ps: seq<Piece>, t1: Point, t2: Point) {
    && |ps| >= 1
    && Along(Sub(ps[0].curve.p1, ps[0].curve.p0), t1)
    && Along(Sub(ps[|ps| - 1].curve.p2, ps[|ps| - 1].curve.p3), t2)
  }

  /** A fit of the region: parameters for its samples and the curve
      fitted at them. */
  datatype Fit = Fit(u: seq<real>, curve: Cubic)

  /** One round of the reparameterization loop: move every parameter by a
      Newton-Raphson step on the curve, then fit again at the new
      parameters. */
  function Step(sqrt: real -> real, d: seq<Point>, first: nat, last: nat, t1: Point, t2: Point, f: Fit)
    : (r: Outcome<Fit>)
    requires IsSqrt(sqrt)
    requires first <= last < |d| && |f.u| == last - first + 1
    ensures r.Fail? ==> r.failure.NonFinite?
    ensures r.Ok? ==> |r.value.u| == last - first + 1
    ensures r.Ok? ==> r.value.curve.p0 == d[first] && r.value.curve.p3 == d[last]
    ensures r.Ok? ==> Along(Sub(r.value.curve.p1, r.value.curve.p0), t1) && Along(Sub(r.value.curve.p2, r.value.curve.p3), t2)
  {
    var u2 :- Reparameterize(d, first, last, f.u, f.curve, |f.u|);
    var curve2 :- GenerateBezier(sqrt, d, first, last, u2, t1, t2);
    Ok(Fit(u2, curve2))
  }

  /** `Step` as a round of the loop over fits of `d[first..last]`.  Every
      fit the loop reaches has one parameter per sample (`RoundKeepsCount`),
      so the second branch is never taken. */
  function Round(sqrt: real -> real, d: seq<Point>, first: nat, last: nat, t1: Point, t2: Point)
    : (step: Fit -> Outcome<Fit>)
    requires IsSqrt(sqrt)
    requires first <= last < |d|
  {
    (f: Fit) => if |f.u| == last - first + 1 then Step(sqrt, d, first, last, t1, t2, f) else Fail(NonFinite(NewtonStep))
  }

  /** `ComputeMaxError` of a fit of the region; as with `Round`, a fit of
      another length is never measured. */
  function Measure(d: seq<Point>, first: nat, last: nat, f: Fit): Worst
    requires first < last < |d|
  {
    if |f.u| == last - first + 1 then ComputeMaxError(d, first, last, f.curve, f.u) else Worst(0.0, first)
  }

  /** The error of a fit, as the loop compares it with the tolerance. */
  function ErrorOf(d: seq<Point>, first: nat, last: nat): Fit -> real
    requires first < last < |d|
  {
    (f: Fit) => Measure(d, first, last, f).maxDist
  }

  /** Every fit the rounds reach from a fit of the region is one. */
  lemma RoundKeepsCount(sqrt: real -> real, d: seq<Point>, first: nat, last: nat, t1: Point, t2: Point, f: Fit, k: nat)
    requires IsSqrt(sqrt)
    requires first <= last < |d| && |f.u| == last - first + 1
    ensures var g := Iterate(Round(sqrt, d, first, last, t1, t2), f, k);
      g.Ok? ==> |g.value.u| == last - first + 1
  {
    var R := Round(sqrt, d, first, last, t1, t2);
    IterateKeeps(R, (g: Fit) => |g.u| == last - first + 1, f, k);
  }

  /** The outcome of the reparameterization loop: a curve within the
      tolerance, or the sample to split at. */
  datatype Refined =
    | Accepted(curve: Cubic, u: seq<real>, maxError: real, rounds: nat)
    | SplitAt(split: nat)

  /** The loop `for (i = round; i < maxIterations; ++i)`: reparameterize
      the samples on the current curve, refit, and measure.  `split` is
      where the last measurement put the worst sample. */
  function Refine(sqrt: real -> real, d: seq<Point>, first: nat, last: nat, t1: Point, t2: Point, error: real,
                  u: seq<real>, curve: Cubic, round: nat, split: nat): (r: Outcome<Refined>)
    requires IsSqrt(sqrt)
    requires first + 1 < last < |d| && |u| == last - first + 1
    requires round <= MaxIterations && first < split < last
    ensures r.Fail? ==> r.failure.NonFinite?
    ensures r.Ok? && r.value.Accepted? ==>
      var a := r.value;
      && round < a.rounds <= MaxIterations
      && |a.u| == last - first + 1
      && 0.0 <= a.maxError < error
      && Measured(d, first, last, a.curve, a.u, a.maxError)
      && a.curve.p0 == d[first] && a.curve.p3 == d[last]
      && Along(Sub(a.curve.p1, a.curve.p0), t1) && Along(Sub(a.curve.p2, a.curve.p3), t2)
    ensures r.Ok? && r.value.SplitAt? ==> first < r.value.split < last
    decreases MaxIterations - round
  {
    if round == MaxIterations then
      Ok(SplitAt(split))
    else
      var g :- Step(sqrt, d, first, last, t1, t2, Fit(u, curve));
      var w := ComputeMaxError(d, first, last, g.curve, g.u);
      if w.maxDist < error then
        Ok(Accepted(g.curve, g.u, w.maxDist, round + 1))
      else
        Refine(sqrt, d, first, last, t1, t2, error, g.u, g.curve, round + 1, w.split)
  }

  /** What the loop may return when it starts at round `round` from the
      fit `f`, counting rounds of `R` from `f` and measuring fits by `E`:
      the first refit below the tolerance, with its error; or, when every
      remaining round misses, the worst sample of the last refit (`split`
      when no round is left); or the failure of the first round that
      fails. */
  ghost predicate LoopDecides(R: Fit -> Outcome<Fit>, E: Fit -> real, d: seq<Point>, first: nat, last: nat,
                              error: real, f: Fit, round: nat, split: nat, r: Outcome<Refined>)
    requires first < last < |d| && round <= MaxIterations
  {
    match r
    case Ok(Accepted(c, u, m, rounds)) =>
      && round < rounds
      && m == E(Fit(u, c))
      && AcceptedAfter(R, E, error, f, rounds - round, Fit(u, c))
    case Ok(SplitAt(s)) =>
      && MissedAll(R, E, error, f, MaxIterations - round)
      && (round == MaxIterations ==> s == split)
      && (round < MaxIterations ==>
            var g := Iterate(R, f, MaxIterations - round);
            g.Ok? && s == Measure(d, first, last, g.value).split)
    case Fail(e) => FailedWithin(R, E, error, f, MaxIterations - round, e)
  }

  /** The loop decides as the rounds counted from its start dictate. */
  lemma RefineDecides(sqrt: real -> real, d: seq<Point>, first: nat, last: nat, t1: Point, t2: Point,
                      error: real, u: seq<real>, curve: Cubic, round: nat, split: nat)
    requires IsSqrt(sqrt)
    requires first + 1 < last < |d| && |u| == last - first + 1
    requires round <= MaxIterations && first < split < last
    ensures LoopDecides(Round(sqrt, d, first, last, t1, t2), ErrorOf(d, first, last), d, first, last, error,
                        Fit(u, curve), round, split, Refine(sqrt, d, first, last, t1, t2, error, u, curve, round, split))
  {
    var R := Round(sqrt, d, first, last, t1, t2);
    var E := ErrorOf(d, first, last);
    var L := Loop(sqrt, d, first, last, t1, t2, error);
    forall f: Fit, k: nat, s: nat | k < MaxIterations && first < s < last && |f.u| == last - first + 1
      ensures OneRound(R, E, L, d, first, last, error, f, k, s)
    {
      RefineRound(sqrt, d, first, last, t1, t2, error, f, k, s);
    }
    forall f: Fit, s: nat | first < s < last && |f.u| == last - first + 1
      ensures L(f, MaxIterations, s) == Ok(SplitAt(s))
    {
      LoopIsRefine(sqrt, d, first, last, t1, t2, error, f, MaxIterations, s);
    }
    LoopDecidesFrom(R, E, L, d, first, last, error, Fit(u, curve), round, split);
    LoopIsRefine(sqrt, d, first, last, t1, t2, error, Fit(u, curve), round, split);
  }

  /** `Refine` runs each round as `OneRound` says. */
  lemma RefineRound(sqrt: real -> real, d: seq<Point>, first: nat, last: nat, t1: Point, t2: Point, error: real,
                    f: Fit, round: nat, split: nat)
    requires IsSqrt(sqrt)
    requires first + 1 < last < |d| && |f.u| == last - first + 1
    requires round < MaxIterations && first < split < last
    ensures OneRound(Round(sqrt, d, first, last, t1, t2), ErrorOf(d, first, last),
                     Loop(sqrt, d, first, last, t1, t2, error), d, first, last, error, f, round, split)
  {
    RoundFails(sqrt, d, first, last, t1, t2, error, f, round, split);
    RoundAccepts(sqrt, d, first, last, t1, t2, error, f, round, split);
    RoundMisses(sqrt, d, first, last, t1, t2, error, f, round, split);
  }

  lemma RoundFails(sqrt: real -> real, d: seq<Point>, first: nat, last: nat, t1: Point, t2: Point, error: real,
                    f: Fit, round: nat, split: nat)
    requires IsSqrt(sqrt)
    requires first + 1 < last < |d| && |f.u| == last - first + 1
    requires round < MaxIterations && first < split < last
    ensures var s := Round(sqrt, d, first, last, t1, t2)(f);
      s.Fail? ==> Loop(sqrt, d, first, last, t1, t2, error)(f, round, split) == Fail(s.failure)
  {
    FirstRound(sqrt, d, first, last, t1, t2, f);
    RefineOnce(sqrt, d, first, last, t1, t2, error, f.u, f.curve, round, split);
    LoopIsRefine(sqrt, d, first, last, t1, t2, error, f, round, split);
  }

  lemma RoundAccepts(sqrt: real -> real, d: seq<Point>, first: nat, last: nat, t1: Point, t2: Point, error: real,
                    f: Fit, round: nat, split: nat)
    requires IsSqrt(sqrt)
    requires first + 1 < last < |d| && |f.u| == last - first + 1
    requires round < MaxIterations && first < split < last
    ensures var s := Round(sqrt, d, first, last, t1, t2)(f);
      s.Ok? && ErrorOf(d, first, last)(s.value) < error ==>
      Loop(sqrt, d, first, last, t1, t2, error)(f, round, split)
      == Ok(Accepted(s.value.curve, s.value.u, ErrorOf(d, first, last)(s.value), round + 1))
  {
    FirstRound(sqrt, d, first, last, t1, t2, f);
    RefineOnce(sqrt, d, first, last, t1, t2, error, f.u, f.curve, round, split);
    LoopIsRefine(sqrt, d, first, last, t1, t2, error, f, round, split);
  }

  lemma RoundMisses(sqrt: real -> real, d: seq<Point>, first: nat, last: nat, t1: Point, t2: Point, error: real,
                    f: Fit, round: nat, split: nat)
    requires IsSqrt(sqrt)
    requires first + 1 < last < |d| && |f.u| == last - first + 1
    requires round < MaxIterations && first < split < last
    ensures var s := Round(sqrt, d, first, last, t1, t2)(f);
      s.Ok? && error <= ErrorOf(d, first, last)(s.value) ==>
      var g := s.value;
      && |g.u| == last - first + 1
      && first < Measure(d, first, last, g).split < last
      && Loop(sqrt, d, first, last, t1, t2, error)(f, round, split)
         == Loop(sqrt, d, first, last, t1, t2, error)(g, round + 1, Measure(d, first, last, g).split)
  {
    FirstRound(sqrt, d, first, last, t1, t2, f);
    var s := Step(sqrt, d, first, last, t1, t2, f);
    if s.Ok? && error <= ErrorOf(d, first, last)(s.value) {
      var g := s.value;
      var w := ComputeMaxError(d, first, last, g.curve, g.u);
      RefineOnce(sqrt, d, first, last, t1, t2, error, f.u, f.curve, round, split);
      LoopIsRefine(sqrt, d, first, last, t1, t2, error, f, round, split);
      LoopIsRefine(sqrt, d, first, last, t1, t2, error, g, round + 1, w.split);
    }
  }

  /** Within `Refine`'s domain, `Loop` is `Refine`. */
  lemma LoopIsRefine(sqrt: real -> real, d: seq<Point>, first: nat, last: nat, t1: Point, t2: Point, error: real,
                     f: Fit, round: nat, split: nat)
    requires IsSqrt(sqrt)
    requires first + 1 < last < |d| && |f.u| == last - first + 1
    requires round <= MaxIterations && first < split < last
    ensures Loop(sqrt, d, first, last, t1, t2, error)(f, round, split)
         == Refine(sqrt, d, first, last, t1, t2, error, f.u, f.curve, round, split)
  {
  }

  /** `Refine` as a function of the fit the loop starts from, the round and
      the last split; it fails outside `Refine`'s domain. */
  function Loop(sqrt: real -> real, d: seq<Point>, first: nat, last: nat, t1: Point, t2: Point, error: real)
    : (L: (Fit, nat, nat) -> Outcome<Refined>)
    requires IsSqrt(sqrt)
    requires first + 1 < last < |d|
  {
    (f: Fit, round: nat, split: nat) =>
      if |f.u| == last - first + 1 && round <= MaxIterations && first < split < last then
        Refine(sqrt, d, first, last, t1, t2, error, f.u, f.curve, round, split)
      else
        Fail(NonFinite(NewtonStep))
  }

  /** One round of a loop `L` from the fit `f`, with rounds of `R` and
      errors by `E`: a failing round fails it, a refit below the tolerance
      is accepted, and after a refit that misses the loop goes on from the
      refit, one round later, at its worst sample. */
  ghost predicate OneRound(R: Fit -> Outcome<Fit>, E: Fit -> real, L: (Fit, nat, nat) -> Outcome<Refined>,
                           d: seq<Point>, first: nat, last: nat, error: real, f: Fit, round: nat, split: nat)
    requires first < last < |d|
  {
    && (R(f).Fail? ==> L(f, round, split) == Fail(R(f).failure))
    && (R(f).Ok? && E(R(f).value) < error ==>
          L(f, round, split) == Ok(Accepted(R(f).value.curve, R(f).value.u, E(R(f).value), round + 1)))
    && (R(f).Ok? && error <= E(R(f).value) ==>
          var g := R(f).value;
          && |g.u| == last - first + 1
          && first < Measure(d, first, last, g).split < last
          && L(f, round, split) == L(g, round + 1, Measure(d, first, last, g).split))
  }

  /** A loop that runs its rounds as `OneRound` says, and splits at the
      last worst sample when no round is left, decides as the rounds
      counted from its start dictate. */
  lemma {:induction false} LoopDecidesFrom(R: Fit -> Outcome<Fit>, E: Fit -> real, L: (Fit, nat, nat) -> Outcome<Refined>,
                                           d: seq<Point>, first: nat, last: nat, error: real, f: Fit, round: nat,
                                           split: nat)
    requires first < last < |d|
    requires forall g: Fit, k: nat, s: nat | k < MaxIterations && first < s < last && |g.u| == last - first + 1 ::
      OneRound(R, E, L, d, first, last, error, g, k, s)
    requires forall g: Fit, s: nat | first < s < last && |g.u| == last - first + 1 ::
      L(g, MaxIterations, s) == Ok(SplitAt(s))
    requires round <= MaxIterations && first < split < last && |f.u| == last - first + 1
    ensures LoopDecides(R, E, d, first, last, error, f, round, split, L(f, round, split))
    decreases MaxIterations - round
  {
    if round == MaxIterations {
      assert MissedAll(R, E, error, f, 0);
    } else {
      assert OneRound(R, E, L, d, first, last, error, f, round, split);
      if R(f).Ok? && error <= E(R(f).value) {
        var g := R(f).value;
        LoopDecidesFrom(R, E, L, d, first, last, error, g, round + 1, Measure(d, first, last, g).split);
      }
      DecidesAfterRound(R, E, d, first, last, error, f, round, split, L(f, round, split));
    }
  }

  /** One round of the loop: a failing round fails it, a refit below the
      tolerance is accepted, and otherwise the loop goes on from the refit. */
  lemma RefineOnce(sqrt: real -> real, d: seq<Point>, first: nat, last: nat, t1: Point, t2: Point, error: real,
                   u: seq<real>, curve: Cubic, round: nat, split: nat)
    requires IsSqrt(sqrt)
    requires first + 1 < last < |d| && |u| == last - first + 1
    requires round < MaxIterations && first < split < last
    ensures var s := Step(sqrt, d, first, last, t1, t2, Fit(u, curve));
      s.Fail? ==> Refine(sqrt, d, first, last, t1, t2, error, u, curve, round, split) == Fail(s.failure)
    ensures var s := Step(sqrt, d, first, last, t1, t2, Fit(u, curve));
      s.Ok? ==>
      var w := ComputeMaxError(d, first, last, s.value.curve, s.value.u);
      && (w.maxDist < error ==>
            Refine(sqrt, d, first, last, t1, t2, error, u, curve, round, split)
            == Ok(Accepted(s.value.curve, s.value.u, w.maxDist, round + 1)))
      && (error <= w.maxDist ==>
            Refine(sqrt, d, first, last, t1, t2, error, u, curve, round, split)
            == Refine(sqrt, d, first, last, t1, t2, error, s.value.u, s.value.curve, round + 1, w.split))
  {
  }

  /** The first round from a fit of the region is `Step`, and the error of
      a fit of the region is the one `ComputeMaxError` measures. */
  lemma FirstRound(sqrt: real -> real, d: seq<Point>, first: nat, last: nat, t1: Point, t2: Point, f: Fit)
    requires IsSqrt(sqrt)
    requires first < last < |d| && |f.u| == last - first + 1
    ensures Round(sqrt, d, first, last, t1, t2)(f) == Step(sqrt, d, first, last, t1, t2, f)
    ensures var s := Step(sqrt, d, first, last, t1, t2, f);
      s.Ok? ==>
      && ErrorOf(d, first, last)(s.value) == ComputeMaxError(d, first, last, s.value.curve, s.value.u).maxDist
      && Measure(d, first, last, s.value) == ComputeMaxError(d, first, last, s.value.curve, s.value.u)
  {
  }

  /** The loop decides from `f` when its first round does: a failing
      round fails it, a refit below the tolerance is accepted, and after a
      refit that misses the loop decides from the refit. */
  lemma DecidesAfterRound(R: Fit -> Outcome<Fit>, E: Fit -> real, d: seq<Point>, first: nat, last: nat,
                          error: real, f: Fit, round: nat, split: nat, r: Outcome<Refined>)
    requires first < last < |d| && round < MaxIterations
    requires R(f).Fail? ==> r == Fail(R(f).failure)
    requires R(f).Ok? && E(R(f).value) < error ==>
      r == Ok(Accepted(R(f).value.curve, R(f).value.u, E(R(f).value), round + 1))
    requires R(f).Ok? && error <= E(R(f).value) ==>
      LoopDecides(R, E, d, first, last, error, R(f).value, round + 1, Measure(d, first, last, R(f).value).split, r)
    ensures LoopDecides(R, E, d, first, last, error, f, round, split, r)
  {
    match R(f)
    case Fail(e) =>
      DecidesOnFailure(R, E, d, first, last, error, f, round, split, e);
    case Ok(g) =>
      if E(g) < error {
        DecidesOnAcceptance(R, E, d, first, last, error, f, g, round, split);
      } else {
        DecidesAfterMiss(R, E, d, first, last, error, f, g, round, split, Measure(d, first, last, g).split, r);
      }
  }

  /** A round that fails at once decides the loop. */
  lemma DecidesOnFailure(R: Fit -> Outcome<Fit>, E: Fit -> real, d: seq<Point>, first: nat, last: nat,
                         error: real, f: Fit, round: nat, split: nat, e: Failure)
    requires first < last < |d| && round < MaxIterations
    requires R(f) == Fail(e)
    ensures LoopDecides(R, E, d, first, last, error, f, round, split, Fail(e))
  {
    assert Iterate(R, f, 1) == Fail(e);
    assert MissedAll(R, E, error, f, 0);
  }

  /** A first refit below the tolerance decides the loop. */
  lemma DecidesOnAcceptance(R: Fit -> Outcome<Fit>, E: Fit -> real, d: seq<Point>, first: nat, last: nat,
                            error: real, f: Fit, g: Fit, round: nat, split: nat)
    requires first < last < |d| && round < MaxIterations
    requires R(f) == Ok(g) && E(g) < error
    ensures LoopDecides(R, E, d, first, last, error, f, round, split, Ok(Accepted(g.curve, g.u, E(g), round + 1)))
  {
    assert Iterate(R, f, 1) == Ok(g);
    assert g == Fit(g.u, g.curve);
    assert MissedAll(R, E, error, f, 0);
  }

  /** After a first refit `g` that misses, the loop decides from `g` one
      round later as it decides from `f`. */
  lemma DecidesAfterMiss(R: Fit -> Outcome<Fit>, E: Fit -> real, d: seq<Point>, first: nat, last: nat,
                         error: real, f: Fit, g: Fit, round: nat, split: nat, next: nat, r: Outcome<Refined>)
    requires first < last < |d| && round < MaxIterations
    requires R(f) == Ok(g) && error <= E(g)
    requires next == Measure(d, first, last, g).split
    requires LoopDecides(R, E, d, first, last, error, g, round + 1, next, r)
    ensures LoopDecides(R, E, d, first, last, error, f, round, split, r)
  {
    assert Iterate(R, f, 1) == Ok(g);
    assert Missed(R, E, error, f, 1);
    var n := MaxIterations - (round + 1);
    match r
    case Fail(e) =>
      FailShift(R, E, error, f, g, n, e);
    case Ok(Accepted(c, u, m, rounds)) =>
      AcceptedShift(R, E, error, f, g, rounds - (round + 1), Fit(u, c));
    case Ok(SplitAt(s)) =>
      MissedAllShift(R, E, error, f, g, n);
      IterateShift(R, f, g, n);
  }

  /** What `FitCubic` decides for a region of three or more samples: emit
      one curve for it, or split it at a sample. */
  datatype Attempt = Emit(piece: Piece) | Split(at: nat)

  /** The loop's decision, from the first fit `f` of error `firstError`,
      with rounds of `R` and errors by `E`: emit the first refit below the
      tolerance, split at the worst sample of the last refit when none is,
      or fail with the first round that fails. */
  ghost predicate Refines(R: Fit -> Outcome<Fit>, E: Fit -> real, d: seq<Point>, first: nat, last: nat, error: real,
                          f: Fit, firstError: real, r: Outcome<Attempt>)
    requires first < last < |d|
  {
    match r
    case Ok(Emit(p)) =>
      && p.first == first && p.last == last && p.reason.Fitted?
      && p.reason.firstError == firstError
      && p.reason.rounds <= MaxIterations
      && p.reason.maxError == E(Fit(p.reason.u, p.curve))
      && AcceptedAfter(R, E, error, f, p.reason.rounds, Fit(p.reason.u, p.curve))
    case Ok(Split(s)) =>
      && MissedAll(R, E, error, f, MaxIterations)
      && var g := Iterate(R, f, MaxIterations);
         g.Ok? && s == Measure(d, first, last, g.value).split
    case Fail(e) => FailedWithin(R, E, error, f, MaxIterations, e)
  }

  /** The loop's decision is a function of the first fit: at most one
      outcome satisfies `Refines`. */
  lemma RefinesIsUnique(R: Fit -> Outcome<Fit>, E: Fit -> real, d: seq<Point>, first: nat, last: nat, error: real,
                        f: Fit, firstError: real, r1: Outcome<Attempt>, r2: Outcome<Attempt>)
    requires first < last < |d|
    requires Refines(R, E, d, first, last, error, f, firstError, r1)
    requires Refines(R, E, d, first, last, error, f, firstError, r2)
    ensures r1 == r2
  {
    if r1.Ok? && r1.value.Emit? {
      var p := r1.value.piece;
      OutcomesExclude(R, E, error, f, p.reason.rounds, Fit(p.reason.u, p.curve), MaxIterations);
    }
    if r2.Ok? && r2.value.Emit? {
      var p := r2.value.piece;
      OutcomesExclude(R, E, error, f, p.reason.rounds, Fit(p.reason.u, p.curve), MaxIterations);
    }
    if r1.Fail? {
      FailureExcludes(R, E, error, f, MaxIterations, r1.failure, MaxIterations);
    }
    if r2.Fail? {
      FailureExcludes(R, E, error, f, MaxIterations, r2.failure, MaxIterations);
    }
  }

  /** Parameterize, fit, measure and, when the error is below the square
      of the tolerance, refine; the part of `FitCubic` before it recurses. */
  function FitRegion(sqrt: real -> real, d: seq<Point>, first: nat, last: nat, t1: Point, t2: Point, error: real)
    : (r: Outcome<Attempt>)
    requires IsSqrt(sqrt)
    requires first + 1 < last < |d|
    ensures r.Fail? ==> r.failure.NonFinite?
    ensures r.Ok? && r.value.Emit? ==>
      var p := r.value.piece;
      && p.first == first && p.last == last && p.reason.Fitted?
      && Acceptable(sqrt, d, p, error)
      && Along(Sub(p.curve.p1, p.curve.p0), t1) && Along(Sub(p.curve.p2, p.curve.p3), t2)
    ensures r.Ok? && r.value.Split? ==> first < r.value.at < last
    ensures var c := ChordLengthParameterize(sqrt, d, first, last);
      c.Fail? ==> r == Fail(c.failure)
    ensures var c := ChordLengthParameterize(sqrt, d, first, last);
      c.Ok? ==>
      var g := GenerateBezier(sqrt, d, first, last, c.value, t1, t2);
      g.Fail? ==> r == Fail(g.failure)
    ensures var c := ChordLengthParameterize(sqrt, d, first, last);
      c.Ok? ==>
      var g := GenerateBezier(sqrt, d, first, last, c.value, t1, t2);
      g.Ok? ==>
      var w := ComputeMaxError(d, first, last, g.value, c.value);
      && (w.maxDist < error ==> r == Ok(Emit(Piece(g.value, first, last, Fitted(c.value, w.maxDist, 0, w.maxDist)))))
      && (error <= w.maxDist && error * error <= w.maxDist ==> r == Ok(Split(w.split)))
  {
    var u :- ChordLengthParameterize(sqrt, d, first, last);
    var curve :- GenerateBezier(sqrt, d, first, last, u, t1, t2);
    var w := ComputeMaxError(d, first, last, curve, u);
    if w.maxDist < error then
      var p := Piece(curve, first, last, Fitted(u, w.maxDist, 0, w.maxDist));
      FittedPiece(sqrt, d, error, p);
      Ok(Emit(p))
    else if w.maxDist < error * error then
      Reparameterized(sqrt, d, first, last, t1, t2, error, u, curve, w)
    else
      Ok(Split(w.split))
  }

  /** When the first fit misses the tolerance by less than its square,
      `FitRegion` decides as the reparameterization loop from that fit does
      (`FitRegion`'s own contract covers the other cases). */
  lemma FitRegionRefines(sqrt: real -> real, d: seq<Point>, first: nat, last: nat, t1: Point, t2: Point,
                         error: real)
    requires IsSqrt(sqrt)
    requires first + 1 < last < |d|
    ensures var c := ChordLengthParameterize(sqrt, d, first, last);
      c.Ok? ==>
      var g := GenerateBezier(sqrt, d, first, last, c.value, t1, t2);
      g.Ok? ==>
      var w := ComputeMaxError(d, first, last, g.value, c.value);
      error <= w.maxDist < error * error ==>
      Refines(Round(sqrt, d, first, last, t1, t2), ErrorOf(d, first, last), d, first, last, error,
              Fit(c.value, g.value), w.maxDist, FitRegion(sqrt, d, first, last, t1, t2, error))
  {
    var c := ChordLengthParameterize(sqrt, d, first, last);
    if c.Ok? {
      var g := GenerateBezier(sqrt, d, first, last, c.value, t1, t2);
      if g.Ok? {
        var w := ComputeMaxError(d, first, last, g.value, c.value);
        if error <= w.maxDist < error * error {
          FitRegionReparameterizes(sqrt, d, first, last, t1, t2, error, c.value, g.value, w);
        }
      }
    }
  }

  lemma FitRegionReparameterizes(sqrt: real -> real, d: seq<Point>, first: nat, last: nat, t1: Point, t2: Point,
                                 error: real, u: seq<real>, curve: Cubic, w: Worst)
    requires IsSqrt(sqrt)
    requires first + 1 < last < |d|
    requires ChordLengthParameterize(sqrt, d, first, last) == Ok(u)
    requires GenerateBezier(sqrt, d, first, last, u, t1, t2) == Ok(curve)
    requires ComputeMaxError(d, first, last, curve, u) == w && error <= w.maxDist < error * error
    ensures FitRegion(sqrt, d, first, last, t1, t2, error)
         == Reparameterized(sqrt, d, first, last, t1, t2, error, u, curve, w)
  {
  }

  /** The branch of `FitRegion` that tries reparameterization: the first
      fit `curve`, at the parameters `u`, had error `w.maxDist`. */
  function Reparameterized(sqrt: real -> real, d: seq<Point>, first: nat, last: nat, t1: Point, t2: Point,
                           error: real, u: seq<real>, curve: Cubic, w: Worst): (r: Outcome<Attempt>)
    requires IsSqrt(sqrt)
    requires first + 1 < last < |d| && |u| == last - first + 1
    requires first < w.split < last && error <= w.maxDist < error * error
    ensures r.Fail? ==> r.failure.NonFinite?
    ensures r.Ok? && r.value.Emit? ==>
      var p := r.value.piece;
      && p.first == first && p.last == last && p.reason.Fitted?
      && Acceptable(sqrt, d, p, error)
      && Along(Sub(p.curve.p1, p.curve.p0), t1) && Along(Sub(p.curve.p2, p.curve.p3), t2)
    ensures r.Ok? && r.value.Split? ==> first < r.value.at < last
    ensures Refines(Round(sqrt, d, first, last, t1, t2), ErrorOf(d, first, last), d, first, last, error,
                    Fit(u, curve), w.maxDist, r)
  {
    RefineDecides(sqrt, d, first, last, t1, t2, error, u, curve, 0, w.split);
    var refined :- Refine(sqrt, d, first, last, t1, t2, error, u, curve, 0, w.split);
    match refined
    case Accepted(c, u2, m, rounds) =>
      var p := Piece(c, first, last, Fitted(u2, m, rounds, w.maxDist));
      FittedPiece(sqrt, d, error, p);
      Ok(Emit(p))
    case SplitAt(split) => Ok(Split(split))
  }

  /** The conditions under which `FitRegion` emits a fitted piece make it
      acceptable. */
  lemma FittedPiece(sqrt: real -> real, d: seq<Point>, error: real, p: Piece)
    requires IsSqrt(sqrt)
    requires p.reason.Fitted?
    requires p.first + 1 < p.last < |d| && |p.reason.u| == p.last - p.first + 1
    requires p.curve.p0 == d[p.first] && p.curve.p3 == d[p.last]
    requires 0.0 <= p.reason.maxError < error
    requires Measured(d, p.first, p.last, p.curve, p.reason.u, p.reason.maxError)
    requires p.reason.rounds <= MaxIterations
    requires p.reason.rounds == 0 ==>
      p.reason.firstError == p.reason.maxError
      && ChordLengthParameterize(sqrt, d, p.first, p.last) == Ok(p.reason.u)
    requires p.reason.rounds > 0 ==> error <= p.reason.firstError < error * error
    ensures Acceptable(sqrt, d, p, error)
  {
  }

  /** `FitCubic` on `d[first..last]` with end tangents `t1` and `t2`. */
  function FitCubic(sqrt: real -> real, d: seq<Point>, first: nat, last: nat, t1: Point, t2: Point, error: real)
    : (r: Outcome<seq<Piece>>)
    requires IsSqrt(sqrt)
    requires first < last < |d|
    ensures r.Fail? ==> r.failure.NonFinite?
    ensures r.Ok? ==> Covers(r.value, first, last)
    ensures r.Ok? ==> forall i :: 0 <= i < |r.value| ==> Acceptable(sqrt, d, r.value[i], error)
    ensures r.Ok? ==> Tangential(r.value, t1, t2) && Smooth(r.value)
    ensures first + 1 == last ==> r.Ok? && |r.value| == 1 && r.value[0].reason == TwoPoints
    decreases last - first, 1
  {
    if last - first + 1 == 2 then
      var p := Piece(TwoPointCurve(sqrt, d, first, last, t1, t2), first, last, TwoPoints);
      SinglePiece(sqrt, d, error, p, t1, t2);
      Ok([p])
    else
      var attempt :- FitRegion(sqrt, d, first, last, t1, t2, error);
      match attempt
      case Emit(p) =>
        SinglePiece(sqrt, d, error, p, t1, t2);
        Ok([p])
      case Split(split) => FitHalves(sqrt, d, first, split, last, t1, t2, error)
  }

  /** Split `d[first..last]` at `split`: fit both halves with the tangent
      estimated at the split, negated for the right half, left half first. */
  function FitHalves(sqrt: real -> real, d: seq<Point>, first: nat, split: nat, last: nat, t1: Point, t2: Point,
                     error: real): (r: Outcome<seq<Piece>>)
    requires IsSqrt(sqrt)
    requires first < split < last < |d|
    ensures r.Fail? ==> r.failure.NonFinite?
    ensures r.Ok? ==> Covers(r.value, first, last)
    ensures r.Ok? ==> forall i :: 0 <= i < |r.value| ==> Acceptable(sqrt, d, r.value[i], error)
    ensures r.Ok? ==> Tangential(r.value, t1, t2) && Smooth(r.value)
    ensures r.Ok? ==> exists n ::
      && 0 < n < |r.value|
      && r.value[n - 1].last == split == r.value[n].first
      && Along(Sub(r.value[n - 1].curve.p2, r.value[n - 1].curve.p3), CenterTangent(sqrt, d, split))
      && Along(Sub(r.value[n].curve.p1, r.value[n].curve.p0), Negate(CenterTangent(sqrt, d, split)))
    decreases last - first, 0
  {
    var center := CenterTangent(sqrt, d, split);
    var left :- FitCubic(sqrt, d, first, split, t1, center, error);
    var right :- FitCubic(sqrt, d, split, last, Negate(center), t2, error);
    Concatenate(sqrt, d, error, left, right, first, split, last, t1, center, t2);
    var r := left + right;
    assert r[|left| - 1] == left[|left| - 1] && r[|left|] == right[0];
    Ok(r)
  }

  /** `FitCubic` emits the one piece `FitRegion` emits. */
  lemma CubicEmits(sqrt: real -> real, d: seq<Point>, first: nat, last: nat, t1: Point, t2: Point, error: real,
                   p: Piece)
    requires IsSqrt(sqrt) && first + 1 < last < |d|
    requires FitRegion(sqrt, d, first, last, t1, t2, error) == Ok(Emit(p))
    ensures FitCubic(sqrt, d, first, last, t1, t2, error) == Ok([p])
  {
  }

  /** `FitCubic` fits the two halves of a split `FitRegion` decides. */
  lemma CubicSplits(sqrt: real -> real, d: seq<Point>, first: nat, split: nat, last: nat, t1: Point, t2: Point,
                    error: real)
    requires IsSqrt(sqrt) && first < split < last < |d|
    requires FitRegion(sqrt, d, first, last, t1, t2, error) == Ok(Split(split))
    ensures FitCubic(sqrt, d, first, last, t1, t2, error) == FitHalves(sqrt, d, first, split, last, t1, t2, error)
  {
  }

  /** A region emitted as one piece. */
  lemma SinglePiece(sqrt: real -> real, d: seq<Point>, error: real, p: Piece, t1: Point, t2: Point)
    requires IsSqrt(sqrt)
    requires Acceptable(sqrt, d, p, error)
    requires Along(Sub(p.curve.p1, p.curve.p0), t1) && Along(Sub(p.curve.p2, p.curve.p3), t2)
    ensures Covers([p], p.first, p.last)
    ensures forall i :: 0 <= i < |[p]| ==> Acceptable(sqrt, d, [p][i], error)
    ensures Tangential([p], t1, t2) && Smooth([p])
  {
  }

  /** The two halves of a split fit together. */
  lemma Concatenate(sqrt: real -> real, d: seq<Point>, error: real, left: seq<Piece>, right: seq<Piece>,
                    first: nat, split: nat, last: nat, t1: Point, center: Point, t2: Point)
    requires IsSqrt(sqrt)
    requires Covers(left, first, split) && Covers(right, split, last)
    requires forall i :: 0 <= i < |left| ==> Acceptable(sqrt, d, left[i], error)
    requires forall i :: 0 <= i < |right| ==> Acceptable(sqrt, d, right[i], error)
    requires Tangential(left, t1, center) && Smooth(left)
    requires Tangential(right, Negate(center), t2) && Smooth(right)
    ensures Covers(left + right, first, last)
    ensures forall i :: 0 <= i < |left + right| ==> Acceptable(sqrt, d, (left + right)[i], error)
    ensures Tangential(left + right, t1, t2) && Smooth(left + right)
  {
    CoversJoin(left, right, first, split, last);
    AcceptableJoin(sqrt, d, error, left, right);
    SmoothJoin(left, right, t1, center, t2);
  }

  lemma CoversJoin(left: seq<Piece>, right: seq<Piece>, first: nat, split: nat, last: nat)
    requires Covers(left, first, split) && Covers(right, split, last)
    ensures Covers(left + right, first, last)
  {
    var ps := left + right;
    var n := |left|;
    forall i | 0 <= i < |ps| - 1
      ensures ps[i].last == ps[i + 1].first
    {
      if i < n - 1 {
        assert ps[i] == left[i] && ps[i + 1] == left[i + 1];
      } else if i == n - 1 {
        assert ps[i] == left[n - 1] && ps[i + 1] == right[0];
      } else {
        assert ps[i] == right[i - n] && ps[i + 1] == right[i - n + 1];
      }
    }
  }

  lemma AcceptableJoin(sqrt: real -> real, d: seq<Point>, error: real, left: seq<Piece>, right: seq<Piece>)
    requires IsSqrt(sqrt)
    requires forall i :: 0 <= i < |left| ==> Acceptable(sqrt, d, left[i], error)
    requires forall i :: 0 <= i < |right| ==> Acceptable(sqrt, d, right[i], error)
    ensures forall i :: 0 <= i < |left + right| ==> Acceptable(sqrt, d, (left + right)[i], error)
  {
    var ps := left + right;
    forall i | 0 <= i < |ps|
      ensures Acceptable(sqrt, d, ps[i], error)
    {
      if i < |left| {
        assert ps[i] == left[i];
      } else {
        assert ps[i] == right[i - |left|];
      }
    }
  }

  lemma SmoothJoin(left: seq<Piece>, right: seq<Piece>, t1: Point, center: Point, t2: Point)
    requires Tangential(left, t1, center) && Smooth(left)
    requires Tangential(right, Negate(center), t2) && Smooth(right)
    ensures Tangential(left + right, t1, t2) && Smooth(left + right)
  {
    var ps := left + right;
    var n := |left|;
    assert Joined(left[n - 1].curve, right[0].curve);
    forall i | 0 <= i < |ps| - 1
      ensures Joined(ps[i].curve, ps[i + 1].curve)
    {
      if i < n - 1 {
        assert ps[i] == left[i] && ps[i + 1] == left[i + 1];
      } else if i == n - 1 {
        assert ps[i] == left[n - 1] && ps[i + 1] == right[0];
      } else {
        assert ps[i] == right[i - n] && ps[i + 1] == right[i - n + 1];
      }
    }
    assert ps[0] == left[0] && ps[|ps| - 1] == right[|right| - 1];
  }

  /** `FitCurve`: fit the whole polyline, with end tangents estimated from
      the first two and the last two samples.  The original throws on
      fewer than two samples while reading `d[1]`. */
  function FitCurve(sqrt: real -> real, d: seq<Point>, error: real): (r: Outcome<seq<Piece>>)
    requires IsSqrt(sqrt)
    ensures |d| < 2 ==> r == Fail(TooFewPoints)
    ensures |d| >= 2 && r.Fail? ==> r.failure.NonFinite?
    ensures r.Ok? ==> Covers(r.value, 0, |d| - 1)
    ensures r.Ok? ==> forall i :: 0 <= i < |r.value| ==> Acceptable(sqrt, d, r.value[i], error)
    ensures r.Ok? ==> Smooth(r.value)
    ensures r.Ok? ==> Tangential(r.value, LeftTangent(sqrt, d, 0), RightTangent(sqrt, d, |d| - 1))
    ensures |d| == 2 ==> r.Ok? && |r.value| == 1
  {
    if |d| < 2 then
      Fail(TooFewPoints)
    else
      FitCubic(sqrt, d, 0, |d| - 1, LeftTangent(sqrt, d, 0), RightTangent(sqrt, d, |d| - 1), error)
  }

  /** The tangents estimated at the two ends of the polyline are unit (or
      zero) vectors. */
  lemma EndTangents(sqrt: real -> real, d: seq<Point>)
    requires IsSqrt(sqrt) && |d| >= 2
    ensures UnitOrZero(LeftTangent(sqrt, d, 0)) && UnitOrZero(RightTangent(sqrt, d, |d| - 1))
  {
    DirectionIsUnitOrZero(LeftTangent(sqrt, d, 0), Sub(d[1], d[0]));
    DirectionIsUnitOrZero(RightTangent(sqrt, d, |d| - 1), Sub(d[|d| - 2], d[|d| - 1]));
  }

  /** Both halves of a split get unit (or zero) tangents at the split:
      the center tangent for the left half and its negation for the right. */
  lemma SplitTangents(sqrt: real -> real, d: seq<Point>, split: nat)
    requires IsSqrt(sqrt) && 0 < split < |d| - 1
    ensures UnitOrZero(CenterTangent(sqrt, d, split)) && UnitOrZero(Negate(CenterTangent(sqrt, d, split)))
  {
    var center := CenterTangent(sqrt, d, split);
    DirectionIsUnitOrZero(center, Sub(d[split - 1], d[split + 1]));
    assert SquaredLength(Negate(center)) == SquaredLength(center);
  }

  /** A direction in the sense of `V2Normalize` is a unit or zero vector. */
  lemma DirectionIsUnitOrZero(t: Point, v: Point)
    requires IsDirectionOf(t, v)
    ensures UnitOrZero(t)
  {
  }

  /** The curves of the pieces, in order. */
  function Curves(ps: seq<Piece>): (cs: seq<Cubic>)
    ensures |cs| == |ps| && forall i :: 0 <= i < |ps| ==> cs[i] == ps[i].curve
  {
    seq(|ps|, i requires 0 <= i < |ps| => ps[i].curve)
  }

  /** `FitCurveArray`: the curves alone, in the order they were emitted. */
  function FitCurveArray(sqrt: real -> real, d: seq<Point>, error: real): (r: Outcome<seq<Cubic>>)
    requires IsSqrt(sqrt)
    ensures r.Fail? <==> FitCurve(sqrt, d, error).Fail?
    ensures r.Ok? ==> |d| >= 2 && |r.value| >= 1
    ensures r.Ok? ==> r.value[0].p0 == d[0] && r.value[|r.value| - 1].p3 == d[|d| - 1]
    ensures r.Ok? ==> forall i :: 0 <= i < |r.value| - 1 ==> r.value[i].p3 == r.value[i + 1].p0
    ensures r.Ok? ==> |r.value| <= |d| - 1
  {
    var pieces :- FitCurve(sqrt, d, error);
    ChainedCurves(sqrt, d, error, pieces);
    Ok(Curves(pieces))
  }

  /** The curves of a covering of acceptable pieces join end to end, and
      there are at most as many as the polyline has segments. */
  lemma ChainedCurves(sqrt: real -> real, d: seq<Point>, error: real, ps: seq<Piece>)
    requires IsSqrt(sqrt) && |d| >= 2
    requires Covers(ps, 0, |d| - 1)
    requires forall i :: 0 <= i < |ps| ==> Acceptable(sqrt, d, ps[i], error)
    ensures var curves := Curves(ps);
      curves[0].p0 == d[0] && curves[|curves| - 1].p3 == d[|d| - 1]
    ensures var curves := Curves(ps);
      forall i :: 0 <= i < |curves| - 1 ==> curves[i].p3 == curves[i + 1].p0
    ensures |Curves(ps)| <= |d| - 1
  {
    var curves := Curves(ps);
    forall i | 0 <= i < |curves| - 1
      ensures curves[i].p3 == curves[i + 1].p0
    {
      assert Acceptable(sqrt, d, ps[i], error) && Acceptable(sqrt, d, ps[i + 1], error);
    }
    PiecesAdvance(sqrt, d, error, ps, 0, |d| - 1);
  }

  /** Each piece of a covering spans at least one segment, so a covering
      of `d[first..last]` has at most `last - first` pieces; it has exactly
      that many when every piece spans one. */
  lemma {:induction false} PiecesAdvance(sqrt: real -> real, d: seq<Point>, error: real, ps: seq<Piece>, first: nat, last: nat)
    requires IsSqrt(sqrt)
    requires Covers(ps, first, last)
    requires forall i :: 0 <= i < |ps| ==> Acceptable(sqrt, d, ps[i], error)
    ensures first + |ps| <= last
    ensures (forall i :: 0 <= i < |ps| ==> ps[i].last == ps[i].first + 1) ==> first + |ps| == last
    decreases |ps|
  {
    assert Acceptable(sqrt, d, ps[0], error);
    if |ps| > 1 {
      var rest := ps[1..];
      assert forall i :: 0 <= i < |rest| - 1 ==> rest[i].last == rest[i + 1].first;
      assert Covers(rest, ps[0].last, last);
      assert forall i :: 0 <= i < |rest| ==> rest[i] == ps[i + 1];
      PiecesAdvance(sqrt, d, error, rest, ps[0].last, last);
    }
  }
}
