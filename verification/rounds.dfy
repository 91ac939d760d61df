/** The reparameterization loop of `FitCubic`, apart from what one round
    computes.

  Each round either fails or turns the current fit into the next one, and
  every fit has an error.  The loop stops at the first fit whose error is
  below the tolerance; when a round fails first, the loop fails with it;
  when every allowed round misses, the region is split.  The predicates
  below say which of these happened, counting rounds from the fit the loop
  starts with.
 */
module Rounds {
  import opened Outcomes

  /** The fit after `k` rounds of `step` from `x`, or the failure of the
      first round that failed. */
  function Iterate<T>(step: T -> Outcome<T>, x: T, k: nat): Outcome<T>
    decreases k
  {
    if k == 0 then
      Ok(x)
    else
      var y :- Iterate(step, x, k - 1);
      step(y)
  }

  /** Counting rounds from `x` is counting them, one fewer, from the fit
      `y` of its first round. */
  lemma {:induction false} IterateShift<T>(step: T -> Outcome<T>, x: T, y: T, k: nat)
    requires step(x) == Ok(y)
    ensures Iterate(step, x, k + 1) == Iterate(step, y, k)
    decreases k
  {
    if k > 0 {
      IterateShift(step, x, y, k - 1);
    }
  }

  /** A property every round keeps holds of every fit the rounds reach. */
  lemma {:induction false} IterateKeeps<T>(step: T -> Outcome<T>, keep: T -> bool, x: T, k: nat)
    requires keep(x)
    requires forall y :: keep(y) && step(y).Ok? ==> keep(step(y).value)
    ensures Iterate(step, x, k).Ok? ==> keep(Iterate(step, x, k).value)
    decreases k
  {
    if k > 0 {
      IterateKeeps(step, keep, x, k - 1);
    }
  }

  /** Round `k` from `x` produced a fit whose error is not below the
      tolerance. */
  ghost predicate Missed<T>(step: T -> Outcome<T>, err: T -> real, tolerance: real, x: T, k: nat) {
    var y := Iterate(step, x, k);
    y.Ok? && tolerance <= err(y.value)
  }

  /** Every one of the rounds `1..n` from `x` missed. */
  ghost predicate MissedAll<T>(step: T -> Outcome<T>, err: T -> real, tolerance: real, x: T, n: nat) {
    forall k :: 0 < k <= n ==> Missed(step, err, tolerance, x, k)
  }

  /** Round `n` from `x` is the first to reach a fit below the tolerance,
      the fit `y`. */
  ghost predicate AcceptedAfter<T>(step: T -> Outcome<T>, err: T -> real, tolerance: real, x: T, n: nat, y: T) {
    && 0 < n
    && Iterate(step, x, n) == Ok(y)
    && err(y) < tolerance
    && MissedAll(step, err, tolerance, x, n - 1)
  }

  /** One of the rounds `1..n` from `x` failed with `e`, and every round
      before it missed. */
  ghost predicate FailedWithin<T>(step: T -> Outcome<T>, err: T -> real, tolerance: real, x: T, n: nat, e: Failure) {
    exists k :: 0 < k <= n && Iterate(step, x, k) == Fail(e) && MissedAll(step, err, tolerance, x, k - 1)
  }

  /** Round `k` from `x` missed exactly when round `k - 1` from `y` did. */
  lemma MissedShift<T>(step: T -> Outcome<T>, err: T -> real, tolerance: real, x: T, y: T, k: nat)
    requires step(x) == Ok(y) && 0 < k
    ensures Missed(step, err, tolerance, x, k) == Missed(step, err, tolerance, y, k - 1)
  {
    IterateShift(step, x, y, k - 1);
  }

  /** When the first round from `x` produced `y` and missed, the rounds
      `1..n + 1` from `x` all missed exactly when the rounds `1..n` from
      `y` did. */
  lemma MissedAllShift<T>(step: T -> Outcome<T>, err: T -> real, tolerance: real, x: T, y: T, n: nat)
    requires step(x) == Ok(y)
    requires Missed(step, err, tolerance, x, 1)
    ensures MissedAll(step, err, tolerance, x, n + 1) == MissedAll(step, err, tolerance, y, n)
  {
    forall k | 0 < k <= n + 1
      ensures Missed(step, err, tolerance, x, k) == (k == 1 || Missed(step, err, tolerance, y, k - 1))
    {
      if k > 1 {
        MissedShift(step, err, tolerance, x, y, k);
      }
    }
    if MissedAll(step, err, tolerance, x, n + 1) {
      forall k | 0 < k <= n
        ensures Missed(step, err, tolerance, y, k)
      {
        assert Missed(step, err, tolerance, x, k + 1);
      }
    }
  }

  /** Acceptance after `n` rounds from `y` is acceptance after `n + 1`
      from `x`, when the first round from `x` produced `y` and missed. */
  lemma AcceptedShift<T>(step: T -> Outcome<T>, err: T -> real, tolerance: real, x: T, y: T, n: nat, z: T)
    requires step(x) == Ok(y)
    requires Missed(step, err, tolerance, x, 1)
    requires AcceptedAfter(step, err, tolerance, y, n, z)
    ensures AcceptedAfter(step, err, tolerance, x, n + 1, z)
  {
    IterateShift(step, x, y, n);
    MissedAllShift(step, err, tolerance, x, y, n - 1);
  }

  /** Likewise for a failure. */
  lemma FailShift<T>(step: T -> Outcome<T>, err: T -> real, tolerance: real, x: T, y: T, n: nat, e: Failure)
    requires step(x) == Ok(y)
    requires Missed(step, err, tolerance, x, 1)
    requires FailedWithin(step, err, tolerance, y, n, e)
    ensures FailedWithin(step, err, tolerance, x, n + 1, e)
  {
    var k :| 0 < k <= n && Iterate(step, y, k) == Fail(e) && MissedAll(step, err, tolerance, y, k - 1);
    IterateShift(step, x, y, k);
    MissedAllShift(step, err, tolerance, x, y, k - 1);
  }

  /** The loop reaches at most one outcome: the round of acceptance and
      the fit accepted are unique, and a loop that accepts neither fails
      nor misses every round up to the accepting one. */
  lemma OutcomesExclude<T>(step: T -> Outcome<T>, err: T -> real, tolerance: real, x: T, n: nat, y: T, m: nat)
    requires AcceptedAfter(step, err, tolerance, x, n, y)
    ensures forall m': nat, z :: AcceptedAfter(step, err, tolerance, x, m', z) ==> m' == n && z == y
    ensures forall e :: !FailedWithin(step, err, tolerance, x, m, e)
    ensures n <= m ==> !MissedAll(step, err, tolerance, x, m)
  {
    forall m': nat, z | AcceptedAfter(step, err, tolerance, x, m', z)
      ensures m' == n && z == y
    {
      assert m' < n ==> Missed(step, err, tolerance, x, m');
      assert n < m' ==> Missed(step, err, tolerance, x, n);
    }
    forall k: nat | 0 < k
      ensures Iterate(step, x, k).Ok? || !MissedAll(step, err, tolerance, x, k - 1)
    {
      assert k < n ==> Missed(step, err, tolerance, x, k);
      assert n < k && MissedAll(step, err, tolerance, x, k - 1) ==> Missed(step, err, tolerance, x, n);
    }
    if n <= m {
      assert !Missed(step, err, tolerance, x, n);
    }
  }

  /** A failing loop fails once: its failure is unique, and its rounds do
      not all miss. */
  lemma FailureExcludes<T>(step: T -> Outcome<T>, err: T -> real, tolerance: real, x: T, n: nat, e: Failure, m: nat)
    requires FailedWithin(step, err, tolerance, x, n, e)
    ensures forall e' :: FailedWithin(step, err, tolerance, x, m, e') ==> e' == e
    ensures n <= m ==> !MissedAll(step, err, tolerance, x, m)
  {
    var k :| 0 < k <= n && Iterate(step, x, k) == Fail(e) && MissedAll(step, err, tolerance, x, k - 1);
    forall e', k' | 0 < k' && Iterate(step, x, k') == Fail(e') && MissedAll(step, err, tolerance, x, k' - 1)
      ensures e' == e
    {
      assert k < k' ==> Missed(step, err, tolerance, x, k);
      assert k' < k ==> Missed(step, err, tolerance, x, k');
    }
    assert n <= m && MissedAll(step, err, tolerance, x, m) ==> Missed(step, err, tolerance, x, k);
  }
}
