/**
 * Weighted roulette selection. The engine runs the same loop in five places
 * (picking an event, an automatic choice, a result bucket, a manual choice):
 * draw `randomTarget = Math.random() * total`, subtract the weights one by
 * one and stop at the first index where the target drops to zero or below;
 * when the loop runs out, take the last element.
 */
module Selection {
  import opened Common

  /** `weights.reduce((sum, w) => sum + w, 0)`. */
  function Sum(w: seq<real>): real {
    if w == [] then 0.0 else Sum(w[..|w| - 1]) + w[|w| - 1]
  }

  /** The running total of the weights up to and including index k. */
  function Running(w: seq<real>, k: nat): real
    requires k < |w|
  {
    Sum(w[..k + 1])
  }

  lemma RunningStep(w: seq<real>, k: nat)
    requires k < |w|
    ensures Running(w, k) == Sum(w[..k]) + w[k]
  {
    assert w[..k + 1][..k] == w[..k];
  }

  lemma RunningLast(w: seq<real>)
    requires |w| > 0
    ensures Running(w, |w| - 1) == Sum(w)
  {
    assert w[..|w|] == w;
  }

  /** The first index at or after `from` whose running total reaches `target`. */
  function FirstReachingFrom(w: seq<real>, target: real, from: nat): (r: Option<nat>)
    requires from <= |w|
    ensures r.Some? ==> from <= r.value < |w| && Running(w, r.value) >= target
    ensures r.Some? ==> forall k :: from <= k < r.value ==> Running(w, k) < target
    ensures r.None? ==> forall k :: from <= k < |w| ==> Running(w, k) < target
    decreases |w| - from
  {
    if from == |w| then None
    else if Running(w, from) >= target then Some(from)
    else FirstReachingFrom(w, target, from + 1)
  }

  /** The first index whose running total reaches `target`, if any. */
  function FirstReaching(w: seq<real>, target: real): (r: Option<nat>)
    ensures r.Some? ==> r.value < |w| && Running(w, r.value) >= target
    ensures r.Some? ==> forall k :: 0 <= k < r.value ==> Running(w, k) < target
    ensures r.None? ==> forall k :: 0 <= k < |w| ==> Running(w, k) < target
  {
    FirstReachingFrom(w, target, 0)
  }

  /**
   * The subtraction loop itself: `randomTarget -= w[i]; if (randomTarget <= 0)`
   * stops at the first index whose running total reaches the target.
   */
  method Spin(w: seq<real>, target: real) returns (found: Option<nat>)
    ensures found == FirstReaching(w, target)
  {
    var remaining := target;
    var i := 0;
    while i < |w|
      invariant 0 <= i <= |w|
      invariant remaining == target - Sum(w[..i])
      invariant FirstReachingFrom(w, target, i) == FirstReaching(w, target)
    {
      RunningStep(w, i);
      remaining := remaining - w[i];
      if remaining <= 0.0 {
        return Some(i);
      }
      i := i + 1;
    }
    return None;
  }

  /** `Math.random() * total`: for a positive total, a target in [0, total). */
  function DrawTarget(r: Unit, total: real): (t: real)
    ensures total > 0.0 ==> 0.0 <= t < total
    ensures total <= 0.0 ==> total <= t <= 0.0
  {
    assert total > 0.0 ==> (1.0 - r) * total > 0.0;
    assert total <= 0.0 ==> (1.0 - r) * total <= 0.0;
    r * total
  }

  /**
   * The loop's answer from index `from` on: the first index whose running
   * total reaches the target, or the last index when none does.
   */
  function RouletteFrom(w: seq<real>, target: real, from: nat): (i: nat)
    requires from < |w|
    ensures from <= i < |w|
    decreases |w| - from
  {
    if from == |w| - 1 || Running(w, from) >= target then from else RouletteFrom(w, target, from + 1)
  }

  /** The index a draw r selects: the first reaching `r * total`, else the last one. */
  function Roulette(w: seq<real>, r: Unit): (i: nat)
    requires |w| > 0
    ensures i < |w|
  {
    RouletteFrom(w, DrawTarget(r, Sum(w)), 0)
  }

  lemma {:induction false} RouletteFromFirstReaching(w: seq<real>, target: real, from: nat)
    requires from < |w|
    ensures FirstReachingFrom(w, target, from).Some? ==> RouletteFrom(w, target, from) == FirstReachingFrom(w, target, from).value
    ensures FirstReachingFrom(w, target, from).None? ==> RouletteFrom(w, target, from) == |w| - 1
    decreases |w| - from
  {
    if from < |w| - 1 && Running(w, from) < target {
      RouletteFromFirstReaching(w, target, from + 1);
    }
  }

  /** The roulette is the subtraction loop with its fallback: the first index reaching the target, else the last. */
  lemma RouletteSpin(w: seq<real>, r: Unit)
    requires |w| > 0
    ensures var f := FirstReaching(w, DrawTarget(r, Sum(w)));
      Roulette(w, r) == if f.Some? then f.value else |w| - 1
  {
    RouletteFromFirstReaching(w, DrawTarget(r, Sum(w)), 0);
  }

  /** A target no larger than the total is always reached: the fallback is not taken. */
  lemma ReachedBelowTotal(w: seq<real>, target: real)
    requires |w| > 0 && target <= Sum(w)
    ensures FirstReaching(w, target).Some?
  {
    RunningLast(w);
  }

  /**
   * For a positive total, the roulette result is exactly the first index whose
   * running total reaches `r * total`; the fallback to the last element is dead.
   */
  lemma RouletteIsFirstReaching(w: seq<real>, r: Unit)
    requires |w| > 0 && Sum(w) > 0.0
    ensures FirstReaching(w, DrawTarget(r, Sum(w))) == Some(Roulette(w, r))
  {
    ReachedBelowTotal(w, DrawTarget(r, Sum(w)));
    RouletteSpin(w, r);
  }

  /**
   * A positive target never stops at a zero or negative weight: the element
   * chosen by a positive draw has positive weight.
   */
  lemma ReachedWeightPositive(w: seq<real>, target: real)
    requires target > 0.0 && FirstReaching(w, target).Some?
    ensures w[FirstReaching(w, target).value] > 0.0
  {
    var i := FirstReaching(w, target).value;
    RunningStep(w, i);
    if i > 0 {
      assert Running(w, i - 1) < target;
    }
  }

  /** Every weight at least 1 and a non-empty list: the total is at least the count. */
  lemma {:induction false} SumAtLeastCount(w: seq<real>)
    requires forall k :: 0 <= k < |w| ==> w[k] >= 1.0
    ensures Sum(w) >= |w| as real
  {
    if w != [] {
      SumAtLeastCount(w[..|w| - 1]);
    }
  }

  /** The sum of non-negative weights is non-negative. */
  lemma {:induction false} SumNonNegative(w: seq<real>)
    requires forall k :: 0 <= k < |w| ==> w[k] >= 0.0
    ensures Sum(w) >= 0.0
  {
    if w != [] {
      SumNonNegative(w[..|w| - 1]);
    }
  }
}
