/**
 * GoalFlow of mead/symbols/flows.py: a flow whose formula is the distance
 * from the stock's value to the goal, optionally clamped to a maximum rate
 * in either direction.
 */
module SymbolFlows {
  import opened Base

  /** Python's `min(a, b)`. */
  function MinOf(a: real, b: real): real {
    if b < a then b else a
  }

  /** Python's `max(a, b)`. */
  function MaxOf(a: real, b: real): real {
    if b > a then b else a
  }

  /**
   * `_goal_seeking_formula`, where `goal` is what the goal symbol computes
   * and `stockValue` is the stock's value: `goal - stockValue`, clamped to
   * `[-maxRate, maxRate]` when a maximum rate is given.
   */
  function GoalSeekingRate(goal: real, stockValue: real, maxRate: Option<real>): (r: real)
    ensures maxRate.None? ==> r == goal - stockValue
    ensures maxRate.Some? && maxRate.value >= 0.0 ==> -maxRate.value <= r <= maxRate.value
    ensures maxRate.Some? && -maxRate.value <= goal - stockValue <= maxRate.value ==> r == goal - stockValue
    ensures (maxRate.None? || maxRate.value > 0.0) ==> ((r > 0.0 <==> stockValue < goal) && (r < 0.0 <==> stockValue > goal))
    ensures maxRate.Some? && maxRate.value < 0.0 ==> r == -maxRate.value
  {
    var diff := goal - stockValue;
    if maxRate.Some? then MaxOf(-maxRate.value, MinOf(maxRate.value, diff)) else diff
  }

  /**
   * A stock driven by its goal flow over a step dt with `0 <= dt <= 1`
   * lands between its old value and the goal: it never overshoots.
   */
  lemma GoalFlowApproaches(goal: real, value: real, maxRate: Option<real>, dt: real)
    requires 0.0 <= dt <= 1.0
    requires maxRate.None? || maxRate.value >= 0.0
    ensures var next := value + GoalSeekingRate(goal, value, maxRate) * dt;
      (value <= next <= goal) || (goal <= next <= value)
  {
    var r := GoalSeekingRate(goal, value, maxRate);
    if value <= goal {
      assert 0.0 <= r <= goal - value;
      NonNegativeProduct(r, dt);
      NonNegativeProduct(r, 1.0 - dt);
    } else {
      assert goal - value <= r <= 0.0;
      NonNegativeProduct(-r, dt);
      NonNegativeProduct(-r, 1.0 - dt);
    }
  }
}
