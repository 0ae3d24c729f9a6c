/**
 * The symbols of mead/symbols/symbol.py: step-indexed values that compute
 * at most once per step and append every fresh result to their history.
 *
 * A symbol's formula and the input symbol of a Delay or a
 * SmoothedAuxiliary are callables of the user's model; what they return at
 * the moment `compute` calls them is a parameter of Compute. The history
 * that BaseSymbol inherits from Historical is the `log` each symbol owns.
 */
module Symbols {
  import opened Base
  import opened SymbolHistory

  /** `step is not None and step == self._last_step`: the step was computed already. */
  predicate Repeated(step: Option<int>, lastStep: Option<int>) {
    step.Some? && step == lastStep
  }

  /** BaseSymbol, and Flow and Auxiliary, which add nothing to it. */
  class BaseSymbol {
    const name: string
    const hasFormula: bool
    var result: real
    var lastStep: Option<int>
    const log: Historical

    /** `BaseSymbol(name, formula)`: result 0.0, no step computed, empty history. */
    constructor(name: string, hasFormula: bool)
      ensures this.name == name && this.hasFormula == hasFormula
      ensures result == 0.0 && lastStep == None
      ensures fresh(log) && log.history == []
    {
      this.name := name;
      this.hasFormula := hasFormula;
      result := 0.0;
      lastStep := None;
      log := new Historical();
    }

    /**
     * `compute(step)`, where `formula` is what the formula returns when
     * called now. A repeated step returns the cached result and changes
     * nothing. Otherwise the result becomes the formula's value (or stays
     * as it is without a formula), the step is remembered, and the result
     * is recorded once.
     */
    method Compute(step: Option<int>, formula: real) returns (r: real)
      modifies this, log
      ensures Repeated(step, old(lastStep)) ==>
        r == old(result) && result == old(result) && lastStep == old(lastStep) && log.history == old(log.history)
      ensures !Repeated(step, old(lastStep)) ==>
        result == (if hasFormula then formula else old(result)) && lastStep == step &&
        log.history == old(log.history) + [result] && r == result
    {
      if step.Some? && step == lastStep {
        return result;
      }
      if hasFormula {
        result := formula;
      }
      lastStep := step;
      log.Record(result);
      r := result;
    }
  }

  /** Constant: a BaseSymbol whose formula returns the value, which it also holds and records from the start. */
  class Constant {
    const value: real
    const symbol: BaseSymbol

    ghost predicate Valid()
      reads this, symbol
    {
      symbol.hasFormula && symbol.result == value
    }

    /** `Constant(name, value)`: the history starts as `[value]`. */
    constructor(name: string, value: real)
      ensures Valid() && this.value == value && symbol.name == name && symbol.lastStep == None
      ensures fresh(symbol) && fresh(symbol.log) && symbol.log.history == [value]
    {
      this.value := value;
      symbol := new BaseSymbol(name, true);
      new;
      symbol.result := value;
      symbol.log.Record(value);
    }

    /** A constant computes its value at every step; a fresh step records it once more. */
    method Compute(step: Option<int>) returns (r: real)
      requires Valid()
      modifies symbol, symbol.log
      ensures Valid() && r == value
      ensures symbol.lastStep == if Repeated(step, old(symbol.lastStep)) then old(symbol.lastStep) else step
      ensures symbol.log.history ==
        if Repeated(step, old(symbol.lastStep)) then old(symbol.log.history) else old(symbol.log.history) + [value]
    {
      r := symbol.Compute(step, value);
    }
  }

  /** `[0.0] * n`. */
  function Zeros(n: nat): seq<real> {
    seq(n, _ => 0.0)
  }

  /**
   * What a delay of n steps holds after it was fed the inputs: the last n
   * entries of the inputs after n leading zeros, so the entry at k is the
   * input fed n - k computes ago, or 0 when there was none yet.
   */
  function Window(inputs: seq<real>, n: nat): (w: seq<real>)
    ensures |w| == n
    ensures forall k :: 0 <= k < n ==> w[k] == if |inputs| + k >= n then inputs[|inputs| + k - n] else 0.0
  {
    (Zeros(n) + inputs)[|inputs|..]
  }

  /** Before any input, the window is the initial buffer. */
  lemma WindowOfNothing(n: nat)
    ensures Window([], n) == Zeros(n)
  {
  }

  /** Feeding x drops the oldest buffered value and appends x, as a full deque does. */
  lemma WindowSlides(inputs: seq<real>, n: nat, x: real)
    requires n > 0
    ensures Window(inputs + [x], n) == Window(inputs, n)[1..] + [x]
  {
    var lhs, rhs := Window(inputs + [x], n), Window(inputs, n)[1..] + [x];
    forall k | 0 <= k < n
      ensures lhs[k] == rhs[k]
    {
      if k < n - 1 {
        assert rhs[k] == Window(inputs, n)[k + 1];
      }
    }
  }

  /** Delay: outputs what its input was `steps` computes earlier, 0.0 before that. */
  class Delay {
    const name: string
    const steps: nat
    var buffer: seq<real>
    var result: real
    var lastStep: Option<int>
    const log: Historical
    /** The input values fed so far, one per fresh step. */
    ghost var inputs: seq<real>

    ghost predicate Valid()
      reads this
    {
      buffer == Window(inputs, steps)
    }

    /** `Delay(name, steps, input)`: the buffer holds `steps` zeros. */
    constructor(name: string, steps: nat)
      ensures Valid() && this.name == name && this.steps == steps
      ensures inputs == [] && buffer == Zeros(steps)
      ensures result == 0.0 && lastStep == None
      ensures fresh(log) && log.history == []
    {
      this.name := name;
      this.steps := steps;
      buffer := Zeros(steps);
      result := 0.0;
      lastStep := None;
      log := new Historical();
      inputs := [];
      new;
      WindowOfNothing(steps);
    }

    /**
     * `compute(step)`, where `input` is what the input symbol computes at
     * this step. A repeated step changes nothing. Otherwise the result is
     * the oldest buffered value, which is the input of `steps` fresh steps
     * ago (0.0 if there was none), and the input goes into the buffer. With
     * `steps == 0` the buffer is empty and reading its head raises
     * IndexError before anything changes.
     */
    method Compute(step: Option<int>, input: real) returns (r: Result<real>)
      requires Valid()
      modifies this, log
      ensures Valid() && |buffer| == steps
      ensures Repeated(step, old(lastStep)) || steps == 0 ==>
        buffer == old(buffer) && inputs == old(inputs) && result == old(result) &&
        lastStep == old(lastStep) && log.history == old(log.history)
      ensures Repeated(step, old(lastStep)) ==> r == Ok(old(result))
      ensures !Repeated(step, old(lastStep)) && steps == 0 ==> r == Err(IndexError)
      ensures !Repeated(step, old(lastStep)) && steps > 0 ==>
        result == old(buffer)[0] &&
        result == (if |old(inputs)| >= steps then old(inputs)[|old(inputs)| - steps] else 0.0) &&
        buffer == old(buffer)[1..] + [input] && inputs == old(inputs) + [input] &&
        lastStep == step && log.history == old(log.history) + [result] && r == Ok(result)
    {
      if step.Some? && step == lastStep {
        return Ok(result);
      }
      if |buffer| == 0 {
        return Err(IndexError);
      }
      result := buffer[0];
      WindowSlides(inputs, steps, input);
      buffer := buffer[1..] + [input];
      inputs := inputs + [input];
      lastStep := step;
      log.Record(result);
      r := Ok(result);
    }
  }

  /** A delay of 2 steps over the constant 2 outputs 0, 0, 2, 2 at steps 0 to 3. */
  method DelayOfConstant() returns (outputs: seq<real>)
    ensures outputs == [0.0, 0.0, 2.0, 2.0]
  {
    var c := new Constant("Constant rate", 2.0);
    var d := new Delay("Simple delay", 2);
    outputs := [];
    for k := 0 to 4
      invariant c.Valid() && d.Valid() && d.steps == 2
      invariant d.inputs == seq(k, _ => 2.0) && d.lastStep == (if k == 0 then None else Some(k - 1))
      invariant |outputs| == k && forall j :: 0 <= j < k ==> outputs[j] == if j < 2 then 0.0 else 2.0
    {
      var v := c.Compute(Some(k));
      var o := d.Compute(Some(k), v);
      outputs := outputs + [o.value];
    }
    assert outputs == [0.0, 0.0, 2.0, 2.0];
  }

  /** Points between a and b, in either order. */
  predicate Between(x: real, a: real, b: real) {
    (a <= x <= b) || (b <= x <= a)
  }

  /**
   * The first-order lag `result + (target - result) / tau`. It keeps the
   * fraction `1 - 1/tau` of the gap to the target; with tau = 1 it reaches
   * the target, and with tau >= 1 it lands between the old result and the
   * target.
   */
  function SmoothStep(current: real, target: real, tau: real): (r: real)
    requires tau != 0.0
    ensures r - target == (current - target) * (1.0 - 1.0 / tau)
    ensures tau == 1.0 ==> r == target
    ensures tau >= 1.0 ==> Between(r, current, target)
  {
    var r := current + (target - current) / tau;
    assert (target - current) / tau == (target - current) * (1.0 / tau);
    LagShare(target - current, tau);
    r
  }

  /** With tau >= 1, `d / tau` lies between 0 and d. */
  lemma LagShare(d: real, tau: real)
    requires tau != 0.0
    ensures tau >= 1.0 ==> Between(d / tau, 0.0, d)
  {
    if tau < 1.0 {
    } else if d >= 0.0 {
      assert d / tau * tau == d;
      assert d / tau <= d / tau * tau;
    } else {
      assert (-d) / tau * tau == -d;
      assert (-d) / tau <= (-d) / tau * tau;
      assert d / tau == -((-d) / tau);
    }
  }

  /** The result after k fresh steps toward the same target from x0. */
  function Smoothed(x0: real, target: real, tau: real, k: nat): real
    requires tau != 0.0
  {
    if k == 0 then x0 else SmoothStep(Smoothed(x0, target, tau, k - 1), target, tau)
  }

  /**
   * Toward a constant target, each step closes the gap by the factor
   * `1 - 1/tau`: after k steps the gap is `(target - x0) c^k` with `c = 1 - 1/tau`.
   */
  lemma {:induction false} SmoothedGeometric(x0: real, target: real, tau: real, c: real, k: nat)
    requires tau != 0.0 && c == 1.0 - 1.0 / tau
    ensures Smoothed(x0, target, tau, k) == Relaxed(target, x0, c, k)
  {
    if k > 0 {
      SmoothedGeometric(x0, target, tau, c, k - 1);
      SmoothedNext(x0, target, tau, c, k);
    }
  }

  /** The induction step of SmoothedGeometric. */
  lemma SmoothedNext(x0: real, target: real, tau: real, c: real, k: nat)
    requires tau != 0.0 && c == 1.0 - 1.0 / tau && k > 0
    requires Smoothed(x0, target, tau, k - 1) == Relaxed(target, x0, c, k - 1)
    ensures Smoothed(x0, target, tau, k) == Relaxed(target, x0, c, k)
  {
    var q := (target - x0) * Pow(c, k - 1);
    LagOfGap(x0, target, tau, c, k, q);
    RelaxedNext(target, x0, c, k);
  }

  /** One lag step from `target - q` leaves the gap `q * c`. */
  lemma LagOfGap(x0: real, target: real, tau: real, c: real, k: nat, q: real)
    requires tau != 0.0 && c == 1.0 - 1.0 / tau && k > 0
    requires Smoothed(x0, target, tau, k - 1) == target - q
    ensures Smoothed(x0, target, tau, k) == target - q * c
  {
    var r := SmoothStep(Smoothed(x0, target, tau, k - 1), target, tau);
    assert r - target == (-q) * c;
  }

  /** One more relaxation step multiplies the gap by c. */
  lemma RelaxedNext(g: real, x0: real, c: real, k: nat)
    requires k > 0
    ensures Relaxed(g, x0, c, k) == g - ((g - x0) * Pow(c, k - 1)) * c
  {
    var p := Pow(c, k - 1);
    assert Pow(c, k) == c * p;
    assert (g - x0) * (c * p) == ((g - x0) * p) * c;
  }

  /** SmoothedAuxiliary: a first-order lag of its input with time constant `tau` steps. */
  class SmoothedAuxiliary {
    const name: string
    const tau: real
    var result: real
    var lastStep: Option<int>
    const log: Historical

    /** `SmoothedAuxiliary(name, input, tau_steps)` (tau_steps defaults to 10): the result starts at 0.0. */
    constructor(name: string, tau: real := 10.0)
      ensures this.name == name && this.tau == tau
      ensures result == 0.0 && lastStep == None
      ensures fresh(log) && log.history == []
    {
      this.name := name;
      this.tau := tau;
      result := 0.0;
      lastStep := None;
      log := new Historical();
    }

    /**
     * `compute(step)`, where `target` is what the input symbol computes at
     * this step. A repeated step changes nothing. Otherwise the result moves
     * by `(target - result) / tau` and is recorded; `tau == 0` raises
     * ZeroDivisionError before anything changes.
     */
    method Compute(step: Option<int>, target: real) returns (r: Result<real>)
      modifies this, log
      ensures Repeated(step, old(lastStep)) || tau == 0.0 ==>
        result == old(result) && lastStep == old(lastStep) && log.history == old(log.history)
      ensures Repeated(step, old(lastStep)) ==> r == Ok(old(result))
      ensures !Repeated(step, old(lastStep)) && tau == 0.0 ==> r == Err(ZeroDivisionError)
      ensures !Repeated(step, old(lastStep)) && tau != 0.0 ==>
        result == SmoothStep(old(result), target, tau) && lastStep == step &&
        log.history == old(log.history) + [result] && r == Ok(result)
    {
      if step.Some? && step == lastStep {
        return Ok(result);
      }
      if tau == 0.0 {
        return Err(ZeroDivisionError);
      }
      result := result + (target - result) / tau;
      lastStep := step;
      log.Record(result);
      r := Ok(result);
    }
  }

  /**
   * With the default tau of 10 a lag toward 10 moves from 0 to 1, a
   * repeated step keeps 1, and with tau 1 the lag reaches its target at once.
   */
  method SmoothedExamples() returns (first: Result<real>, repeated: Result<real>, recorded: seq<real>, fast: Result<real>)
    ensures first == Ok(1.0) && repeated == Ok(1.0) && recorded == [1.0]
    ensures fast == Ok(7.0)
  {
    var slow := new SmoothedAuxiliary("slow");
    first := slow.Compute(Some(0), 10.0);
    repeated := slow.Compute(Some(0), 50.0);
    recorded := slow.log.history;
    var quick := new SmoothedAuxiliary("fast", 1.0);
    fast := quick.Compute(Some(0), 7.0);
  }
}
