/**
 * The integrators of mead/solver.py. A state maps stock names to values;
 * the derivative function is the caller's and is a parameter here.
 */
module Solvers {

  type State = map<string, real>

  /** `compute_derivatives(time, state)`. */
  type Derivative = (real, State) -> State

  /**
   * The derivative function yields a rate for every stock of any state over
   * the given stock names. The code indexes the derivatives by every name of
   * the state, so this is what it needs of the function it is given.
   */
  ghost predicate Covers(deriv: Derivative, keys: set<string>) {
    forall t: real, st: State :: st.Keys == keys ==> keys <= deriv(t, st).Keys
  }

  /** `_advance_state(state, derivatives, dt)`, and the state Euler returns. */
  function AdvanceState(state: State, d: State, dt: real): (r: State)
    requires state.Keys <= d.Keys
    ensures r.Keys == state.Keys
  {
    map n | n in state :: state[n] + d[n] * dt
  }

  /** Advancing by 0 changes nothing. */
  lemma AdvanceByZero(state: State, d: State)
    requires state.Keys <= d.Keys
    ensures AdvanceState(state, d, 0.0) == state
  {
  }

  /** Two advances along the same derivatives add up to one advance by the summed step. */
  lemma AdvanceAdditive(state: State, d: State, a: real, b: real)
    requires state.Keys <= d.Keys
    ensures AdvanceState(AdvanceState(state, d, a), d, b) == AdvanceState(state, d, a + b)
  {
    var lhs, rhs := AdvanceState(AdvanceState(state, d, a), d, b), AdvanceState(state, d, a + b);
    forall n | n in state
      ensures lhs[n] == rhs[n]
    {
      assert lhs[n] == (state[n] + d[n] * a) + d[n] * b;
    }
  }

  /** EulerSolver.step: one derivative evaluation at (time, state), then `x + dx/dt * dt` per stock. */
  function EulerStep(time: real, dt: real, state: State, deriv: Derivative): (r: State)
    requires Covers(deriv, state.Keys)
    ensures r.Keys == state.Keys
    ensures forall n :: n in state ==> r[n] == state[n] + deriv(time, state)[n] * dt
  {
    AdvanceState(state, deriv(time, state), dt)
  }

  /** The four slopes of RK4Solver.step. */
  datatype Slopes = Slopes(k1: State, k2: State, k3: State, k4: State)

  /**
   * k1 at (t, s); k2 at (t + dt/2, s advanced by k1 over dt/2); k3 at
   * (t + dt/2, s advanced by k2 over dt/2); k4 at (t + dt, s advanced by k3
   * over dt). Each slope covers the state's stocks.
   */
  function RK4Slopes(time: real, dt: real, state: State, deriv: Derivative): (k: Slopes)
    requires Covers(deriv, state.Keys)
    ensures state.Keys <= k.k1.Keys && state.Keys <= k.k2.Keys
    ensures state.Keys <= k.k3.Keys && state.Keys <= k.k4.Keys
    ensures k.k1 == deriv(time, state)
    ensures k.k2 == deriv(time + dt / 2.0, AdvanceState(state, k.k1, dt / 2.0))
    ensures k.k3 == deriv(time + dt / 2.0, AdvanceState(state, k.k2, dt / 2.0))
    ensures k.k4 == deriv(time + dt, AdvanceState(state, k.k3, dt))
  {
    var half := dt / 2.0;
    var k1 := deriv(time, state);
    var s2 := AdvanceState(state, k1, half);
    var k2 := deriv(time + half, s2);
    var s3 := AdvanceState(state, k2, half);
    var k3 := deriv(time + half, s3);
    var s4 := AdvanceState(state, k3, dt);
    var k4 := deriv(time + dt, s4);
    Slopes(k1, k2, k3, k4)
  }

  /** The weighted slope `(k1 + 2 k2 + 2 k3 + k4) / 6` of one stock. */
  function WeightedSlope(k: Slopes, n: string): real
    requires n in k.k1 && n in k.k2 && n in k.k3 && n in k.k4
  {
    (k.k1[n] + 2.0 * k.k2[n] + 2.0 * k.k3[n] + k.k4[n]) / 6.0
  }

  /** RK4Solver.step: every stock advanced by dt along its weighted slope. */
  function RK4Step(time: real, dt: real, state: State, deriv: Derivative): (r: State)
    requires Covers(deriv, state.Keys)
    ensures r.Keys == state.Keys
  {
    var k := RK4Slopes(time, dt, state, deriv);
    map n | n in state :: state[n] + WeightedSlope(k, n) * dt
  }

  /** A stock's value x after one RK4 step whose slopes there are k1 to k4. */
  function RK4Update(x: real, dt: real, k1: real, k2: real, k3: real, k4: real): real {
    x + (k1 + 2.0 * k2 + 2.0 * k3 + k4) / 6.0 * dt
  }

  /** A derivative function that gives every stock the rate `lam` times its own value. */
  ghost predicate Proportional(deriv: Derivative, lam: real) {
    forall t: real, st: State, n: string :: n in st ==> n in deriv(t, st) && deriv(t, st)[n] == lam * st[n]
  }

  /** The degree-4 Taylor polynomial of `e^h`. */
  function Taylor4(h: real): real {
    1.0 + h + h * h / 2.0 + h * h * h / 6.0 + h * h * h * h / 24.0
  }

  /**
   * On `dx/dt = lam x`, one RK4 step multiplies every stock by the degree-4
   * Taylor polynomial of `e^(lam dt)`; this holds only because k2, k3 and k4
   * are taken at the intermediate states the method prescribes.
   */
  lemma RK4ProportionalIsTaylor(time: real, dt: real, state: State, deriv: Derivative, lam: real, n: string)
    requires Proportional(deriv, lam)
    requires n in state
    ensures Covers(deriv, state.Keys)
    ensures RK4Step(time, dt, state, deriv)[n] == state[n] * Taylor4(lam * dt)
  {
    ProportionalCovers(deriv, lam, state.Keys);
    var k1, a2, k2, a3, k3, a4, k4 := ProportionalStages(time, dt, state, deriv, lam, n);
    RK4Stages(state[n], lam, dt, k1, a2, k2, a3, k3, a4, k4);
    assert RK4Step(time, dt, state, deriv)[n] == RK4Update(state[n], dt, k1, k2, k3, k4);
    assert RK4Update(state[n], dt, k1, k2, k3, k4) == state[n] * Taylor4(lam * dt);
  }

  /** The four slopes of one stock under a proportional derivative, stage by stage. */
  lemma ProportionalStages(time: real, dt: real, state: State, deriv: Derivative, lam: real, n: string)
    returns (k1: real, a2: real, k2: real, a3: real, k3: real, a4: real, k4: real)
    requires Proportional(deriv, lam)
    requires Covers(deriv, state.Keys)
    requires n in state
    ensures ProportionalSlopes(state[n], lam, dt, k1, a2, k2, a3, k3, a4, k4)
    ensures RK4Step(time, dt, state, deriv)[n] == RK4Update(state[n], dt, k1, k2, k3, k4)
  {
    var k := RK4Slopes(time, dt, state, deriv);
    ProportionalAt(deriv, lam, time, state, n);
    k1 := k.k1[n];
    a2, k2 := ProportionalStage(time + dt / 2.0, dt / 2.0, state, k.k1, k1, deriv, lam, n);
    a3, k3 := ProportionalStage(time + dt / 2.0, dt / 2.0, state, k.k2, k2, deriv, lam, n);
    a4, k4 := ProportionalStage(time + dt, dt, state, k.k3, k3, deriv, lam, n);
    RK4StepAt(time, dt, state, deriv, n, k1, k2, k3, k4);
  }

  /** RK4Step at one stock, given the values of its four slopes there. */
  lemma RK4StepAt(time: real, dt: real, state: State, deriv: Derivative, n: string, k1: real, k2: real, k3: real, k4: real)
    requires Covers(deriv, state.Keys)
    requires n in state
    requires var k := RK4Slopes(time, dt, state, deriv);
      k.k1[n] == k1 && k.k2[n] == k2 && k.k3[n] == k3 && k.k4[n] == k4
    ensures RK4Step(time, dt, state, deriv)[n] == RK4Update(state[n], dt, k1, k2, k3, k4)
  {
    var k := RK4Slopes(time, dt, state, deriv);
    RK4StepUnfold(time, dt, state, deriv, n);
    ScaledEqually(WeightedSlope(k, n), (k1 + 2.0 * k2 + 2.0 * k3 + k4) / 6.0, dt);
  }

  lemma RK4StepUnfold(time: real, dt: real, state: State, deriv: Derivative, n: string)
    requires Covers(deriv, state.Keys)
    requires n in state
    ensures var k := RK4Slopes(time, dt, state, deriv);
      RK4Step(time, dt, state, deriv)[n] == state[n] + WeightedSlope(k, n) * dt
  {
  }

  lemma ScaledEqually(a: real, b: real, c: real)
    requires a == b
    ensures a * c == b * c
  {
  }

  /** One intermediate stage: the stock advanced along slope d by h, and the rate there. */
  lemma ProportionalStage(t: real, h: real, state: State, d: State, slope: real, deriv: Derivative, lam: real, n: string)
    returns (a: real, k: real)
    requires Proportional(deriv, lam)
    requires state.Keys <= d.Keys && n in state && d[n] == slope
    ensures Stage(state[n], lam, slope, h, a, k)
    ensures n in deriv(t, AdvanceState(state, d, h)) && k == deriv(t, AdvanceState(state, d, h))[n]
  {
    var s := AdvanceState(state, d, h);
    AdvanceAt(state, d, h, n);
    ProportionalAt(deriv, lam, t, s, n);
    a, k := s[n], deriv(t, s)[n];
  }

  lemma ProportionalAt(deriv: Derivative, lam: real, t: real, st: State, n: string)
    requires Proportional(deriv, lam)
    requires n in st
    ensures n in deriv(t, st) && deriv(t, st)[n] == lam * st[n]
  {
  }

  lemma AdvanceAt(state: State, d: State, dt: real, n: string)
    requires state.Keys <= d.Keys
    requires n in state
    ensures AdvanceState(state, d, dt)[n] == state[n] + d[n] * dt
  {
  }

  /**
   * The four slopes of one stock starting at x on `dx/dt = lam x`: k1 at x,
   * k2 at x advanced by k1 over dt/2, k3 at x advanced by k2 over dt/2, k4
   * at x advanced by k3 over dt.
   */
  ghost predicate ProportionalSlopes(x: real, lam: real, dt: real, k1: real, a2: real, k2: real, a3: real, k3: real, a4: real, k4: real) {
    && k1 == lam * x
    && Stage(x, lam, k1, dt / 2.0, a2, k2)
    && Stage(x, lam, k2, dt / 2.0, a3, k3)
    && Stage(x, lam, k3, dt, a4, k4)
  }

  /** One intermediate stage: x advanced along `slope` by h gives a, where the rate is k. */
  ghost predicate Stage(x: real, lam: real, slope: real, h: real, a: real, k: real) {
    a == x + slope * h && k == lam * a
  }

  /** The arithmetic of the four stages on `dx/dt = lam x`. */
  lemma RK4Stages(x: real, lam: real, dt: real, k1: real, a2: real, k2: real, a3: real, k3: real, a4: real, k4: real)
    requires ProportionalSlopes(x, lam, dt, k1, a2, k2, a3, k3, a4, k4)
    ensures RK4Update(x, dt, k1, k2, k3, k4) == x * Taylor4(lam * dt)
  {
    StageProduct(lam, dt, x, k1);
    StageProduct(lam, dt, a2, k2);
    StageProduct(lam, dt, a3, k3);
    StageProduct(lam, dt, a4, k4);
    var p1, p2, p3, p4 := k1 * dt, k2 * dt, k3 * dt, k4 * dt;
    RK4Polynomial(x, lam * dt, p1, a2, p2, a3, p3, a4, p4);
    WeightedTimesStep(k1, k2, k3, k4, dt);
  }

  lemma ProportionalCovers(deriv: Derivative, lam: real, keys: set<string>)
    requires Proportional(deriv, lam)
    ensures Covers(deriv, keys)
  {
    forall t: real, st: State | st.Keys == keys
      ensures keys <= deriv(t, st).Keys
    {
      forall n | n in keys
        ensures n in deriv(t, st)
      {
        assert n in st;
      }
    }
  }

  /** A stage's slope times the step: `(lam a) dt == (lam dt) a`, and half of it over half a step. */
  lemma StageProduct(lam: real, dt: real, a: real, k: real)
    requires k == lam * a
    ensures k * dt == (lam * dt) * a
    ensures k * (dt / 2.0) == (k * dt) / 2.0
  {
  }

  lemma WeightedTimesStep(k1: real, k2: real, k3: real, k4: real, dt: real)
    ensures (k1 + 2.0 * k2 + 2.0 * k3 + k4) / 6.0 * dt == (k1 * dt + 2.0 * (k2 * dt) + 2.0 * (k3 * dt) + k4 * dt) / 6.0
  {
  }

  /** The arithmetic behind RK4ProportionalIsTaylor, with each stage's increment `p = h a`. */
  lemma RK4Polynomial(x: real, h: real, p1: real, a2: real, p2: real, a3: real, p3: real, a4: real, p4: real)
    requires p1 == h * x
    requires a2 == x + p1 / 2.0 && p2 == h * a2
    requires a3 == x + p2 / 2.0 && p3 == h * a3
    requires a4 == x + p3 && p4 == h * a4
    ensures x + (p1 + 2.0 * p2 + 2.0 * p3 + p4) / 6.0 == x * Taylor4(h)
  {
    assert p2 == h * x + h * h * x / 2.0;
    assert p3 == h * x + h * h * x / 2.0 + h * h * h * x / 4.0;
    assert p4 == h * x + h * h * x + h * h * h * x / 2.0 + h * h * h * h * x / 4.0;
  }

  /** A zero step leaves the state as it is under both integrators. */
  lemma ZeroStepIsIdentity(time: real, state: State, deriv: Derivative)
    requires Covers(deriv, state.Keys)
    ensures EulerStep(time, 0.0, state, deriv) == state
    ensures RK4Step(time, 0.0, state, deriv) == state
  {
  }

  /** With a derivative function that ignores time and state, RK4 and Euler agree. */
  lemma ConstantDerivativeRK4IsEuler(time: real, dt: real, state: State, c: State)
    requires state.Keys <= c.Keys
    ensures Covers((t, st) => c, state.Keys)
    ensures RK4Step(time, dt, state, (t, st) => c) == EulerStep(time, dt, state, (t, st) => c)
  {
    var deriv: Derivative := (t, st) => c;
    var k := RK4Slopes(time, dt, state, deriv);
    assert k == Slopes(c, c, c, c);
    var rk, eu := RK4Step(time, dt, state, deriv), EulerStep(time, dt, state, deriv);
    forall n | n in state
      ensures rk[n] == eu[n]
    {
      assert WeightedSlope(k, n) == c[n];
    }
  }

  /** A derivative function that ignores the state is sampled at t, twice at t + dt/2, and at t + dt. */
  lemma TimeOnlySlopes(time: real, dt: real, state: State, deriv: Derivative, f: real -> State)
    requires forall t: real, st: State :: deriv(t, st) == f(t)
    requires forall t :: state.Keys <= f(t).Keys
    ensures Covers(deriv, state.Keys)
    ensures RK4Slopes(time, dt, state, deriv) == Slopes(f(time), f(time + dt / 2.0), f(time + dt / 2.0), f(time + dt))
  {
  }

  /** Simpson's weighting `(a + 4 b + c) / 6` of three samples. */
  function SimpsonSlope(a: real, b: real, c: real): real {
    (a + 4.0 * b + c) / 6.0
  }

  /**
   * When the derivatives depend on time only, RK4 is Simpson's rule: the
   * slope each stock moves along is `(f(t) + 4 f(t + dt/2) +
   * f(t + dt)) / 6`.
   */
  lemma TimeOnlyDerivativeIsSimpson(time: real, dt: real, state: State, deriv: Derivative, f: real -> State, n: string)
    requires forall t: real, st: State :: deriv(t, st) == f(t)
    requires forall t :: state.Keys <= f(t).Keys
    requires n in state
    ensures Covers(deriv, state.Keys)
    ensures WeightedSlope(RK4Slopes(time, dt, state, deriv), n) ==
      SimpsonSlope(f(time)[n], f(time + dt / 2.0)[n], f(time + dt)[n])
  {
    TimeOnlySlopes(time, dt, state, deriv, f);
  }

  /** A solver's `step(time, dt, state, compute_derivatives)`. */
  type SolverStep = (real, real, State, Derivative) --> State

  /**
   * What the model needs of a solver: it steps every state whose stocks
   * the derivatives cover, and the new state has the same stock names.
   */
  ghost predicate IsSolver(f: SolverStep) {
    forall time: real, dt: real, state: State, deriv: Derivative ::
      Covers(deriv, state.Keys) ==> f.requires(time, dt, state, deriv) && f(time, dt, state, deriv).Keys == state.Keys
  }

  /** EulerSolver as a step function. */
  function EulerSolver(): (f: SolverStep)
    ensures IsSolver(f)
    ensures forall time: real, dt: real, state: State, deriv: Derivative ::
      Covers(deriv, state.Keys) ==> f(time, dt, state, deriv) == EulerStep(time, dt, state, deriv)
  {
    (time: real, dt: real, state: State, deriv: Derivative) requires Covers(deriv, state.Keys) => EulerStep(time, dt, state, deriv)
  }

  /** RK4Solver as a step function. */
  function RK4Solver(): (f: SolverStep)
    ensures IsSolver(f)
    ensures forall time: real, dt: real, state: State, deriv: Derivative ::
      Covers(deriv, state.Keys) ==> f(time, dt, state, deriv) == RK4Step(time, dt, state, deriv)
  {
    (time: real, dt: real, state: State, deriv: Derivative) requires Covers(deriv, state.Keys) => RK4Step(time, dt, state, deriv)
  }
}
