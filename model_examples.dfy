/**
 * What a run computes for the one-stock models of the repository's
 * examples: a stock whose net flow is proportional to its distance from a
 * goal relaxes geometrically under the Euler solver.
 */
module ModelExamples {
  import opened Base
  import opened Solvers
  import opened Stocks
  import opened Models

  /** A run's step with the "euler" method is EulerSolver's step over the model's derivatives. */
  lemma EulerRunStep<F>(dt: real, table: FlowTable<F>, rate: (F, real, State) -> real, t: real, s: State)
    requires s.Keys == table.Keys
    ensures Covers(Derivatives(table, rate), s.Keys)
    ensures RunStep(StandardSolvers(), "euler", dt, table, rate)(t, s) == EulerStep(t, dt, s, Derivatives(table, rate))
  {
    var step := RunStep(StandardSolvers(), "euler", dt, table, rate);
    assert step == ModelStep(EulerSolver(), dt, table, rate);
    assert step(t, s) == EulerSolver()(t, dt, s, Derivatives(table, rate));
  }

  /** n is the model's only stock, and its net flow is `k * (g - value)` in every state over n. */
  ghost predicate NetFlowRelaxes<F>(table: FlowTable<F>, rate: (F, real, State) -> real, n: string, k: real, g: real) {
    table.Keys == {n} &&
    forall t: real, s: State :: s.Keys == {n} ==> Derivatives(table, rate)(t, s)[n] == k * (g - s[n])
  }

  /**
   * Euler on a single stock n whose net flow is `k * (g - value)` moves the
   * value by `k * (g - value) * dt`.
   */
  lemma EulerRelaxStep<F>(table: FlowTable<F>, rate: (F, real, State) -> real, n: string, k: real, g: real, dt: real)
    requires NetFlowRelaxes(table, rate, n, k, g)
    ensures forall t: real, s: State {:trigger RunStep(StandardSolvers(), "euler", dt, table, rate)(t, s)} ::
      s.Keys == {n} ==> RunStep(StandardSolvers(), "euler", dt, table, rate)(t, s).Keys == {n} &&
                        RunStep(StandardSolvers(), "euler", dt, table, rate)(t, s)[n] == s[n] + k * (g - s[n]) * dt
  {
    forall t: real, s: State | s.Keys == {n}
      ensures RunStep(StandardSolvers(), "euler", dt, table, rate)(t, s).Keys == {n}
      ensures RunStep(StandardSolvers(), "euler", dt, table, rate)(t, s)[n] == s[n] + k * (g - s[n]) * dt
    {
      EulerRelaxAt(table, rate, n, k, g, dt, t, s);
    }
  }

  /** EulerRelaxStep at one time and state. */
  lemma EulerRelaxAt<F>(table: FlowTable<F>, rate: (F, real, State) -> real, n: string, k: real, g: real, dt: real, t: real, s: State)
    requires table.Keys == {n} && s.Keys == {n}
    requires Derivatives(table, rate)(t, s)[n] == k * (g - s[n])
    ensures RunStep(StandardSolvers(), "euler", dt, table, rate)(t, s).Keys == {n}
    ensures RunStep(StandardSolvers(), "euler", dt, table, rate)(t, s)[n] == s[n] + k * (g - s[n]) * dt
  {
    EulerRunStep(dt, table, rate, t, s);
    EulerOnSingleton(t, dt, s, Derivatives(table, rate), n, k, g);
  }

  /** Euler on a state over n alone, whose rate at (t, s) is `k * (g - s[n])`. */
  lemma EulerOnSingleton(t: real, dt: real, s: State, d: Derivative, n: string, k: real, g: real)
    requires Covers(d, s.Keys) && s.Keys == {n}
    requires d(t, s)[n] == k * (g - s[n])
    ensures EulerStep(t, dt, s, d).Keys == {n}
    ensures EulerStep(t, dt, s, d)[n] == s[n] + k * (g - s[n]) * dt
  {
    var r := EulerStep(t, dt, s, d);
    assert n in s;
    assert r[n] == s[n] + d(t, s)[n] * dt;
    StepByEqualRates(s[n], d(t, s)[n], k * (g - s[n]), dt);
  }

  /** Equal rates over the same step give the same next value. */
  lemma StepByEqualRates(x: real, a: real, b: real, dt: real)
    requires a == b
    ensures x + a * dt == x + b * dt
  {
  }

  /** The relaxation step on a state over n alone whose value is v. */
  lemma RelaxOnce(step: (real, State) -> State, n: string, k: real, g: real, dt: real, t: real, s: State, v: real)
    requires forall t: real, s: State {:trigger step(t, s)} ::
      s.Keys == {n} ==> step(t, s).Keys == {n} && step(t, s)[n] == s[n] + k * (g - s[n]) * dt
    requires s.Keys == {n} && s[n] == v
    ensures step(t, s).Keys == {n} && step(t, s)[n] == v + k * (g - v) * dt
  {
    var x := s[n];
    assert step(t, s)[n] == x + k * (g - x) * dt;
  }

  /**
   * A run whose step moves a single stock n by `k * (g - value) * dt`: the
   * value at point i is `g - (g - x0) * (1 - k * dt)^i`.
   */
  lemma {:induction false} Relaxation(step: (real, State) -> State, n: string, k: real, g: real, dt: real, x0: real,
                                      c: real, count: nat, states: seq<State>, i: nat)
    requires c == 1.0 - k * dt
    requires forall t: real, s: State :: step(t, s).Keys == s.Keys
    requires forall t: real, s: State {:trigger step(t, s)} ::
      s.Keys == {n} ==> step(t, s).Keys == {n} && step(t, s)[n] == s[n] + k * (g - s[n]) * dt
    requires states == States(step, dt, map[n := x0], count)
    requires i < count
    ensures states[i].Keys == {n} && states[i][n] == Relaxed(g, x0, c, i)
  {
    if i == 0 {
      assert Relaxed(g, x0, c, 0) == x0;
    } else {
      Relaxation(step, n, k, g, dt, x0, c, count, states, i - 1);
      var v := Relaxed(g, x0, c, i - 1);
      var prev, t := states[i - 1], TimeAt(i - 1, dt);
      assert states[i] == step(t, prev);
      RelaxOnce(step, n, k, g, dt, t, prev, v);
      RelaxStep(g, x0, k, dt, c, i - 1);
    }
  }

  /**
   * An Euler run of a model with the single stock n, whose net flow is
   * `k * (g - value)`, from x0: the value at point i is `g - (g - x0) * (1 - k * dt)^i`.
   */
  lemma EulerRelaxation<F>(table: FlowTable<F>, rate: (F, real, State) -> real, n: string, k: real, g: real, dt: real,
                           x0: real, c: real, count: nat, states: seq<State>, i: nat)
    requires NetFlowRelaxes(table, rate, n, k, g)
    requires c == 1.0 - k * dt
    requires states == States(RunStep(StandardSolvers(), "euler", dt, table, rate), dt, map[n := x0], count)
    requires i < count
    ensures states[i].Keys == {n} && states[i][n] == Relaxed(g, x0, c, i)
  {
    EulerRelaxStep(table, rate, n, k, g, dt);
    Relaxation(RunStep(StandardSolvers(), "euler", dt, table, rate), n, k, g, dt, x0, c, count, states, i);
  }

  /** A stock whose only flow is the outflow f changes at minus f's rate. */
  lemma SingleOutflow<F>(table: FlowTable<F>, rate: (F, real, State) -> real, n: string, f: F)
    requires n in table && table[n] == ([], [f])
    ensures forall t: real, s: State :: Derivatives(table, rate)(t, s)[n] == -rate(f, t, s)
  {
    forall t: real, s: State
      ensures Derivatives(table, rate)(t, s)[n] == -rate(f, t, s)
    {
      SingleFlow(f);
    }
  }

  /** A stock whose only flow is the inflow f changes at f's rate. */
  lemma SingleInflow<F>(table: FlowTable<F>, rate: (F, real, State) -> real, n: string, f: F)
    requires n in table && table[n] == ([f], [])
    ensures forall t: real, s: State :: Derivatives(table, rate)(t, s)[n] == rate(f, t, s)
  {
    forall t: real, s: State
      ensures Derivatives(table, rate)(t, s)[n] == rate(f, t, s)
    {
      SingleFlow(f);
    }
  }

  /** Relaxing toward 0 scales the start by `c^i`, and each step by c. */
  lemma RelaxedFromZero(x0: real, c: real, i: nat)
    ensures Relaxed(0.0, x0, c, i) == x0 * Pow(c, i)
    ensures Relaxed(0.0, x0, c, i + 1) == c * Relaxed(0.0, x0, c, i)
  {
    assert Pow(c, i + 1) == c * Pow(c, i);
  }

  /** The flows of the cooling model: the stock "T" with the single outflow "cooling". */
  function CoolingTable(): FlowTable<string> {
    map["T" := ([], ["cooling"])]
  }

  /**
   * The cooling example: T starts at 100 and loses half its value per time
   * unit; with dt = 0.5 under Euler, T falls by a quarter at every point:
   * 100, 75, 56.25, ...
   */
  lemma Cooling(rate: (string, real, State) -> real, count: nat, states: seq<State>, i: nat)
    requires forall t: real, s: State :: "T" in s ==> rate("cooling", t, s) == 0.5 * s["T"]
    requires states == States(RunStep(StandardSolvers(), "euler", 0.5, CoolingTable(), rate), 0.5, map["T" := 100.0], count)
    requires i < count
    ensures states[i].Keys == {"T"} && states[i]["T"] == 100.0 * Pow(0.75, i)
  {
    var table := CoolingTable();
    CoolingRate(rate);
    EulerRelaxation(table, rate, "T", 0.5, 0.0, 0.5, 100.0, 0.75, count, states, i);
    RelaxedFromZero(100.0, 0.75, i);
  }

  /** The net flow of T is minus half its value. */
  lemma CoolingRate(rate: (string, real, State) -> real)
    requires forall t: real, s: State :: "T" in s ==> rate("cooling", t, s) == 0.5 * s["T"]
    ensures NetFlowRelaxes(CoolingTable(), rate, "T", 0.5, 0.0)
  {
    SingleOutflow(CoolingTable(), rate, "T", "cooling");
    forall t: real, s: State | s.Keys == {"T"}
      ensures Derivatives(CoolingTable(), rate)(t, s)["T"] == 0.5 * (0.0 - s["T"])
    {
      assert "T" in s;
      assert rate("cooling", t, s) == 0.5 * s["T"];
    }
  }

  /** The flows of the goal-seeking model: the stock "S" with the single inflow "fill". */
  function FillTable(): FlowTable<string> {
    map["S" := (["fill"], [])]
  }

  /**
   * The goal-seeking example: S starts at 100 and flows toward 1000 with
   * adjustment time 4; with dt = 1 under Euler, S at point i is
   * `1000 - 900 * 0.75^i`.
   */
  lemma GoalSeeking(rate: (string, real, State) -> real, count: nat, states: seq<State>, i: nat)
    requires forall t: real, s: State :: "S" in s ==> rate("fill", t, s) == (1000.0 - s["S"]) / 4.0
    requires states == States(RunStep(StandardSolvers(), "euler", 1.0, FillTable(), rate), 1.0, map["S" := 100.0], count)
    requires i < count
    ensures states[i].Keys == {"S"} && states[i]["S"] == 1000.0 - 900.0 * Pow(0.75, i)
  {
    FillRate(rate);
    EulerRelaxation(FillTable(), rate, "S", 0.25, 1000.0, 1.0, 100.0, 0.75, count, states, i);
    assert Relaxed(1000.0, 100.0, 0.75, i) == 1000.0 - 900.0 * Pow(0.75, i);
  }

  /** The goal-seeking run at point 10: `1000 - 900 * 0.75^10`, 949.3178... */
  lemma GoalSeekingAtTen(rate: (string, real, State) -> real, count: nat, states: seq<State>)
    requires forall t: real, s: State :: "S" in s ==> rate("fill", t, s) == (1000.0 - s["S"]) / 4.0
    requires states == States(RunStep(StandardSolvers(), "euler", 1.0, FillTable(), rate), 1.0, map["S" := 100.0], count)
    requires count > 10
    ensures states[10]["S"] == 1000.0 - 900.0 * 59049.0 / 1048576.0
  {
    GoalSeeking(rate, count, states, 10);
    ThreeQuartersToTheTenth();
  }

  lemma ThreeQuartersToTheTenth()
    ensures Pow(0.75, 10) == 59049.0 / 1048576.0
  {
  }

  /** The net flow of S is a quarter of its distance to 1000. */
  lemma FillRate(rate: (string, real, State) -> real)
    requires forall t: real, s: State :: "S" in s ==> rate("fill", t, s) == (1000.0 - s["S"]) / 4.0
    ensures NetFlowRelaxes(FillTable(), rate, "S", 0.25, 1000.0)
  {
    SingleInflow(FillTable(), rate, "S", "fill");
    forall t: real, s: State | s.Keys == {"S"}
      ensures Derivatives(FillTable(), rate)(t, s)["S"] == 0.25 * (1000.0 - s["S"])
    {
      assert "S" in s;
      assert rate("fill", t, s) == (1000.0 - s["S"]) / 4.0;
    }
  }
}
