/**
 * The Model of mead/model.py: a registry of stocks keyed by name, an
 * append-only history of recorded states, and the run loop that records
 * the state at every time point and integrates between consecutive points.
 */
module Models {
  import opened Base
  import opened Solvers
  import opened Stocks

  /** The solvers a new model registers, by integration method. */
  function StandardSolvers(): (solvers: map<string, SolverStep>)
    ensures solvers.Keys == {"euler", "rk4"}
    ensures forall m :: m in solvers ==> IsSolver(solvers[m])
  {
    map["euler" := EulerSolver(), "rk4" := RK4Solver()]
  }

  /** The exception `_step` raises for any other method. */
  function UnknownMethod(m: string): Error {
    ValueError("Unknown integration method: " + m)
  }

  /** Every stock's inflows and outflows, by stock name. */
  type FlowTable<F> = map<string, (seq<F>, seq<F>)>

  /**
   * `_compute_derivatives` as a value: every stock's net flow at the given
   * time and state. `rate(f, time, state)` is the rate of flow f.
   */
  function Derivatives<F>(table: FlowTable<F>, rate: (F, real, State) -> real): (d: Derivative)
    ensures forall t: real, st: State :: d(t, st).Keys == table.Keys
    ensures forall keys :: keys <= table.Keys ==> Covers(d, keys)
  {
    (t: real, st: State) => map n | n in table :: NetRate(table[n].0, table[n].1, f => rate(f, t, st))
  }

  /**
   * One step of the run loop: the solver over the model's derivatives.
   * (States over other stock names than the model's do not arise; they are
   * left as they are.)
   */
  function ModelStep<F>(solver: SolverStep, dt: real, table: FlowTable<F>, rate: (F, real, State) -> real): (step: (real, State) -> State)
    requires IsSolver(solver)
    ensures forall t: real, s: State :: step(t, s).Keys == s.Keys
    ensures forall t: real, s: State {:trigger step(t, s)} :: s.Keys <= table.Keys ==>
      step(t, s) == solver(t, dt, s, Derivatives(table, rate))
  {
    (t: real, s: State) => SolverOnModel(solver, dt, table, rate, t, s)
  }

  /** The solver stepping state s at time t over the model's derivatives; other states are left as they are. */
  function SolverOnModel<F>(solver: SolverStep, dt: real, table: FlowTable<F>, rate: (F, real, State) -> real,
                            t: real, s: State): (r: State)
    requires IsSolver(solver)
    ensures r.Keys == s.Keys
  {
    if s.Keys <= table.Keys then
      assert Covers(Derivatives(table, rate), s.Keys);
      solver(t, dt, s, Derivatives(table, rate))
    else s
  }

  /**
   * The step of a run with the given method: the registered solver's model
   * step. An unknown method has none (the run stops at its first step), so
   * the states are then left as they are.
   */
  function RunStep<F>(solvers: map<string, SolverStep>, integration: string, dt: real, table: FlowTable<F>,
                      rate: (F, real, State) -> real): (step: (real, State) -> State)
    requires forall m :: m in solvers ==> IsSolver(solvers[m])
    ensures forall t: real, s: State :: step(t, s).Keys == s.Keys
  {
    if integration in solvers then ModelStep(solvers[integration], dt, table, rate) else (t: real, s: State) => s
  }

  /**
   * The states at the first `count` time points: the initial state, then
   * each state stepped from the previous one at time `(i - 1) * dt`.
   */
  function States(step: (real, State) -> State, dt: real, s0: State, count: nat): (r: seq<State>)
    requires forall t: real, s: State :: step(t, s).Keys == s.Keys
    ensures |r| == count
    ensures forall i :: 0 <= i < count ==> r[i].Keys == s0.Keys
    ensures count > 0 ==> r[0] == s0
    ensures forall i {:trigger step(TimeAt(i, dt), r[i])} :: 0 <= i < count - 1 ==> r[i + 1] == step(TimeAt(i, dt), r[i])
  {
    if count == 0 then []
    else if count == 1 then [s0]
    else
      var prev := States(step, dt, s0, count - 1);
      var r := prev + [step(TimeAt(count - 2, dt), prev[count - 2])];
      assert forall i :: 0 <= i < count - 1 ==> r[i] == prev[i];
      r
  }

  /** The time of point i: `i * dt`. */
  function TimeAt(i: int, dt: real): real {
    i as real * dt
  }

  /** `int(duration / dt) + 1` time points; `range` of a negative count is empty. */
  function PointCount(duration: real, dt: real): (count: nat)
    requires dt != 0.0
    ensures duration / dt >= 0.0 ==> (count - 1) as real <= duration / dt < count as real
    ensures -1.0 < duration / dt < 0.0 ==> count == 1
    ensures duration / dt <= -1.0 ==> count == 0
  {
    var n := Trunc(duration / dt) + 1;
    if n < 0 then 0 else n
  }

  /** `[i * dt for i in range(count)]` */
  function Times(count: nat, dt: real): (r: seq<real>)
    ensures |r| == count
    ensures forall i {:trigger r[i]} :: 0 <= i < count ==> r[i] == TimeAt(i, dt)
  {
    seq(count, i requires 0 <= i < count => TimeAt(i, dt))
  }

  /** The history once the given states have been recorded at times `i * dt`. */
  function Recorded(states: seq<State>, dt: real): (r: seq<(real, State)>)
    ensures |r| == |states|
    ensures forall i {:trigger r[i]} :: 0 <= i < |states| ==> r[i] == (TimeAt(i, dt), states[i])
  {
    var r := seq(|states|, i requires 0 <= i < |states| => (TimeAt(i, dt), states[i]));
    assert forall i :: 0 <= i < |states| ==> r[i].0 == TimeAt(i, dt) && r[i].1 == states[i];
    r
  }

  /**
   * The result columns after the given states have been recorded: the
   * `"time"` column holds the times and every stock's column starts empty;
   * each recorded state appends one row.
   */
  function Columns(keys: set<string>, states: seq<State>, times: seq<real>): map<string, seq<real>>
    requires forall i :: 0 <= i < |states| ==> states[i].Keys == keys
    decreases |states|
  {
    if |states| == 0 then map["time" := times] + map n | n in keys :: []
    else AppendRow(Columns(keys, states[..|states| - 1], times), states[|states| - 1])
  }

  /** One loop turn's `results[name].append(stock.value)` for every stock. */
  function AppendRow(results: map<string, seq<real>>, row: State): map<string, seq<real>> {
    map k | k in results :: if k in row then results[k] + [row[k]] else results[k]
  }

  /**
   * What the columns hold: `"time"` holds the times unless a stock of that
   * name replaced it, and each stock's column holds its value at every
   * recorded point, in order.
   */
  lemma {:induction false} ColumnsHold(keys: set<string>, states: seq<State>, times: seq<real>)
    requires forall i :: 0 <= i < |states| ==> states[i].Keys == keys
    ensures var c := Columns(keys, states, times);
      c.Keys == keys + {"time"} &&
      ("time" !in keys ==> c["time"] == times) &&
      (forall n :: n in keys ==> |c[n]| == |states|) &&
      (forall n, i {:trigger c[n][i]} :: n in keys && 0 <= i < |states| ==> c[n][i] == states[i][n])
    decreases |states|
  {
    if |states| > 0 {
      var prefix, last := states[..|states| - 1], states[|states| - 1];
      ColumnsHold(keys, prefix, times);
      AppendRowExtends(keys, Columns(keys, prefix, times), states);
    }
  }

  /** Appending a row to columns that hold a prefix of the states yields columns holding one state more. */
  lemma AppendRowExtends(keys: set<string>, c: map<string, seq<real>>, states: seq<State>)
    requires |states| > 0 && c.Keys == keys + {"time"}
    requires forall i :: 0 <= i < |states| ==> states[i].Keys == keys
    requires forall n :: n in keys ==> |c[n]| == |states| - 1
    requires forall n, i {:trigger c[n][i]} :: n in keys && 0 <= i < |states| - 1 ==> c[n][i] == states[i][n]
    ensures var c' := AppendRow(c, states[|states| - 1]);
      c'.Keys == keys + {"time"} &&
      ("time" !in keys ==> c'["time"] == c["time"]) &&
      (forall n :: n in keys ==> |c'[n]| == |states|) &&
      (forall n, i {:trigger c'[n][i]} :: n in keys && 0 <= i < |states| ==> c'[n][i] == states[i][n])
  {
    var last := states[|states| - 1];
    var c' := AppendRow(c, last);
    forall n, i | n in keys && 0 <= i < |states|
      ensures c'[n][i] == states[i][n]
    {
      assert c'[n] == c[n] + [last[n]];
      if i < |states| - 1 {
        assert c'[n][i] == c[n][i];
      }
    }
  }

  /** Every column has one entry per time point, and row 0 holds the initial values. */
  lemma ColumnsShape(keys: set<string>, states: seq<State>, dt: real)
    requires forall i :: 0 <= i < |states| ==> states[i].Keys == keys
    ensures var c := Columns(keys, states, Times(|states|, dt));
      c.Keys == keys + {"time"} &&
      (forall k :: k in c ==> |c[k]| == |states|) &&
      (forall n :: n in keys && |states| > 0 ==> c[n][0] == states[0][n]) &&
      ("time" !in keys ==> c["time"] == Times(|states|, dt))
  {
    ColumnsHold(keys, states, Times(|states|, dt));
  }

  /** Python's `int(duration / dt) + 1`: 17 points over 8 time units at dt 0.5, one point for a 0.4-unit run with dt 1. */
  lemma PointCountExamples()
    ensures PointCount(8.0, 0.5) == 17
    ensures PointCount(10.0, 1.0) == 11
    ensures PointCount(0.4, 1.0) == 1
    ensures PointCount(-3.0, 1.0) == 0
    ensures PointCount(-0.4, 1.0) == 1
  {
  }

  /**
   * With a positive dt a run has no points exactly when the duration is at
   * most -dt. `int()` truncates toward zero, so a duration strictly between
   * -dt and dt gives one point, a negative one included.
   */
  lemma PointCountEmpty(duration: real, dt: real)
    requires dt > 0.0
    ensures PointCount(duration, dt) == 0 <==> duration <= -dt
    ensures -dt < duration < dt ==> PointCount(duration, dt) == 1
  {
    var q := duration / dt;
    assert duration == q * dt;
    if duration <= -dt {
      assert (q + 1.0) * dt <= 0.0;
      assert q <= -1.0;
    } else {
      assert (q + 1.0) * dt > 0.0;
      assert q > -1.0;
    }
    if -dt < duration < dt {
      assert (q - 1.0) * dt < 0.0;
      assert -1.0 < q < 1.0;
    }
  }

  class Model<F> {
    const name: string
    const dt: real
    const solvers: map<string, SolverStep>
    var stocks: map<string, Stock<F>>
    var history: seq<(real, State)>

    /**
     * Every stock is registered under its own name (add_stock keys them
     * so), and every registered solver is one.
     */
    ghost predicate Valid()
      reads this
    {
      Named() && forall m :: m in solvers ==> IsSolver(solvers[m])
    }

    /** Every stock is registered under its own name, so no two names share a stock. */
    ghost predicate Named()
      reads this
    {
      forall n :: n in stocks ==> stocks[n].name == n
    }

    /** `Model(name, dt=0.25)`: no stocks, empty history, the Euler and RK4 solvers. */
    constructor(name: string, dt: real := 0.25)
      ensures this.name == name && this.dt == dt
      ensures solvers == StandardSolvers()
      ensures stocks == map[] && history == []
      ensures Valid()
    {
      this.name := name;
      this.dt := dt;
      solvers := StandardSolvers();
      stocks := map[];
      history := [];
    }

    /** `_get_state()`: every stock's current value. */
    function GetState(): (s: State)
      reads this, stocks.Values
      ensures s.Keys == stocks.Keys
    {
      map n | n in stocks :: stocks[n].currentValue
    }

    /** The state every reset returns to. */
    function InitialState(): (s: State)
      reads this
      ensures s.Keys == stocks.Keys
    {
      map n | n in stocks :: stocks[n].initialValue
    }

    /** Every stock's flows. */
    function Flows(): (t: FlowTable<F>)
      reads this, stocks.Values
      ensures t.Keys == stocks.Keys
    {
      map n | n in stocks :: (stocks[n].inflows, stocks[n].outflows)
    }

    /**
     * `add_stock(stock)`: ValueError and no change when the name is taken;
     * otherwise exactly this stock is added under its name.
     */
    method AddStock(stock: Stock<F>) returns (r: Result<()>)
      requires Valid()
      modifies this
      ensures Valid()
      ensures stock.name in old(stocks) ==>
        r == Err(ValueError("Stock '" + stock.name + "' already exists in model")) && stocks == old(stocks)
      ensures stock.name !in old(stocks) ==> r == Ok(()) && stocks == old(stocks)[stock.name := stock]
      ensures history == old(history)
    {
      if stock.name in stocks {
        return Err(ValueError("Stock '" + stock.name + "' already exists in model"));
      }
      stocks := stocks[stock.name := stock];
      return Ok(());
    }

    /** `reset()`: empty history and every stock back at its initial value; flows untouched. */
    method Reset()
      requires Valid()
      modifies this, stocks.Values
      ensures stocks == old(stocks) && history == []
      ensures GetState() == InitialState()
      ensures Flows() == old(Flows())
    {
      history := [];
      ResetStocks();
    }

    /** The loop of `reset`: `stock.reset()` for every stock. */
    method ResetStocks()
      modifies stocks.Values
      ensures stocks == old(stocks)
      ensures GetState() == InitialState()
      ensures Flows() == old(Flows())
    {
      var todo := stocks.Keys;
      while todo != {}
        invariant todo <= stocks.Keys
        invariant forall n :: n in stocks && n !in todo ==> stocks[n].currentValue == stocks[n].initialValue
        invariant forall n :: n in stocks ==>
          stocks[n].inflows == old(stocks[n].inflows) && stocks[n].outflows == old(stocks[n].outflows)
        decreases |todo|
      {
        var n :| n in todo;
        stocks[n].Reset();
        todo := todo - {n};
      }
    }

    /** `_compute_derivatives(time, state)`: every stock's net flow. */
    function ComputeDerivatives(rate: (F, real, State) -> real, time: real, state: State): (d: State)
      reads this, stocks.Values
      ensures d.Keys == stocks.Keys
      ensures d == Derivatives(Flows(), rate)(time, state)
    {
      map n | n in stocks :: stocks[n].NetFlow(rate, time, state)
    }

    /**
     * `_step(time, integration)`: ValueError and no change for an unknown
     * method; otherwise every stock takes the solver's new value for its name.
     */
    method Step(time: real, integration: string, rate: (F, real, State) -> real) returns (r: Result<()>)
      requires Valid()
      modifies stocks.Values
      ensures stocks == old(stocks) && Flows() == old(Flows())
      ensures integration !in solvers ==> r == Err(UnknownMethod(integration)) && GetState() == old(GetState())
      ensures integration in solvers ==>
        r == Ok(()) && GetState() == solvers[integration](time, dt, old(GetState()), Derivatives(old(Flows()), rate))
    {
      if integration !in solvers {
        return Err(UnknownMethod(integration));
      }
      var state := GetState();
      var deriv := Derivatives(Flows(), rate);
      var newState := solvers[integration](time, dt, state, deriv);
      SetValues(newState);
      return Ok(());
    }

    /** The loop of `_step`: `stock.set_value(new_state[name])` for every stock. */
    method SetValues(newState: State)
      requires Named()
      requires newState.Keys == stocks.Keys
      modifies stocks.Values
      ensures stocks == old(stocks)
      ensures GetState() == newState
      ensures Flows() == old(Flows())
    {
      var todo := stocks.Keys;
      while todo != {}
        invariant todo <= stocks.Keys
        invariant forall n :: n in stocks && n !in todo ==> stocks[n].currentValue == newState[n]
        invariant forall n :: n in stocks ==>
          stocks[n].inflows == old(stocks[n].inflows) && stocks[n].outflows == old(stocks[n].outflows)
        decreases |todo|
      {
        var n :| n in todo;
        stocks[n].SetValue(newState[n]);
        todo := todo - {n};
      }
    }

    /**
     * `_lookup_history(name, delay)`: IndexError on an empty history; 0.0
     * when the last time minus the delay is negative; otherwise the value
     * in the latest entry at or before that time (0.0 when the entry lacks
     * the name, or when no entry is early enough).
     */
    method LookupHistory(name: string, delay: real) returns (r: Result<real>)
      ensures r == HistoryLookup(history, name, delay)
    {
      if history == [] {
        return Err(IndexError);
      }
      var target := history[|history| - 1].0 - delay;
      if target < 0.0 {
        return Ok(0.0);
      }
      var i := |history|;
      while i > 0
        invariant 0 <= i <= |history|
        invariant ScanBack(history, i, target, name) == ScanBack(history, |history|, target, name)
        decreases i
      {
        var entry := history[i - 1];
        if entry.0 <= target {
          return Ok(if name in entry.1 then entry.1[name] else 0.0);
        }
        i := i - 1;
      }
      return Ok(0.0);
    }

    /**
     * `run(duration, integration)`: reset, then at each of the `int(duration /
     * dt) + 1` time points `i * dt` record the state in the history and the
     * result columns, and step to the next point except after the last one.
     * dt == 0 raises ZeroDivisionError after the reset; an unknown method
     * raises ValueError at the first step, so a single-point run does not.
     */
    method Run(duration: real, integration: string, rate: (F, real, State) -> real)
      returns (r: Result<map<string, seq<real>>>)
      requires Valid()
      modifies this, stocks.Values
      ensures stocks == old(stocks) && Flows() == old(Flows())
      ensures dt == 0.0 ==> r == Err(ZeroDivisionError) && history == [] && GetState() == InitialState()
      ensures dt != 0.0 ==>
        var count := PointCount(duration, dt);
        var states := States(RunStep(solvers, integration, dt, Flows(), rate), dt, InitialState(), count);
        if count >= 2 && integration !in solvers then
          r == Err(UnknownMethod(integration)) && history == [(0.0, InitialState())] && GetState() == InitialState()
        else
          r == Ok(Columns(stocks.Keys, states, Times(count, dt))) &&
          history == Recorded(states, dt) &&
          GetState() == (if count == 0 then InitialState() else states[count - 1])
    {
      Reset();
      if dt == 0.0 {
        return Err(ZeroDivisionError);
      }
      var count := PointCount(duration, dt);
      ghost var table, s0 := Flows(), InitialState();
      ghost var states := States(RunStep(solvers, integration, dt, table, rate), dt, s0, count);
      StatesFollowSolver(solvers, integration, dt, table, rate, s0, count, states);
      r := Simulate(count, integration, rate, table, states);
      assert InitialState() == s0;
    }

    /**
     * The loop of `run` over `count` time points from the current state,
     * given the states the solver passes through from it.
     */
    method Simulate(count: nat, integration: string, rate: (F, real, State) -> real,
                    ghost table: FlowTable<F>, ghost states: seq<State>)
      returns (r: Result<map<string, seq<real>>>)
      requires Valid() && history == [] && Flows() == table
      requires |states| == count && (count > 0 ==> states[0] == GetState())
      requires forall j :: 0 <= j < count ==> states[j].Keys == stocks.Keys
      requires integration in solvers ==> forall j :: 0 <= j < count - 1 ==>
        states[j + 1] == solvers[integration](TimeAt(j, dt), dt, states[j], Derivatives(table, rate))
      modifies this, stocks.Values
      ensures stocks == old(stocks) && Flows() == old(Flows())
      ensures count >= 2 && integration !in solvers ==>
        r == Err(UnknownMethod(integration)) && history == [(0.0, old(GetState()))] && GetState() == old(GetState())
      ensures !(count >= 2 && integration !in solvers) ==>
        r == Ok(Columns(stocks.Keys, states, Times(count, dt))) &&
        history == Recorded(states, dt) &&
        GetState() == (if count == 0 then old(GetState()) else states[count - 1])
    {
      var times := Times(count, dt);
      var results := map["time" := times] + map n | n in stocks :: [];
      assert results == Columns(stocks.Keys, states[..0], times);
      ghost var s0 := GetState();
      var i := 0;
      while i < count
        invariant 0 <= i <= count && stocks == old(stocks)
        invariant Progress(i, times, results, table, states)
        invariant integration !in solvers && count >= 2 ==> i == 0
        invariant i < count ==> GetState() == states[i]
        invariant i == count ==> GetState() == if count == 0 then s0 else states[count - 1]
        decreases count - i
      {
        var s;
        results, s := Turn(i, count, times, integration, rate, results, table, states);
        if s.Err? {
          return Err(s.error);
        }
        i := i + 1;
      }
      TakeAll(states);
      return Ok(results);
    }

    /**
     * The run has recorded its first i states, at times `j * dt`, in the
     * history and in the result columns.
     */
    ghost predicate Progress(i: nat, times: seq<real>, results: map<string, seq<real>>, table: FlowTable<F>, states: seq<State>)
      reads this, stocks.Values
      requires i <= |states|
    {
      Valid() && Flows() == table &&
      (forall j :: 0 <= j < |states| ==> states[j].Keys == stocks.Keys) &&
      history == Recorded(states[..i], dt) &&
      results == Columns(stocks.Keys, states[..i], times)
    }

    /**
     * Turn i of the loop of `run`: record point i in the history and the
     * columns, then step to point i + 1 unless i is the last point.
     */
    method Turn(i: nat, count: nat, times: seq<real>, integration: string, rate: (F, real, State) -> real,
                results: map<string, seq<real>>, ghost table: FlowTable<F>, ghost states: seq<State>)
      returns (results': map<string, seq<real>>, r: Result<()>)
      requires i < count == |states| == |times| && times[i] == TimeAt(i, dt)
      requires Progress(i, times, results, table, states)
      requires GetState() == states[i]
      requires i < count - 1 && integration in solvers ==>
        states[i + 1] == solvers[integration](times[i], dt, states[i], Derivatives(table, rate))
      requires integration !in solvers && count >= 2 ==> i == 0
      modifies this, stocks.Values
      ensures stocks == old(stocks)
      ensures Progress(i + 1, times, results', table, states)
      ensures r.Err? <==> i < count - 1 && integration !in solvers
      ensures r.Err? ==> r == Err(UnknownMethod(integration)) && history == [(0.0, states[0])]
      ensures GetState() == if r.Ok? && i < count - 1 then states[i + 1] else states[i]
    {
      RecordedNext(states, i, dt);
      ColumnsNext(stocks.Keys, states, i, times);
      if i == 0 {
        RecordedFirst(states, dt);
      }
      results' := Record(times[i], results);
      r := Ok(());
      if i < count - 1 {
        r := Step(times[i], integration, rate);
      }
    }

    /** One turn's recording: the state goes into the history and each stock's value into its column. */
    method Record(time: real, results: map<string, seq<real>>) returns (results': map<string, seq<real>>)
      modifies this
      ensures stocks == old(stocks) && GetState() == old(GetState()) && Flows() == old(Flows())
      ensures history == old(history) + [(time, GetState())]
      ensures results' == AppendRow(results, GetState())
    {
      var current := GetState();
      history := history + [(time, current)];
      results' := AppendRow(results, current);
    }
  }

  /** The prefix of a sequence up to its length is the whole of it. */
  lemma TakeAll<T>(s: seq<T>)
    ensures s[..|s|] == s
  {
  }

  /** Recording the state of point i extends the recorded prefix by one entry. */
  lemma RecordedNext(states: seq<State>, i: nat, dt: real)
    requires i < |states|
    ensures Recorded(states[..i + 1], dt) == Recorded(states[..i], dt) + [(TimeAt(i, dt), states[i])]
  {
  }

  /** The first recorded entry is at time 0. */
  lemma RecordedFirst(states: seq<State>, dt: real)
    requires |states| >= 1
    ensures Recorded(states[..1], dt) == [(0.0, states[0])]
  {
  }

  /** Appending the row of point i extends every column of the prefix by one entry. */
  lemma ColumnsNext(keys: set<string>, states: seq<State>, i: nat, times: seq<real>)
    requires i < |states|
    requires forall j :: 0 <= j < |states| ==> states[j].Keys == keys
    ensures Columns(keys, states[..i + 1], times) == AppendRow(Columns(keys, states[..i], times), states[i])
  {
    assert states[..i + 1][..i] == states[..i];
  }

  /** Each point of the run is the registered solver's step from the previous point at time `i * dt`. */
  lemma StatesFollowSolver<F>(solvers: map<string, SolverStep>, integration: string, dt: real, table: FlowTable<F>,
                              rate: (F, real, State) -> real, s0: State, count: nat, states: seq<State>)
    requires forall m :: m in solvers ==> IsSolver(solvers[m])
    requires s0.Keys == table.Keys
    requires states == States(RunStep(solvers, integration, dt, table, rate), dt, s0, count)
    ensures forall j :: 0 <= j < count ==> states[j].Keys == table.Keys
    ensures integration in solvers ==> forall j :: 0 <= j < count - 1 ==>
      states[j + 1] == solvers[integration](TimeAt(j, dt), dt, states[j], Derivatives(table, rate))
  {
    if integration in solvers {
      var step := ModelStep(solvers[integration], dt, table, rate);
      forall j | 0 <= j < count - 1
        ensures states[j + 1] == solvers[integration](TimeAt(j, dt), dt, states[j], Derivatives(table, rate))
      {
        assert states[j + 1] == step(TimeAt(j, dt), states[j]);
      }
    }
  }

  /**
   * The scan of reversed(history[..i]) for the latest entry at or before
   * `target`.
   */
  function ScanBack(history: seq<(real, State)>, i: nat, target: real, name: string): real
    requires i <= |history|
  {
    if i == 0 then 0.0
    else if history[i - 1].0 <= target then
      (if name in history[i - 1].1 then history[i - 1].1[name] else 0.0)
    else ScanBack(history, i - 1, target, name)
  }

  /** `_lookup_history` on a history value. */
  function HistoryLookup(history: seq<(real, State)>, name: string, delay: real): Result<real> {
    if history == [] then Err(IndexError)
    else
      var target := history[|history| - 1].0 - delay;
      if target < 0.0 then Ok(0.0) else Ok(ScanBack(history, |history|, target, name))
  }

  /** The scan returns the entry at index j when j is the latest entry at or before the target. */
  lemma {:induction false} ScanFindsLatest(history: seq<(real, State)>, i: nat, target: real, name: string, j: nat)
    requires j < i <= |history|
    requires history[j].0 <= target
    requires forall k :: j < k < i ==> history[k].0 > target
    ensures ScanBack(history, i, target, name) == if name in history[j].1 then history[j].1[name] else 0.0
    decreases i
  {
    if i - 1 != j {
      ScanFindsLatest(history, i - 1, target, name, j);
    }
  }

  /** With no entry at or before the target the scan yields 0.0. */
  lemma {:induction false} ScanFindsNothing(history: seq<(real, State)>, i: nat, target: real, name: string)
    requires i <= |history|
    requires forall k :: 0 <= k < i ==> history[k].0 > target
    ensures ScanBack(history, i, target, name) == 0.0
    decreases i
  {
    if i > 0 {
      ScanFindsNothing(history, i - 1, target, name);
    }
  }

  /**
   * A lookup whose target (last time minus delay) is not negative returns
   * the value recorded in the latest entry at or before the target.
   */
  lemma LookupLatest(history: seq<(real, State)>, name: string, delay: real, j: nat)
    requires j < |history|
    requires history[|history| - 1].0 - delay >= 0.0
    requires history[j].0 <= history[|history| - 1].0 - delay
    requires forall k :: j < k < |history| ==> history[k].0 > history[|history| - 1].0 - delay
    ensures HistoryLookup(history, name, delay) == Ok(if name in history[j].1 then history[j].1[name] else 0.0)
  {
    var target := history[|history| - 1].0 - delay;
    assert target >= history[j].0;
    ScanFindsLatest(history, |history|, target, name, j);
  }
}
