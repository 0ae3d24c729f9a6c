/**
 * EulerSolver of mead/solvers/euler.py for the step-indexed engine. The
 * step asks the stock for its net flow at the step and for a place to
 * record its value; mead/symbols/stock.py's Stock offers neither, so the
 * net flow is a parameter and the record goes to the Historical given
 * alongside the stock.
 */
module SymbolSolvers {
  import opened SymbolHistory
  import opened SymbolStocks

  class EulerSolver {
    const dt: real

    /** `EulerSolver(dt)`: the time step is fixed for the solver's lifetime. */
    constructor(dt: real)
      ensures this.dt == dt
    {
      this.dt := dt;
    }

    /**
     * `step(stock, step)`: the value grows by `netFlow * dt`, and the new
     * value is recorded, so it is the last entry of the stock's history.
     */
    method Step<F>(stock: Stock<F>, history: Historical, netFlow: real)
      modifies stock, history
      ensures stock.value == old(stock.value) + netFlow * dt
      ensures stock.inflows == old(stock.inflows) && stock.outflows == old(stock.outflows)
      ensures history.history == old(history.history) + [stock.value] && history.Last() == stock.value
    {
      stock.value := stock.value + netFlow * dt;
      history.Record(stock.value);
    }
  }

  /** A zero net flow leaves the value as it was and records it again. */
  method ZeroNetFlow(stock: Stock<string>, history: Historical)
    modifies stock, history
    ensures stock.value == old(stock.value) && history.Last() == old(stock.value)
    ensures stock.inflows == old(stock.inflows) && stock.outflows == old(stock.outflows)
  {
    var solver := new EulerSolver(0.25);
    solver.Step(stock, history, 0.0);
  }
}
