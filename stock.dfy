/**
 * The Stock of mead/stock.py: an accumulator with a current value and
 * the lists of flows that raise and lower it. The flows are of any type F;
 * `rate(f, time, state)` stands for `f.rate(time, state)`.
 */
module Stocks {
  import opened Base
  import opened Solvers

  /** `sum(inflow rates) - sum(outflow rates)`. */
  function NetRate<F>(inflows: seq<F>, outflows: seq<F>, rate: F -> real): real {
    Sum(inflows, rate) - Sum(outflows, rate)
  }

  /** Without flows the net rate is 0. */
  lemma NoFlowsNoChange<F>(rate: F -> real)
    ensures NetRate([], [], rate) == 0.0
  {
  }

  /** A further inflow raises the net rate by exactly that flow's rate. */
  lemma NetRateWithInflow<F>(inflows: seq<F>, outflows: seq<F>, f: F, rate: F -> real)
    ensures NetRate(inflows + [f], outflows, rate) == NetRate(inflows, outflows, rate) + rate(f)
  {
    SumAppend(inflows, f, rate);
  }

  /** A further outflow lowers the net rate by exactly that flow's rate. */
  lemma NetRateWithOutflow<F>(inflows: seq<F>, outflows: seq<F>, f: F, rate: F -> real)
    ensures NetRate(inflows, outflows + [f], rate) == NetRate(inflows, outflows, rate) - rate(f)
  {
    SumAppend(outflows, f, rate);
  }

  /** A flow that is both an inflow and an outflow cancels out. */
  lemma InAndOutCancel<F>(inflows: seq<F>, outflows: seq<F>, f: F, rate: F -> real)
    ensures NetRate(inflows + [f], outflows + [f], rate) == NetRate(inflows, outflows, rate)
  {
    SumAppend(inflows, f, rate);
    SumAppend(outflows, f, rate);
  }

  /** A single inflow or a single outflow contributes exactly its own rate, whatever the rate function. */
  lemma SingleFlow<F>(f: F)
    ensures forall rate: F -> real :: NetRate([f], [], rate) == rate(f)
    ensures forall rate: F -> real :: NetRate([], [f], rate) == -rate(f)
  {
    forall rate: F -> real
      ensures NetRate([f], [], rate) == rate(f) && NetRate([], [f], rate) == -rate(f)
    {
      NetRateWithInflow([], [], f, rate);
      NetRateWithOutflow([], [], f, rate);
    }
  }

  class Stock<F> {
    const name: string
    const initialValue: real
    var currentValue: real
    var inflows: seq<F>
    var outflows: seq<F>

    /** `Stock(name, initial_value)`: the value starts at the initial value, with no flows. */
    constructor(name: string, initialValue: real)
      ensures this.name == name && this.initialValue == initialValue
      ensures currentValue == initialValue
      ensures inflows == [] && outflows == []
    {
      this.name := name;
      this.initialValue := initialValue;
      currentValue := initialValue;
      inflows := [];
      outflows := [];
    }

    /** Appends one inflow; the outflows and the value stay as they were. */
    method AddInflow(flow: F)
      modifies this
      ensures inflows == old(inflows) + [flow]
      ensures outflows == old(outflows) && currentValue == old(currentValue)
    {
      inflows := inflows + [flow];
    }

    /** Appends one outflow; the inflows and the value stay as they were. */
    method AddOutflow(flow: F)
      modifies this
      ensures outflows == old(outflows) + [flow]
      ensures inflows == old(inflows) && currentValue == old(currentValue)
    {
      outflows := outflows + [flow];
    }

    /** `net_flow(time, state)`. */
    function NetFlow(rate: (F, real, State) -> real, time: real, state: State): real
      reads this
    {
      NetRate(inflows, outflows, f => rate(f, time, state))
    }

    /** The `value` property. */
    function Value(): real
      reads this
    {
      currentValue
    }

    /** `set_value(v)`: the value becomes v; the flows stay as they were. */
    method SetValue(v: real)
      modifies this
      ensures currentValue == v
      ensures inflows == old(inflows) && outflows == old(outflows)
    {
      currentValue := v;
    }

    /** `reset()`: the value returns to the initial value; the flows stay as they were. */
    method Reset()
      modifies this
      ensures currentValue == initialValue
      ensures inflows == old(inflows) && outflows == old(outflows)
    {
      currentValue := initialValue;
    }
  }

  /**
   * A new stock with an inflow and an outflow is at its initial value, its
   * net flow is the inflow's rate less the outflow's, and reset undoes any
   * set_value.
   */
  method StockLifecycle(rate: (string, real, State) -> real) returns (initial: real, net: real, afterSet: real, afterReset: real)
    ensures initial == 100.0 && afterSet == 42.0 && afterReset == 100.0
    ensures net == rate("births", 0.0, map[]) - rate("deaths", 0.0, map[])
  {
    var s := new Stock<string>("population", 100.0);
    initial := s.Value();
    s.AddInflow("births");
    s.AddOutflow("deaths");
    assert s.inflows == ["births"] && s.outflows == ["deaths"];
    NetRateWithInflow([], [], "births", f => rate(f, 0.0, map[]));
    NetRateWithOutflow(["births"], [], "deaths", f => rate(f, 0.0, map[]));
    net := s.NetFlow(rate, 0.0, map[]);
    s.SetValue(42.0);
    afterSet := s.Value();
    s.Reset();
    afterReset := s.Value();
  }
}
