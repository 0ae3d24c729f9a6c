/**
 * The Stock of mead/symbols/stock.py: a value with lists of inflow and
 * outflow symbols. `rate(f)` stands for what `f.compute()` returns when
 * update calls it.
 */
module SymbolStocks {
  import opened Base
  import opened Stocks

  class Stock<F> {
    const name: string
    var value: real
    var inflows: seq<F>
    var outflows: seq<F>

    /** `Stock(name, initial_value)` (the initial value defaults to 0.0): no flows yet. */
    constructor(name: string, initialValue: real := 0.0)
      ensures this.name == name && value == initialValue
      ensures inflows == [] && outflows == []
    {
      this.name := name;
      value := initialValue;
      inflows := [];
      outflows := [];
    }

    /** `add_inflow(*flows)`: appends the flows in argument order; nothing else changes. */
    method AddInflow(flows: seq<F>)
      modifies this
      ensures inflows == old(inflows) + flows
      ensures outflows == old(outflows) && value == old(value)
    {
      for i := 0 to |flows|
        invariant inflows == old(inflows) + flows[..i]
        invariant outflows == old(outflows) && value == old(value)
      {
        inflows := inflows + [flows[i]];
      }
      assert flows[..|flows|] == flows;
    }

    /** `add_outflow(*flows)`: appends the flows in argument order; nothing else changes. */
    method AddOutflow(flows: seq<F>)
      modifies this
      ensures outflows == old(outflows) + flows
      ensures inflows == old(inflows) && value == old(value)
    {
      for i := 0 to |flows|
        invariant outflows == old(outflows) + flows[..i]
        invariant inflows == old(inflows) && value == old(value)
      {
        outflows := outflows + [flows[i]];
      }
      assert flows[..|flows|] == flows;
    }

    /** `update(dt)`: the value grows by `(sum of inflows - sum of outflows) * dt`, and is returned. */
    method Update(dt: real, rate: F -> real) returns (v: real)
      modifies this
      ensures value == old(value) + NetRate(inflows, outflows, rate) * dt && v == value
      ensures inflows == old(inflows) && outflows == old(outflows)
    {
      var totalIn := Sum(inflows, rate);
      var totalOut := Sum(outflows, rate);
      value := value + (totalIn - totalOut) * dt;
      v := value;
    }
  }

  /** A stock starts at 0.0 unless told otherwise, and a stock without flows keeps its value. */
  method UpdateWithoutFlows() returns (initial: real, after: real)
    ensures initial == 0.0 && after == 10.0
  {
    var unit := (f: string) => 1.0;
    var empty := new Stock<string>("empty");
    initial := empty.value;
    NoFlowsNoChange(unit);
    var s := new Stock<string>("test_stock", 10.0);
    after := s.Update(1.0, unit);
    after := s.Update(1.0, unit);
  }

  /** One unit inflow and one unit outflow cancel. */
  method UpdateBalanced() returns (after: real)
    ensures after == 10.0
  {
    var unit := (f: string) => 1.0;
    InAndOutCancel([], [], "births", unit);
    NoFlowsNoChange(unit);
    var s := new Stock<string>("population", 10.0);
    s.AddInflow(["births"]);
    s.AddOutflow(["deaths"]);
    assert NetRate(["births"], ["deaths"], unit) == NetRate(["births"], ["births"], unit);
    after := s.Update(1.0, unit);
  }

  /** Two unit inflows over dt = 1 add 2. */
  method UpdateTwoInflows() returns (after: real)
    ensures after == 12.0
  {
    var unit := (f: string) => 1.0;
    SingleFlow("births");
    NetRateWithInflow(["births"], [], "immigration", unit);
    assert NetRate(["births", "immigration"], [], unit) == 2.0;
    var s := new Stock<string>("population", 10.0);
    s.AddInflow(["births", "immigration"]);
    assert s.inflows == ["births", "immigration"] && s.outflows == [];
    after := s.Update(1.0, unit);
  }
}
