/**
 * Flow and goal_flow (mead/flow.py; the Flow class of mead/components.py is
 * the same definition). A Flow is the `Flow` variant of `Core.Expr`.
 */
module Flows {
  import opened Base
  import opened Core
  import opened Utils

  /**
   * `Flow(name, equation)`: the equation is coerced, so a number becomes a
   * literal constant; anything as_element refuses raises its ValueError.
   */
  function MakeFlow(name: string, equation: Operand): (r: Result<Expr>)
    ensures r.Ok? <==> AsElement(equation).Ok?
    ensures r.Err? ==> r.error == AsElement(equation).error && r.error.ValueError?
    ensures r.Ok? ==> r.value == Flow(name, AsElement(equation).value)
  {
    var eq :- AsElement(equation);
    Ok(Flow(name, eq))
  }

  /** A Flow computes whatever its equation computes in the same context; a numeric flow computes its number. */
  lemma FlowComputes(name: string, equation: Operand, ctx: Context)
    requires MakeFlow(name, equation).Ok?
    ensures Eval(MakeFlow(name, equation).value, ctx) == Eval(AsElement(equation).value, ctx)
    ensures equation.Num? ==> Eval(MakeFlow(name, equation).value, ctx) == Ok(equation.value)
  {
  }

  /**
   * Flow.dependencies: the equation first, then the equation's own
   * dependencies when its class defines any.
   */
  lemma FlowDependencies(name: string, equation: Expr)
    ensures var deps := Dependencies(Flow(name, equation));
      deps.Some? && |deps.value| >= 1 && deps.value[0] == equation &&
      (Dependencies(equation).Some? ==> deps.value[1..] == Dependencies(equation).value) &&
      (Dependencies(equation).None? ==> deps.value == [equation])
  {
  }

  /** `Flow("f", 5)` computes 5 in every context and depends only on its literal. */
  lemma NumericFlow(ctx: Context)
    ensures MakeFlow("f", Num(5.0, "5")).Ok?
    ensures Eval(MakeFlow("f", Num(5.0, "5")).value, ctx) == Ok(5.0)
    ensures Dependencies(MakeFlow("f", Num(5.0, "5")).value) == Some([Constant("literal_5", 5.0)])
  {
    assert "literal_" + "5" == "literal_5";
    var lit := Constant("literal_5", 5.0);
    assert MakeFlow("f", Num(5.0, "5")) == Ok(Flow("f", lit));
    assert Dependencies(lit) == None;
    assert [lit] + [] == [lit];
  }

  /**
   * `goal_flow(name, stock, target, adjustment_time)` as written: the Flow
   * of `(target - stock) / adjustment_time`. The subtraction is
   * Element.__sub__ of the target, which boxes the stock like any operand.
   */
  function GoalFlow(name: string, stock: Operand, target: Expr, adjustmentTime: Operand): (r: Result<Expr>)
    requires !target.StockObject?
    ensures r.Ok? <==> BoxOperand(stock).Ok? && BoxOperand(adjustmentTime).Ok?
    ensures BoxOperand(stock).Err? ==> r == Err(BoxOperand(stock).error)
    ensures BoxOperand(stock).Ok? && BoxOperand(adjustmentTime).Err? ==> r == Err(BoxOperand(adjustmentTime).error)
    ensures r.Ok? ==> (
      var gap := Equation(EquationName(target, "-", BoxOperand(stock).value), target, Sub, BoxOperand(stock).value);
      r.value.Flow? && r.value.name == name && r.value.equation.Equation? &&
      r.value.equation.left == gap && r.value.equation.op == Div &&
      r.value.equation.right == BoxOperand(adjustmentTime).value)
  {
    CombineComputes(target, Sub, stock, Context(None, None, None, None));
    var gap :- Combine(target, Sub, stock);
    CombineComputes(gap, Div, adjustmentTime, Context(None, None, None, None));
    var rate :- Combine(gap, Div, adjustmentTime);
    MakeFlow(name, Elem(rate))
  }

  /**
   * A Stock of mead/stock.py is not an Element, so the subtraction cannot
   * box it: goal_flow raises TypeError for every Stock it is given.
   */
  lemma GoalFlowRejectsStock(name: string, stockName: string, initialValue: real, target: Expr, adjustmentTime: Operand)
    requires !target.StockObject?
    ensures GoalFlow(name, Elem(StockObject(stockName, initialValue)), target, adjustmentTime) == Err(TypeError)
  {
  }

  /**
   * The goal flow the code means: the stock is read through an Element of
   * the stock's name, which computes the stock's entry in the state.
   */
  function GoalFlowOn(name: string, stockName: string, target: Expr, adjustmentTime: Operand): Result<Expr>
    requires !target.StockObject?
  {
    GoalFlow(name, Elem(Element(stockName)), target, adjustmentTime)
  }

  /**
   * The corrected goal flow builds, and computes `(target - stock) /
   * adjustment_time` with the Equation division (0 for a zero adjustment
   * time), where the stock is its entry in the state (0.0 when absent).
   */
  lemma GoalFlowRate(name: string, stockName: string, target: Expr, adjustmentTime: Operand, ctx: Context, g: real, s: real, a: real)
    requires !target.StockObject?
    requires adjustmentTime.Num? || (adjustmentTime.Elem? && !adjustmentTime.e.StockObject?)
    requires Eval(target, ctx) == Ok(g)
    requires StateValue(stockName, ctx) == Ok(s)
    requires Eval(AsElement(adjustmentTime).value, ctx) == Ok(a)
    ensures GoalFlowOn(name, stockName, target, adjustmentTime).Ok?
    ensures Eval(GoalFlowOn(name, stockName, target, adjustmentTime).value, ctx) == Ok(if a == 0.0 then 0.0 else (g - s) / a)
  {
    GapComputes(stockName, target, ctx, g, s);
    var gap := Combine(target, Sub, Elem(Element(stockName))).value;
    QuotientComputes(gap, adjustmentTime, ctx, g - s, a);
    var rate := Combine(gap, Div, adjustmentTime).value;
    GoalFlowBuilds(name, stockName, target, adjustmentTime);
    FlowOfEquation(name, rate, ctx);
  }

  /** A Flow whose equation is already an Element computes exactly what that element computes. */
  lemma FlowOfEquation(name: string, equation: Expr, ctx: Context)
    ensures Eval(Flow(name, equation), ctx) == Eval(equation, ctx)
  {
  }

  /** The corrected goal flow is the Flow of the quotient of the gap by the adjustment time. */
  lemma GoalFlowBuilds(name: string, stockName: string, target: Expr, adjustmentTime: Operand)
    requires !target.StockObject?
    requires adjustmentTime.Num? || (adjustmentTime.Elem? && !adjustmentTime.e.StockObject?)
    ensures Combine(target, Sub, Elem(Element(stockName))).Ok?
    ensures var gap := Combine(target, Sub, Elem(Element(stockName))).value;
      !gap.StockObject? && Combine(gap, Div, adjustmentTime).Ok? &&
      GoalFlowOn(name, stockName, target, adjustmentTime) == Ok(Flow(name, Combine(gap, Div, adjustmentTime).value))
  {
    CombineComputes(target, Sub, Elem(Element(stockName)), Context(None, None, None, None));
    var gap := Combine(target, Sub, Elem(Element(stockName))).value;
    CombineComputes(gap, Div, adjustmentTime, Context(None, None, None, None));
  }

  /** `target - stock` computes the gap. */
  lemma GapComputes(stockName: string, target: Expr, ctx: Context, g: real, s: real)
    requires !target.StockObject?
    requires Eval(target, ctx) == Ok(g)
    requires StateValue(stockName, ctx) == Ok(s)
    ensures Combine(target, Sub, Elem(Element(stockName))).Ok?
    ensures Eval(Combine(target, Sub, Elem(Element(stockName))).value, ctx) == Ok(g - s)
  {
    CombineComputes(target, Sub, Elem(Element(stockName)), ctx);
    var gap := Combine(target, Sub, Elem(Element(stockName))).value;
    assert gap.right == Element(stockName);
    assert Eval(gap.right, ctx) == Ok(s);
  }

  /** `gap / adjustment_time` computes the Equation quotient. */
  lemma QuotientComputes(gap: Expr, adjustmentTime: Operand, ctx: Context, d: real, a: real)
    requires !gap.StockObject?
    requires adjustmentTime.Num? || (adjustmentTime.Elem? && !adjustmentTime.e.StockObject?)
    requires Eval(gap, ctx) == Ok(d)
    requires Eval(AsElement(adjustmentTime).value, ctx) == Ok(a)
    ensures Combine(gap, Div, adjustmentTime).Ok?
    ensures Eval(Combine(gap, Div, adjustmentTime).value, ctx) == Ok(if a == 0.0 then 0.0 else d / a)
  {
    CombineComputes(gap, Div, adjustmentTime, ctx);
    BoxAgreesWithAsElement(adjustmentTime);
    var rate := Combine(gap, Div, adjustmentTime).value;
    assert rate.right == AsElement(adjustmentTime).value;
  }

  /**
   * The goal flow's rate drives the stock toward the target: 0 when the
   * adjustment time is 0 or the stock is at target; with a positive
   * adjustment time, positive below the target and negative above it.
   */
  lemma GapRateSign(g: real, s: real, a: real)
    ensures a == 0.0 || s == g ==> (if a == 0.0 then 0.0 else (g - s) / a) == 0.0
    ensures a > 0.0 && s < g ==> (g - s) / a > 0.0
    ensures a > 0.0 && s > g ==> (g - s) / a < 0.0
  {
    if a > 0.0 && s > g {
      assert (s - g) / a > 0.0;
      assert (g - s) / a == -((s - g) / a);
    }
  }
}
