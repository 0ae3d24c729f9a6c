# mead in Dafny

mead is a system-dynamics library: models are built from stocks (accumulators) and flows (rates of change), and the library evaluates and advances them over time. This project models the library's evaluation core and proves properties of it. All arithmetic is over `real`. Callables supplied by a model's author (formulas, flow rates, derivative functions) are function parameters. So is the standard library's `copy.replace`, which Experiment applies to the model's elements.

The repository holds two generations of the engine. Both are modelled.

- **Context-based engine.**
  - `Core` (core.dfy) models the expression graph of `mead/core.py`, the components of `mead/components.py` and the Flow of `mead/flow.py`:
    - one `Expr` datatype;
    - `Eval`, which is `compute(context)`;
    - `Dependencies`;
    - the construction of equations by the operator methods.
  - Further modules:
    - `Utils` models `as_element` (utils.dfy).
    - `Flows` models Flow and goal_flow (flow.dfy).
    - `Tables` models the Table lookup (tables.dfy).
    - `Components` models the component constructors and their behaviour, plus the stateful Policy as a class (components.dfy).
    - `Solvers` models the Euler and RK4 integrators (solver.dfy).
    - `Stocks` models the Stock class (stock.dfy).
    - `Models` models the Model class with its stock registry, history and run loop (model.dfy).
    - `ModelExamples` holds the model's closed forms for one-stock models (model_examples.dfy).
- **Older step-indexed engine.**
  - `SymbolHistory` models Historical (symbols_historical.dfy).
  - `Symbols` models BaseSymbol, Constant, Delay and SmoothedAuxiliary as classes (symbols_symbol.dfy).
  - `SymbolStocks` models the symbols Stock (symbols_stock.dfy).
  - `SymbolFlows` models GoalFlow's formula (symbols_flows.dfy).
  - `SymbolSolvers` models solvers/euler.py (solvers_euler.dfy).
- **Two rules.**
  - `Experiments` models Experiment's variants and scenario generation (experiment.dfy).
  - `Inspection` models the Inspect show/hide filter and its configuration (inspect.dfy).

Exceptions that Python raises are the `Err` side of a `Result`. The modelled exceptions are KeyError, ValueError, RuntimeError, TypeError, AttributeError, ZeroDivisionError and IndexError.

The context is the engine's dictionary of `time`, `state`, `history_lookup` and `dt`. Each entry is optional, because the code reads some of them with `context[key]` and others with `context.get(key, default)`.

`mead/stock.py`'s Stock is not an Element. Expressions see it only as `StockObject(name, initial_value)`.

## Model

| member | source | states |
|---|---|---|
| Base.Trunc | mead/model.py:85 | `int(x)` truncates toward zero: `r <= x < r + 1` for `x >= 0`, and `r - 1 < x <= r` below 0 |
| Base.NatToString | mead/experiment.py:45 | `str(i)` is non-empty and all decimal digits, and only 0 is written with a leading 0 |
| Base.NatToStringRoundTrip | mead/experiment.py:45 | reading the digits of `str(n)` back gives n, so the text of a number identifies it |
| Core.ParseOpRoundTrip | mead/core.py:140-149 | the operator table accepts exactly the eight symbols `+ - * / > < >= <=`, each for its own operator |
| Core.OperatorSemantics | mead/core.py:175-183 | `/` by 0 gives 0.0 and otherwise an exact quotient; `+` and `-` are exact; each comparison gives 1.0 iff it holds and 0.0 iff it does not |
| Core.InitialContext | mead/components.py:473-482 | Initial's context: time 0, the given stocks at their initial values (an empty state without a model), a lookup answering 0.0, the live dt or 0.0 |
| Core.MakeEquation | mead/core.py:155-173 | an Equation boxes both operands, left before right, and raises the first boxing error; it is named `(<left> <op> <right>)`; an unknown operator raises ValueError |
| Core.BoxOperand | mead/core.py:155-165 | an Element is kept as it is; anything `float()` accepts (a number, a numeric string, an object with `__float__` or `__index__`) becomes `literal_<text>` with that float; a non-numeric string raises ValueError; anything else, a Stock included, raises TypeError |
| Core.StringOperands | mead/core.py:155-165 | `x + "2.5"` builds `(x + literal_2.5)` on the constant 2.5, and `x + "abc"` raises ValueError |
| Core.CombineComputes | mead/core.py:17-57 | each operator method succeeds iff the other side can be boxed, and otherwise raises the boxing error; it builds an Equation of the element and the boxed operand whose value is `a op b` of the operands' values, or the first evaluation failure |
| Core.CombineReflectedComputes | mead/core.py:20-39 | each reflected operator method succeeds iff the other side can be boxed, and otherwise raises the boxing error; it builds an Equation with the boxed operand on the LEFT, named `(<other> <op> <self>)`, whose value is `b op a` with b the other side's value and a the element's |
| Core.ReflectedSubtraction | mead/core.py:26-27 | `3 - x` builds `(literal_3 - x)` and computes 2 at x = 1, not -2 |
| Core.ReflectedDivision | mead/core.py:38-39 | `3 / x` computes 0.5 at x = 6, not 2 |
| Core.NegComputes | mead/core.py:41-42 | `-x` builds `literal_0 - x` and evaluates to `0 - x`, failing exactly when x fails |
| Core.DivisionByZeroIsZero | mead/core.py:180-181 | a division whose right operand evaluates to 0 yields exactly 0.0 and never fails |
| Core.EquationComputes | mead/core.py:175-183 | an Equation evaluates its left operand, then its right, then applies its operator |
| Core.BoxedNumberIsConstant | mead/core.py:156-165 | a boxed number is named `literal_<v>` and computes to v in every context |
| Core.EquationDependencies | mead/core.py:185-196 | the dependencies are exactly the non-literal operands, each at most once, at most two |
| Core.OperandDependencies | mead/core.py:185-196 | an operator applied to two elements builds an Equation that depends on exactly its non-literal operands |
| Core.LiteralOperandDependencies | mead/core.py:185-196 | an operator applied to an element and a number depends on the element alone (nothing when the element is a literal), since the number is boxed as a literal |
| Core.DependenciesExample | tests/test_core.py:80-99 | `aux + s2` depends on exactly its two operands, in either order, and `(aux + s2) * 2` depends on `aux + s2` alone |
| Core.AuxiliaryComputes | mead/core.py:106-118 | an Auxiliary computes its equation and its dependencies are exactly `[equation]` |
| Core.DefaultComputes | mead/core.py:59-62 | Element reads its state entry, 0.0 when it is absent and KeyError without a state; Constant ignores the context; Time reads the time with a 0.0 default |
| Utils.AsElement | mead/utils.py:5-12 | a number becomes `Constant("literal_<v>", v)`; an Element comes back unchanged; anything else, a Stock included, raises ValueError |
| Utils.NumberBecomesLiteral | mead/utils.py:7-8 | a coerced number is a literal and computes to itself in every context |
| Utils.BoxAgreesWithAsElement | mead/utils.py:7-10 | whatever as_element accepts, Equation's boxing turns into the same element; a value that only converts with `float()` is boxed by Equation but rejected by as_element |
| Utils.AsElementIdempotent | mead/utils.py:9-10 | applying as_element to its own result gives that result |
| Utils.AsElements | mead/components.py:185 | coercing a list succeeds iff every item coerces; it keeps the order, or returns the failure of some item |
| Flows.MakeFlow | mead/flow.py:13-15 | a Flow succeeds iff its equation coerces, raising that ValueError otherwise, and holds the coerced equation |
| Flows.FlowComputes | mead/flow.py:13-19 | a Flow computes what its coerced equation computes in the same context; a numeric flow computes its number |
| Flows.FlowOfEquation | mead/flow.py:13-19 | a Flow whose equation is an element computes exactly what that element computes |
| Flows.FlowDependencies | mead/flow.py:21-27 | a Flow depends on its equation, followed by the equation's own dependencies when it has any |
| Flows.NumericFlow | mead/flow.py:13-15 | `Flow("f", 5)` computes 5 in every context and depends only on `literal_5` |
| Flows.GoalFlowRejectsStock | mead/flow.py:30-38 | goal_flow as written raises TypeError for every Stock of mead/stock.py |
| Flows.GoalFlow | mead/flow.py:30-38 | goal_flow succeeds iff the stock and the adjustment time can be boxed, raising the stock's error first; it returns the Flow of `(target - stock) / adjustment_time` |
| Flows.GapComputes | mead/flow.py:36 | `target - stock`, with the stock read by name, computes `target - stock value` |
| Flows.QuotientComputes | mead/flow.py:37 | `gap / adjustment_time` computes the quotient, 0 for a zero adjustment time |
| Flows.GoalFlowBuilds | mead/flow.py:36-38 | with the stock read by name, goal_flow succeeds and returns the Flow of `(target - stock) / adjustment_time` |
| Flows.GoalFlowRate | mead/flow.py:36-38 | the corrected goal flow builds and computes `(target - stock) / adjustment_time`, which is 0 for a zero adjustment time |
| Flows.GapRateSign | mead/flow.py:36-37 | the goal rate is 0 at the target or for a zero adjustment time; with a positive adjustment time it is positive below the target and negative above it |
| Tables.InsertByX | mead/components.py:104 | inserting keeps the points sorted by x and puts the new point at a position where every later point has a strictly greater x, so after every point of its own x |
| Tables.InsertByXPermutes | mead/components.py:104 | inserting adds exactly the new point: the result is the old points plus it, as a multiset |
| Tables.InsertByXStable | mead/components.py:104 | among the points of any one x, the inserted point comes last and the others keep their order |
| Tables.SortByX | mead/components.py:104 | `sorted(points, key=x)` is sorted by x and has as many points as it was given |
| Tables.SortByXPermutes | mead/components.py:104 | the sorted points are a permutation of the given ones |
| Tables.SortByXStable | mead/components.py:104 | the sort is stable: for every x, the points with that x come out in the order they were given in |
| Tables.Lookup | mead/components.py:109-130 | the lookup succeeds iff there is at least one point; with none, reading the first point raises IndexError |
| Tables.LookupClamps | mead/components.py:113-116 | an input at or below the first x gives the first y; an input at or above the last x gives the last y |
| Tables.SearchFindsSegment | mead/components.py:119-128 | on sorted points the search returns the interpolation on the first segment that encloses the input |
| Tables.LookupInterpolates | mead/components.py:119-128 | an interior input is interpolated linearly on its segment, so `y1 + (v - x1)(y2 - y1)/(x2 - x1)`, and the result lies between y1 and y2 |
| Tables.Between | mead/components.py:128 | a linear interpolation lies between the segment's two y values |
| Tables.InteriorHasSegment | mead/components.py:119-130 | every input strictly between the first and the last x falls in some segment, so the 0.0 fallback is never reached for it |
| Tables.LookupAtBreakpoint | mead/components.py:113-128 | with strictly increasing x, each breakpoint maps to its own y |
| Tables.LookupExample | tests/test_components.py:71-84 | on (0,10), (5,20), (10,0), input 2 gives 14, 5 gives 20, -1 gives 10 and 11 gives 0 |
| Tables.LookupAtRepeatedX | mead/components.py:104-128 | at an x shared by two points the earlier one decides: (0,1), (5,2), (5,8), (10,0) gives 2 at 5, and with the two x=5 points swapped it gives 8 |
| Components.MakeDelay | mead/components.py:18-21 | Delay succeeds iff its delay time coerces, raising that ValueError otherwise; it keeps its input and the coerced delay time |
| Components.MakeSmooth | mead/components.py:50-60 | Smooth succeeds iff its target, smoothing time and initial value (0.0 by default) all coerce; a failure is the first failing argument's error; on success the fields are the coerced values |
| Components.DelayComputes | mead/components.py:18-33 | without a history lookup Delay raises RuntimeError; otherwise it returns the lookup of the input's name at the computed delay |
| Components.SmoothComputes | mead/components.py:62-82 | Smooth raises KeyError without a time; it gives the initial value at time 0; it raises KeyError without a lookup or a dt; otherwise it takes one smoothing step from its own value one dt ago toward the input |
| Components.SmoothValueRule | mead/components.py:76-82 | a zero smoothing time passes the input through; otherwise the step is `prev + (dt/st)(x - prev)`; it equals the input when `st == dt` and prev when the input equals prev |
| Components.SmoothValueBetween | mead/components.py:80-82 | with `0 <= dt/st <= 1` the smoothed value lies between prev and the input |
| Components.SmoothStaysBetween | mead/components.py:62-82 | a Smooth away from time 0 succeeds and lies between its lagged value and its input |
| Components.MakeTable | mead/components.py:98-107 | Table coerces its input, raising its error first; it raises ValueError iff there are fewer than 2 points; its points are sorted by x, a permutation of the given ones, and keep the given order among points of equal x |
| Components.TableClamps | mead/components.py:109-116 | a Table returns the first y at or below the first x, and the last y at or above the last x |
| Components.TableInterpolates | mead/components.py:118-128 | a Table interpolates linearly on the enclosing segment, between that segment's two y values |
| Components.SortExample | mead/components.py:104 | the points (0,10), (10,0), (5,20) sort to (0,10), (5,20), (10,0) |
| Components.TableExample | tests/test_components.py:71-84 | the Table of the test suite maps 2 to 14, 5 to 20, -1 to 10 and 11 to 0 |
| Components.MakeIfThenElse | mead/components.py:146-156 | IfThenElse succeeds iff its condition and both branches coerce; a failure is the first failing argument's error; on success the fields are the coerced values |
| Components.IfThenElseSelects | mead/components.py:158-163 | the true branch iff the condition is strictly positive; the false branch otherwise; a failing condition fails first |
| Components.IfThenElseZeroIsFalse | tests/test_components.py:42-44 | a condition of exactly 0 selects the false branch |
| Components.MakeMin | mead/components.py:181-185 | Min succeeds iff it has inputs and every input coerces; its inputs are then the coerced inputs, in order; with no inputs it raises ValueError; otherwise a failure is the first failing input's error |
| Components.MakeMax | mead/components.py:203-207 | Max succeeds iff it has inputs and every input coerces; its inputs are then the coerced inputs, in order; with no inputs it raises ValueError; otherwise a failure is the first failing input's error |
| Components.MinimumIsLeast | mead/components.py:188 | `min()` of a non-empty list is at most every value and equal to one of them |
| Components.MaximumIsGreatest | mead/components.py:210 | `max()` of a non-empty list is at least every value and equal to one of them |
| Components.MinComputes | mead/components.py:187-188 | Min succeeds iff every input does; its value is at most every input's and equals one; a failure is the first failing input's error, every earlier input having succeeded |
| Components.MaxComputes | mead/components.py:209-210 | Max succeeds iff every input does; its value is at least every input's and equals one; a failure is the first failing input's error, every earlier input having succeeded |
| Components.MakePulse | mead/components.py:225-235 | Pulse succeeds iff its start, duration and magnitude coerce; a failure is the first failing argument's error; on success the fields are the coerced values |
| Components.MakeStep | mead/components.py:263-273 | Step succeeds iff its start and both values coerce; a failure is the first failing argument's error; on success the fields are the coerced values |
| Components.MakeRamp | mead/components.py:300-312 | Ramp succeeds iff its start, end, slope and initial value (0.0 by default) coerce; a failure is the first failing argument's error; on success the fields are the coerced values |
| Components.PulseWindow | mead/components.py:237-245 | Pulse raises KeyError without a time; it gives the magnitude iff `start <= t < start + duration`, and 0 otherwise |
| Components.StepSwitches | mead/components.py:275-282 | Step raises KeyError without a time; it gives `before` iff `t < start`, and `after` otherwise |
| Components.RampComputes | mead/components.py:314-326 | Ramp reads the time with a 0.0 default: initial before the start, `initial + slope(t - start)` on `[start, end]`, and the value at the end afterwards |
| Components.RampContinuous | mead/components.py:321-326 | with start <= end the ramp is continuous at both ends, held outside them, and non-decreasing for a non-negative slope |
| Components.SmoothOfElements | mead/components.py:362-373 | Smooth's coercions leave the stages' Element arguments unchanged |
| Components.StageTimeComputes | mead/components.py:359 | the stage time `delay_time / n` computes to d/n, with the Equation's 0.0 for a zero divisor |
| Components.MakeDelay2 | mead/components.py:345-377 | Delay2 succeeds iff its input, delay time and initial value (0.0 by default) coerce; a failure is the first failing argument's error; on success its fields are the coerced values |
| Components.MakeDelay3 | mead/components.py:401-439 | Delay3 succeeds iff its input, delay time and initial value (0.0 by default) coerce; a failure is the first failing argument's error; on success its fields are the coerced values |
| Components.Delay2Structure | mead/components.py:345-377 | Delay2 chains `<name>_smooth1` on the input and `<name>_smooth2` on the first stage, both with time `delay_time / 2.0` and the same initial value |
| Components.Delay3Structure | mead/components.py:401-439 | Delay3 chains three stages, each on the previous one, with time `delay_time / 3.0` and the same initial value |
| Components.DelayStagesOutput | mead/components.py:437-439 | Delay2 outputs its second stage and Delay3 its third |
| Components.Delay2Computes | mead/components.py:359-377 | away from time 0, Delay2 smooths the input twice, each stage stepping from its own lagged value with time delay/2 |
| Components.Delay3Computes | mead/components.py:415-439 | away from time 0, Delay3 smooths the input three times, each stage with time delay/3 |
| Components.InitialComputes | mead/components.py:468-483 | Initial of a Stock is its initial value; of anything else, AttributeError once the element belongs to a model, and otherwise the input computed in the time-0 context |
| Components.InitialIgnoresContext | mead/components.py:473-482 | Initial depends on the live context only through its dt |
| Components.InitialReadsInitialValues | mead/components.py:469-479 | Initial of a Stock reads its initial value with or without a model, and an element read before it belongs to a model gives 0.0 |
| Components.InitialWithModelFails | mead/components.py:476 | Initial of an element that belongs to a model raises AttributeError, because Model has no `stocks` attribute |
| Components.InitialAsIntended | mead/components.py:468-483 | the corrected Initial: a Stock gives its initial value, and an element reads the model's stock values at time 0, 0.0 for a name that is not a stock |
| Components.InitialAsIntendedWithoutModel | mead/components.py:468-483 | without a model, Initial as written and as corrected agree |
| Components.PolicyMemoHit | mead/components.py:513-516 | a memoised time returns the memoised value and changes nothing |
| Components.PolicyExhausted | mead/components.py:518-521 | with no applications left, a new time answers 0 and changes nothing |
| Components.PolicyFires | mead/components.py:522-528 | a true condition at a new time spends exactly one application, answers `effect / dt` and memoises it |
| Components.PolicyRepeatable | mead/components.py:512-530 | a second compute in the same context gives the same answer and changes nothing |
| Components.PolicySpendsAtMostOne | mead/components.py:512-530 | a compute spends at most one application, never goes below 0 from a non-negative count, and never drops a memo entry |
| Components.UnlimitedNeverExhausts | mead/components.py:504-524 | a negative count (`-1`, "always") stays negative over any series of computes, so it never reaches 0 |
| Components.LimitedSpendsAtMostCount | mead/components.py:520-524 | a count n >= 0 ends between 0 and n over any series of computes |
| Components.Policy.constructor | mead/components.py:496-510 | a new Policy keeps its condition, effect and count, with an empty memo |
| Components.Policy.Compute | mead/components.py:512-530 | the result, and the counter and memo after the call, are PolicyCompute of the state before it |
| Components.MakePolicy | mead/components.py:496-510 | Policy succeeds iff its effect coerces, raising ValueError before any object exists; otherwise a fresh Policy with the coerced effect, the count (1 by default) and an empty memo |
| Solvers.AdvanceState | mead/solver.py:88-95 | `_advance_state` keeps the key set |
| Solvers.AdvanceByZero | mead/solver.py:88-95 | advancing by 0 is the identity |
| Solvers.AdvanceAdditive | mead/solver.py:88-95 | two advances along the same derivatives, by a and then b, equal one advance by a + b |
| Solvers.EulerStep | mead/solver.py:46-55 | Euler keeps the keys, and each stock becomes `x + d(time, state)[n] * dt` from one derivative evaluation |
| Solvers.RK4Slopes | mead/solver.py:74-79 | k1 is the derivative at (t, s), k2 at (t+dt/2, s+k1 dt/2), k3 at (t+dt/2, s+k2 dt/2) and k4 at (t+dt, s+k3 dt), and each covers the stocks |
| Solvers.RK4Step | mead/solver.py:81-86 | RK4 keeps the key set |
| Solvers.RK4ProportionalIsTaylor | mead/solver.py:66-86 | for a derivative `lam * x` of every stock, RK4 multiplies each stock by `1 + h + h^2/2 + h^3/6 + h^4/24` with `h = lam dt`, the Taylor polynomial of the exact growth |
| Solvers.ZeroStepIsIdentity | mead/solver.py:46-86 | a zero step leaves the state unchanged under both integrators |
| Solvers.ConstantDerivativeRK4IsEuler | mead/solver.py:74-86 | with a constant derivative function, RK4 and Euler give the same new state |
| Solvers.TimeOnlySlopes | mead/solver.py:74-79 | a derivative that ignores the state is sampled at t, twice at t + dt/2, and at t + dt |
| Solvers.TimeOnlyDerivativeIsSimpson | mead/solver.py:81-84 | for time-only derivatives, RK4's weighted slope is Simpson's rule |
| Solvers.EulerSolver | mead/solver.py:38-55 | EulerSolver is a solver (it keeps the keys of every covered state) and steps as EulerStep |
| Solvers.RK4Solver | mead/solver.py:58-86 | RK4Solver is a solver and steps as RK4Step |
| Stocks.NoFlowsNoChange | mead/stock.py:33-37 | without flows the net flow is 0 |
| Stocks.NetRateWithInflow | mead/stock.py:33-37 | a further inflow raises the net flow by exactly its rate |
| Stocks.NetRateWithOutflow | mead/stock.py:33-37 | a further outflow lowers the net flow by exactly its rate |
| Stocks.InAndOutCancel | mead/stock.py:33-37 | a flow that is both an inflow and an outflow cancels out |
| Stocks.SingleFlow | mead/stock.py:33-37 | a single inflow contributes its rate, and a single outflow minus its rate |
| Stocks.Stock.constructor | mead/stock.py:11-23 | a new stock is at its initial value, with no flows |
| Stocks.Stock.AddInflow | mead/stock.py:25-27 | appends exactly one inflow; the outflows and the value stay the same |
| Stocks.Stock.AddOutflow | mead/stock.py:29-31 | appends exactly one outflow; the inflows and the value stay the same |
| Stocks.Stock.SetValue | mead/stock.py:43-44 | the value becomes v; the flows stay and, being a constant, so does initial_value |
| Stocks.Stock.Reset | mead/stock.py:46-47 | the value returns to the initial value; the flows stay the same |
| Stocks.StockLifecycle | mead/stock.py:11-47 | a stock made at 100 with an inflow and an outflow is at 100, has net flow `births rate - deaths rate`, is at 42 after set_value(42) and back at 100 after reset |
| Models.StandardSolvers | mead/model.py:32-35 | a model knows exactly "euler" and "rk4", and both are solvers |
| Models.Derivatives | mead/model.py:63-69 | the derivatives have one entry per stock and cover every subset of the stocks |
| Models.ModelStep | mead/model.py:71-80 | a step keeps the stock names, and on the model's stocks it is the solver over the model's derivatives |
| Models.SolverOnModel | mead/model.py:75-77 | the solver's new state has the old state's stock names |
| Models.RunStep | mead/model.py:71-80 | the step of a run with a given method keeps the stock names |
| Models.States | mead/model.py:89-98 | `count` states: the first is the initial state, each next one is the step from the previous one at time `i * dt`, with the same stock names |
| Models.Times | mead/model.py:86 | `count` time points, point i at `i * dt` |
| Models.Recorded | mead/model.py:89-92 | the history holds `(i * dt, state i)` for every recorded point, in order |
| Models.ColumnsHold | mead/model.py:87-95 | the "time" column holds the times, and each stock's column holds its value at every point, in order |
| Models.AppendRowExtends | mead/model.py:94-95 | appending a row extends every stock column by one value |
| Models.ColumnsShape | mead/model.py:85-95 | every column has one entry per time point, and row 0 holds the initial values |
| Models.PointCountExamples | mead/model.py:85 | `int(duration / dt) + 1`: 17 points for 8 at dt 0.5, 11 for 10 at dt 1, 1 for 0.4 at dt 1, 1 for -0.4 at dt 1, none for -3 at dt 1 (none once duration <= -dt, 1 point for -dt < duration < 0) |
| Models.PointCount | mead/model.py:85 | `int(duration / dt) + 1` points: for a non-negative ratio the last point is the last multiple of dt within the duration; 1 point for a ratio in (-1, 0); none for a ratio at or below -1 |
| Models.PointCountEmpty | mead/model.py:85 | with dt > 0 there are no points iff `duration <= -dt`, and exactly one for `-dt < duration < dt` |
| Models.Model.constructor | mead/model.py:21-36 | a new model keeps its name and dt (0.25 by default), and has no stocks, an empty history and the Euler and RK4 solvers |
| Models.Model.GetState | mead/model.py:48-49 | `_get_state` has exactly the registered names |
| Models.Model.InitialState | mead/model.py:43-46 | the state a reset returns to has exactly the registered names |
| Models.Model.Flows | mead/model.py:63-69 | each registered stock's flows, by name |
| Models.Model.AddStock | mead/model.py:38-41 | a taken name raises ValueError and changes nothing; otherwise exactly this stock is added under its name |
| Models.Model.Reset | mead/model.py:43-46 | the history is emptied and every stock returns to its initial value; the flows and registry stay the same |
| Models.Model.ResetStocks | mead/model.py:45-46 | after the loop, every stock is at its initial value |
| Models.Model.ComputeDerivatives | mead/model.py:63-69 | every stock's net flow at the given time and state |
| Models.Model.Step | mead/model.py:71-80 | an unknown method raises ValueError with no change; otherwise every stock takes the solver's new value for its name |
| Models.Model.SetValues | mead/model.py:79-80 | after the loop, the state is exactly the new state |
| Models.Model.LookupHistory | mead/model.py:51-61 | `_lookup_history` raises IndexError on an empty history, and otherwise is HistoryLookup |
| Models.Model.Run | mead/model.py:82-100 | see below the table |
| Models.Model.Simulate | mead/model.py:89-98 | the loop records every point and steps after all but the last; with an unknown method it stops at the first step with ValueError |
| Models.Model.Turn | mead/model.py:89-98 | a loop turn records point i, then steps to point i + 1 unless i is the last point |
| Models.Model.Record | mead/model.py:91-95 | recording appends `(time, state)` to the history and a row to the columns, and changes no stock |
| Models.RecordedNext | mead/model.py:92 | recording point i extends the recorded history by exactly that entry |
| Models.RecordedFirst | mead/model.py:86-92 | the first recorded entry is at time 0 |
| Models.ColumnsNext | mead/model.py:94-95 | recording point i extends every column of the prefix by one entry |
| Models.StatesFollowSolver | mead/model.py:89-98 | each point of a run is the registered solver's step from the previous point at time `i * dt` |
| Models.ScanFindsLatest | mead/model.py:58-60 | the backward scan returns the latest entry at or before the target, or 0.0 when the entry lacks the name |
| Models.ScanFindsNothing | mead/model.py:58-61 | with no entry at or before the target, the scan gives 0.0 |
| Models.LookupLatest | mead/model.py:51-61 | a lookup with a non-negative target returns the value in the latest entry at or before it |
| ModelExamples.EulerRunStep | mead/model.py:75-77 | a run's step with "euler" is EulerSolver's step over the model's derivatives |
| ModelExamples.EulerRelaxStep | mead/solver.py:54-55 | Euler on a single stock whose net flow is `k (g - x)` moves it by `k (g - x) dt` |
| ModelExamples.Relaxation | mead/model.py:89-98 | such a run has `g - (g - x0)(1 - k dt)^i` at point i |
| ModelExamples.EulerRelaxation | mead/model.py:89-98 | an Euler run of a model whose only stock has net flow `k (g - x)` has `g - (g - x0)(1 - k dt)^i` at point i |
| ModelExamples.SingleOutflow | mead/stock.py:33-37 | a stock whose only flow is an outflow changes at minus that flow's rate |
| ModelExamples.SingleInflow | mead/stock.py:33-37 | a stock whose only flow is an inflow changes at that flow's rate |
| ModelExamples.CoolingRate | tests/examples/test_cooling.py:11-28 | the cooling model's only stock T has net flow `0.5 (0 - T)` |
| ModelExamples.FillRate | tests/test_model.py:52-75 | the goal-seeking model's only stock S has net flow `0.25 (1000 - S)` |
| ModelExamples.Cooling | tests/examples/test_cooling.py:11-28 | cooling at half the temperature with dt 0.5 gives `100 * 0.75^i` at point i: 100, 75, 56.25, ... |
| ModelExamples.GoalSeeking | tests/test_model.py:52-75 | goal seeking from 100 to 1000 with adjustment time 4 and dt 1 gives `1000 - 900 * 0.75^i` |
| ModelExamples.GoalSeekingAtTen | tests/test_model.py:52-75 | the goal-seeking run has `1000 - 900 * 59049 / 1048576`, 949.3178..., at point 10 |
| SymbolHistory.Historical.constructor | mead/symbols/historical.py:7-8 | a fresh record holds nothing |
| SymbolHistory.Historical.Record | mead/symbols/historical.py:10-12 | the value is appended; the earlier entries stay in place; last is the value |
| SymbolHistory.Historical.Last | mead/symbols/historical.py:14-18 | 0.0 for an empty history, otherwise the last entry |
| SymbolHistory.HistoryInOrder | mead/symbols/historical.py:7-18 | a fresh record's last value is 0; after recording 1.5 and -2.0 the history is `[1.5, -2.0]` and last is -2.0 |
| Symbols.BaseSymbol.constructor | mead/symbols/symbol.py:12-17 | result 0.0, no step computed yet, empty history |
| Symbols.BaseSymbol.Compute | mead/symbols/symbol.py:19-27 | a repeated step returns the cached result and changes nothing; otherwise the result becomes the formula's value (kept without a formula), the step is stored, and exactly one entry is recorded |
| Symbols.Constant.constructor | mead/symbols/symbol.py:68-73 | a Constant holds its value and its history starts as `[value]` |
| Symbols.Constant.Compute | mead/symbols/symbol.py:19-27 | a Constant computes its value at every step, and records it once more on a fresh step |
| Symbols.Window | mead/symbols/symbol.py:81-91 | the buffer has exactly `steps` entries; entry k is the input fed `steps - k` computes ago, or 0 before there was one |
| Symbols.WindowOfNothing | mead/symbols/symbol.py:81 | before any input the buffer is `[0.0] * steps` |
| Symbols.WindowSlides | mead/symbols/symbol.py:91 | feeding x drops the oldest value and appends x, as a full deque does |
| Symbols.Delay.constructor | mead/symbols/symbol.py:78-82 | a new Delay holds `steps` zeros, result 0.0 and an empty history |
| Symbols.Delay.Compute | mead/symbols/symbol.py:84-97 | see below the table |
| Symbols.DelayOfConstant | tests/symbols/test_delay.py:3-9 | a 2-step Delay of the constant 2 outputs 0, 0, 2, 2 at steps 0 to 3 |
| Symbols.SmoothStep | mead/symbols/symbol.py:114 | the lag keeps the fraction `1 - 1/tau` of the gap; tau = 1 reaches the target; tau >= 1 lands between the old result and the target |
| Symbols.LagShare | mead/symbols/symbol.py:114 | with tau >= 1, `d / tau` lies between 0 and d |
| Symbols.SmoothedGeometric | mead/symbols/symbol.py:107-120 | after k fresh steps toward a constant target the result is `target - (target - x0)(1 - 1/tau)^k` |
| Symbols.SmoothedAuxiliary.constructor | mead/symbols/symbol.py:101-105 | the result starts at 0.0, and tau defaults to 10 |
| Symbols.SmoothedAuxiliary.Compute | mead/symbols/symbol.py:107-120 | a repeated step changes nothing; tau 0 raises ZeroDivisionError with no change; otherwise the result becomes the lag step, the step is stored and the result recorded |
| Symbols.SmoothedExamples | mead/symbols/symbol.py:101-120 | with the default tau 10, a lag from 0 toward 10 gives 1; a repeated step gives 1 again and records nothing more; with tau 1 the lag reaches its target, 7, at once |
| SymbolStocks.Stock.constructor | mead/symbols/stock.py:5-9 | the value starts at the initial value (default 0.0), with no flows |
| SymbolStocks.Stock.AddInflow | mead/symbols/stock.py:11-13 | appends all given flows in argument order; the outflows and the value stay the same |
| SymbolStocks.Stock.AddOutflow | mead/symbols/stock.py:15-17 | appends all given flows in argument order; the inflows and the value stay the same |
| SymbolStocks.Stock.Update | mead/symbols/stock.py:19-23 | the value becomes `old + (sum in - sum out) * dt` and is returned; the flows stay the same |
| SymbolStocks.UpdateWithoutFlows | tests/symbols/test_stock.py:4-8 | a stock starts at 0.0 unless given a value, and one without flows stays at 10 over two updates |
| SymbolStocks.UpdateBalanced | tests/symbols/test_stock.py:29-42 | one unit inflow and one unit outflow leave 10 at 10 |
| SymbolStocks.UpdateTwoInflows | tests/symbols/test_stock.py:45-56 | two unit inflows over dt 1 take 10 to 12 |
| SymbolFlows.GoalSeekingRate | mead/symbols/flows.py:20-25 | see below the table |
| SymbolFlows.GoalFlowApproaches | mead/symbols/flows.py:20-25 | with `0 <= dt <= 1`, one step of the goal flow lands between the value and the goal: it never overshoots |
| SymbolSolvers.EulerSolver.constructor | mead/solvers/euler.py:9-10 | dt is fixed at construction, as a constant |
| SymbolSolvers.EulerSolver.Step | mead/solvers/euler.py:12-16 | the value grows by `net_flow * dt`; the new value is recorded and is the last history entry; the flows and dt stay the same |
| SymbolSolvers.ZeroNetFlow | mead/solvers/euler.py:12-16 | a zero net flow leaves the value and the flows as they were, and records the value again |
| Experiments.ValueList | mead/experiment.py:22-26 | a non-string iterable gives its items; anything else gives a one-element list |
| Experiments.ValueLists | mead/experiment.py:31 | one value list per variant, in order |
| Experiments.Prefixed | mead/experiment.py:33 | prefixing gives `|xs| * |ps|` tuples |
| Experiments.Product | mead/experiment.py:33 | the product has as many combinations as the product of the list lengths |
| Experiments.ProductAt | mead/experiment.py:33 | combination `a * P + q` is item a of the first list before combination q of the rest, so the last list varies fastest |
| Experiments.ProductIsChoices | mead/experiment.py:33 | a tuple is in the product iff it picks one item from every list, in order |
| Experiments.Assign | mead/experiment.py:39 | the attribute of e's entry is set, overwriting an old value; a new element is added at the end; no element appears twice |
| Experiments.AssignOther | mead/experiment.py:39 | assigning to e leaves every other element's changes as they were |
| Experiments.ChangesOf | mead/experiment.py:37-39 | a combination's changes have at most one entry per variant and no element twice |
| Experiments.ChangesMerge | mead/experiment.py:37-43 | an element has an entry iff some variant is of it; attr is set iff a variant of that element names it, to the value of the last such variant |
| Experiments.Replaced | mead/experiment.py:41-43 | one replaced element per entry of the changes, in order |
| Experiments.ScenarioList | mead/experiment.py:29-45 | one scenario per combination, scenario i named `<name>_<i>` |
| Experiments.ScenarioNamesDistinct | mead/experiment.py:45 | no two scenarios share a name |
| Experiments.ScenarioChanges | mead/experiment.py:33-45 | scenario i holds the replaced elements of the i-th combination's changes |
| Experiments.NoVariants | mead/experiment.py:31-45 | without variants there is exactly one scenario, `<name>_0`, and it changes nothing |
| Experiments.ProductExample | mead/experiment.py:33 | `[1,2] x [10,20,30]` gives six combinations, the second list varying fastest |
| Experiments.Experiment.constructor | mead/experiment.py:13-16 | a new experiment has no variants and no elements |
| Experiments.Experiment.AddVariant | mead/experiment.py:18-27 | the element is stored under its name, and one variant per keyword argument is appended in order, with its value list |
| Experiments.Experiment.Scenarios | mead/experiment.py:29-45 | one scenario per combination of the variants added so far, scenario i named `<name>_<i>` |
| Inspection.ShouldShow | mead/inspect.py:70-81 | with show_all, shown iff not hidden; else with hide_all, shown iff in show_attrs; else shown iff not hidden |
| Inspection.HidingWins | mead/inspect.py:77-81 | without either flag, hiding wins over showing, and a name mentioned nowhere is shown |
| Inspection.Names | mead/inspect.py:14-18 | the set of the names given |
| Inspection.InspectConfig.constructor | mead/inspect.py:8-12 | both sets empty and both flags off |
| Inspection.InspectConfig.Reset | mead/inspect.py:8-12 | calling `__init__` again restores both sets to empty and both flags to off |
| Inspection.InspectConfig.Show | mead/inspect.py:14-15 | the names join show_attrs, and nothing else changes |
| Inspection.InspectConfig.Hide | mead/inspect.py:17-18 | the names join hide_attrs, and nothing else changes |
| Inspection.AddingTwice | mead/inspect.py:14-18 | showing or hiding the same names twice is the same as doing it once |
| Inspection.ConfigExamples | tests/test_inspect.py:16-41 | with hide_all and `show("compute", "initial_value")` those two names are shown and `name` is not; after a reset and `hide("initial_value")` that name is hidden and others are shown |

Rows marked "see below the table":

- **Models.Model.Run**:
  - The registry and flows are unchanged.
  - `dt == 0` raises ZeroDivisionError after the reset.
  - Otherwise, for `int(duration / dt) + 1` points:
    - the history and the columns hold the state of every point at `i * dt`;
    - row 0 is the initial values;
    - each point is the solver's step from the one before.
  - An unknown method raises ValueError only when at least two points are run.
- **Symbols.Delay.Compute**:
  - A repeated step changes nothing and returns the cached result.
  - `steps == 0` raises IndexError and changes nothing.
  - Otherwise:
    - the result is the oldest buffered value, which is the input of `steps` fresh steps ago, or 0.0 before that;
    - the input is appended to the buffer;
    - the buffer keeps its length;
    - the step is stored and the result recorded.
- **SymbolFlows.GoalSeekingRate**:
  - Without max_rate it is `goal - value`.
  - With `max_rate >= 0` it stays within `[-max_rate, max_rate]`.
  - A difference already inside the bounds is returned unchanged.
  - With no max_rate, or a positive one, it is positive exactly below the goal and negative exactly above it.
  - A negative max_rate gives `-max_rate`.

## Left out

**Not modelled:**
- Plotting and the pandas DataFrame: `Model.run` returns the result columns as a map from column name to a sequence.
- Logging: it has no effect on results.
- The command line, the context-manager auto-registration and the package re-exports: these are plumbing.
- `mead/scenario.py` is not part of this model. It depends on a `deep_replace` that mead/utils.py does not define.
- The Inspect proxy: attribute forwarding, the `__class__` override, the metaclass, rendering and printing. Only the filter rule and its configuration are modelled. InspectConfig is a class-level singleton shared by every Inspect; here it is one object.
- `Function` is not modelled (mead/core.py:82-103). It wraps an arbitrary callable. The symbols `Flow` and `Auxiliary` add nothing to BaseSymbol, so BaseSymbol stands for them.
- BaseSymbol's arithmetic operators (`__add__`, `__float__` and the rest) are not modelled. They compute the symbol without a step, which Compute with `step == None` covers.
- `__repr__` and the text of numbers:
  - Element names, such as `literal_<v>` and `(<left> <op> <right>)`, take Python's text form of a number as a given string.
  - `str(i)` is modelled only for scenario numbers.
- IEEE-754 rounding: all arithmetic is exact.
- Components.Policy is modelled as a callable of its own (Components.Policy.Compute), not as an `Expr`. So it cannot be a Flow's equation, as in examples/policy.py:14-16, or an Equation operand, and `Policy.dependencies` (mead/components.py:532-534) is not modelled.

**Valid-input assumptions:**
- Python's `min`, `max` and `int()` are modelled on numbers only. The model's other arithmetic is written for reals. A model whose elements yield non-numbers is outside the model.
- Core.BoxOperand: an operand that `float()` converts (a numeric string, a Decimal, a Fraction, an object with `__float__` or `__index__`) is given as `Convertible(value, text)`: `value` is the float that `float()` returns and `text` is Python's `str()` of the operand. How `float()` parses a string is not modelled; a string it rejects is given as `NonNumericText`.
- Python compares and hashes Elements by identity. The model compares expressions by value. This makes a difference only for Equation.dependencies, where two structurally equal but distinct operands count once here.
- Core.EquationDependencies: the order of `list(set(deps))` (mead/core.py:196) follows Python's set iteration and is unspecified for any two distinct operands. The model lists the left operand first. Only the contents of the list are promised, and Core.DependenciesExample states them as a multiset.

**Parameterised out:**
- User callables are parameters, and the value each returns when called is the value the model uses. This covers:
  - formulas, flow rates and the input symbols of Delay and SmoothedAuxiliary;
  - `compute_derivatives`;
  - the history lookup in a context;
  - `copy.replace`, the standard library's function.
- Experiments assumes an element type that supports `__replace__`. `copy.replace` raises TypeError for an object without it (mead/experiment.py:2, 42), and no mead Element defines it, so with mead's own elements every scenario with a variant would raise.
- The older engine's Stock.update calls `f.compute()` on every flow (mead/symbols/stock.py:20-21). That call records the flow's value in its history and, for a Delay, advances its buffer. The model takes each flow's value as a parameter, so these side effects are not part of SymbolStocks.Stock.Update.
- The older engine's GoalFlow computes `float(self.goal)` (mead/symbols/flows.py:21), which calls the goal symbol's `compute()` without a step. That records the goal's value in its history and, for a Delay goal, advances its buffer. SymbolFlows.GoalSeekingRate takes the goal as a value, so these side effects are not part of it.
- Experiment.AddVariant takes the element's name alongside the element, because E is any type.
- Model stocks and registries hold flows of any type F. The rate is `rate(flow, time, state)`.

**Version drift between files, reported rather than reconciled:**
- mead/model.py builds the context `{"time", "state", "history"}` and calls `stock.net_flow(context)` with one argument (mead/model.py:63-69). mead/stock.py's `net_flow(time, state)` takes two arguments and calls `flow.rate`, which the Flow of mead/flow.py does not define. The model follows the stock side: a stock's net flow is the sum of `rate(f, time, state)`.
- No element reads the context key "history"; Delay and Smooth read "history_lookup" and "dt". So model.py's history lookup is modelled as a method of Model, and each element's context is a parameter.
- mead/solvers/euler.py calls `stock.net_flow(step)` and `stock.record(...)`, which mead/symbols/stock.py's Stock does not have. The net flow is therefore a parameter of Step, and the record goes to a Historical passed alongside the stock.
- The tests' `model.add`, `model.elements` and `Hold`, and the symbols package's `Computable` import, have no counterpart in the modelled files.
- tests/test_components.py:112-113 expects a Delay to start at its initial value. The code returns 0.0 before the history begins (mead/model.py:53-55), and the model follows the code.

**Deliberately weaker contracts:**
- Models.ModelStep: the contract states nothing about states whose stock names are not the model's. Such a state never arises in a run.
- Symbols.Delay.constructor: a negative `steps` raises ValueError in `deque(maxlen=...)`, and `nat` excludes it.
- Tables.LookupInterpolates: the contract is stated for sorted points, which is what Table's constructor guarantees. Unsorted points are not reachable through the Table class.

## Findings

| source | as written | input that shows it | evidently intended | confidence | as-written member | corrected member |
|---|---|---|---|---|---|---|
| mead/flow.py:36 | `gap = target - stock`: Element.__sub__ boxes the non-Element Stock with `float(stock)` | `goal_flow("f", Stock("s", 100), Constant("t", 10), 4)`: the Stock has no `__float__`, so TypeError | the rate `(target - stock value) / adjustment_time`, with the stock read by its name from the state | not executed | Flows.GoalFlowRejectsStock | Flows.GoalFlowRate |
| mead/components.py:476 | `self.model.stocks.values()` once the element belongs to a model | any Initial whose element has a model and whose input is not a Stock: Model stores its stocks in `_stocks` (mead/model.py:31), so AttributeError | the model's stocks at their initial values, read from `_stocks` | not executed | Components.InitialWithModelFails | Components.InitialAsIntended |
