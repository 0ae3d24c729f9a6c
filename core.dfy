/**
 * The expression graph of the context-based engine (mead/core.py together
 * with the components of mead/components.py and the Flow of mead/flow.py).
 *
 * Every element is a value of `Expr`; `Eval` is the `compute(context)`
 * method of each element class, and `Dependencies` its `dependencies`
 * property. A context is the dictionary the engine passes to `compute`;
 * each of its four entries may be missing, because the source reads some
 * of them with `context[key]` (a KeyError when absent) and others with
 * `context.get(key, default)`.
 */
module Core {
  import opened Base
  import Tables

  /** The eight operators an Equation accepts. */
  datatype Op = Add | Sub | Mul | Div | Gt | Lt | Ge | Le

  function OpSymbol(op: Op): string {
    match op
    case Add => "+"
    case Sub => "-"
    case Mul => "*"
    case Div => "/"
    case Gt => ">"
    case Lt => "<"
    case Ge => ">="
    case Le => "<="
  }

  /** Membership in the operator table `_OPERATORS`. */
  function ParseOp(s: string): Option<Op> {
    if s == "+" then Some(Add)
    else if s == "-" then Some(Sub)
    else if s == "*" then Some(Mul)
    else if s == "/" then Some(Div)
    else if s == ">" then Some(Gt)
    else if s == "<" then Some(Lt)
    else if s == ">=" then Some(Ge)
    else if s == "<=" then Some(Le)
    else None
  }

  /** The operator table knows exactly the eight symbols, each for its own operator. */
  lemma ParseOpRoundTrip(op: Op, s: string)
    ensures ParseOp(OpSymbol(op)) == Some(op)
    ensures ParseOp(s) == Some(op) ==> s == OpSymbol(op)
  {
  }

  function Truth(b: bool): real {
    if b then 1.0 else 0.0
  }

  /** Equation.compute once both operands are known: division by zero gives 0.0, comparisons give 1.0 or 0.0. */
  function ApplyOp(op: Op, a: real, b: real): real {
    if op == Div && b == 0.0 then 0.0
    else
      match op
      case Add => a + b
      case Sub => a - b
      case Mul => a * b
      case Div => a / b
      case Gt => Truth(a > b)
      case Lt => Truth(a < b)
      case Ge => Truth(a >= b)
      case Le => Truth(a <= b)
  }

  /** What each operator means: an exact quotient except for the zero divisor, and truth values for comparisons. */
  lemma OperatorSemantics(op: Op, a: real, b: real)
    ensures op == Div && b == 0.0 ==> ApplyOp(op, a, b) == 0.0
    ensures op == Div && b != 0.0 ==> ApplyOp(op, a, b) * b == a
    ensures op == Add ==> ApplyOp(op, a, b) - b == a
    ensures op == Sub ==> ApplyOp(op, a, b) + b == a
    ensures op == Gt ==> (ApplyOp(op, a, b) == 1.0 <==> a > b) && (ApplyOp(op, a, b) == 0.0 <==> a <= b)
    ensures op == Lt ==> (ApplyOp(op, a, b) == 1.0 <==> a < b) && (ApplyOp(op, a, b) == 0.0 <==> a >= b)
    ensures op == Ge ==> (ApplyOp(op, a, b) == 1.0 <==> a >= b) && (ApplyOp(op, a, b) == 0.0 <==> a < b)
    ensures op == Le ==> (ApplyOp(op, a, b) == 1.0 <==> a <= b) && (ApplyOp(op, a, b) == 0.0 <==> a > b)
  {
    match op
    case Gt => assert ApplyOp(op, a, b) == Truth(a > b);
    case Lt => assert ApplyOp(op, a, b) == Truth(a < b);
    case Ge => assert ApplyOp(op, a, b) == Truth(a >= b);
    case Le => assert ApplyOp(op, a, b) == Truth(a <= b);
    case _ =>
  }

  /** The evaluation context: "time", "state", "history_lookup" and "dt", each possibly absent. */
  datatype Context = Context(
    time: Option<real>,
    state: Option<map<string, real>>,
    lookup: Option<(string, real) -> real>,
    dt: Option<real>)

  /**
   * The model elements. `Element` is a plain Element, whose compute is the
   * default state lookup. `StockObject` is a Stock of mead/stock.py, which
   * is not an Element: it has a name and an initial value but no compute
   * method and no operators, so it can only be read by name (Delay) or by
   * initial value (Initial). The Delay2 and Delay3 variants carry the Smooth
   * stages their constructors build. Initial's `modelStocks` stands for the
   * element's `model` attribute: None before the element is attached to a
   * model, otherwise the initial values of that model's stocks.
   */
  datatype Expr =
    | Element(name: string)
    | StockObject(name: string, initialValue: real)
    | Constant(name: string, value: real)
    | Auxiliary(name: string, equation: Expr)
    | Time(name: string)
    | Equation(name: string, left: Expr, op: Op, right: Expr)
    | Delay(name: string, input: Expr, delayTime: Expr)
    | Smooth(name: string, target: Expr, smoothingTime: Expr, initial: Expr)
    | Table(name: string, input: Expr, points: seq<Tables.Point>)
    | IfThenElse(name: string, condition: Expr, whenTrue: Expr, whenFalse: Expr)
    | Min(name: string, inputs: seq<Expr>)
    | Max(name: string, inputs: seq<Expr>)
    | Pulse(name: string, start: Expr, duration: Expr, magnitude: Expr)
    | Step(name: string, start: Expr, before: Expr, after: Expr)
    | Ramp(name: string, start: Expr, end: Expr, slope: Expr, initial: Expr)
    | Delay2(name: string, input: Expr, delayTime: Expr, initial: Expr, smooth1: Expr, smooth2: Expr)
    | Delay3(name: string, input: Expr, delayTime: Expr, initial: Expr, smooth1: Expr, smooth2: Expr, smooth3: Expr)
    | Initial(name: string, input: Expr, modelStocks: Option<map<string, real>>)
    | Flow(name: string, equation: Expr)

  /** Element.compute: the element's entry in the state, 0.0 when the state has none. */
  function StateValue(name: string, ctx: Context): Result<real> {
    var state :- Need(ctx.state, KeyError("state"));
    Ok(if name in state then state[name] else 0.0)
  }

  /** The first exception among the results, or all their values. */
  function AllOk(rs: seq<Result<real>>): (r: Result<seq<real>>)
    ensures r.Ok? ==> |r.value| == |rs| && forall i :: 0 <= i < |rs| ==> rs[i] == Ok(r.value[i])
    ensures r.Err? ==>
      exists i :: 0 <= i < |rs| && rs[i] == Err(r.error) && forall j :: 0 <= j < i ==> rs[j].Ok?
  {
    if rs == [] then Ok([])
    else
      var first :- rs[0];
      assert forall i :: 1 <= i < |rs| ==> rs[i] == rs[1..][i - 1];
      match AllOk(rs[1..])
      case Err(e) =>
        var k :| 0 <= k < |rs[1..]| && rs[1..][k] == Err(e) && forall j :: 0 <= j < k ==> rs[1..][j].Ok?;
        assert rs[k + 1] == Err(e) && forall j :: 0 <= j < k + 1 ==> rs[j].Ok?;
        Err(e)
      case Ok(rest) => Ok([first] + rest)
  }

  /** Python's min() over values; ValueError when there are none. */
  function Minimum(vs: seq<real>): Result<real> {
    if vs == [] then Err(ValueError("min() arg is an empty sequence"))
    else if |vs| == 1 then Ok(vs[0])
    else
      var m :- Minimum(vs[1..]);
      Ok(if vs[0] <= m then vs[0] else m)
  }

  /** Python's max() over values; ValueError when there are none. */
  function Maximum(vs: seq<real>): Result<real> {
    if vs == [] then Err(ValueError("max() arg is an empty sequence"))
    else if |vs| == 1 then Ok(vs[0])
    else
      var m :- Maximum(vs[1..]);
      Ok(if vs[0] >= m then vs[0] else m)
  }

  /**
   * `compute(context)` of every element class. Each case hands the results
   * of its sub-elements to the rule of its class below; since evaluation
   * has no side effects, computing a sub-element whose result the rule then
   * ignores (the branch IfThenElse does not take, say) changes nothing.
   */
  function Eval(e: Expr, ctx: Context): Result<real>
    decreases e
  {
    match e
    case Element(name) => StateValue(name, ctx)
    case StockObject(_, _) => Err(AttributeError("compute"))
    case Constant(_, value) => Ok(value)
    case Auxiliary(_, equation) => Eval(equation, ctx)
    case Time(_) => Ok(ctx.time.GetOr(0.0))
    case Equation(_, left, op, right) => EquationRule(op, Eval(left, ctx), Eval(right, ctx))
    case Delay(_, input, delayTime) => DelayRule(input.name, ctx, Eval(delayTime, ctx))
    case Smooth(name, target, smoothingTime, initial) =>
      SmoothRule(name, ctx, Eval(target, ctx), Eval(smoothingTime, ctx), Eval(initial, ctx))
    case Table(_, input, points) => TableRule(points, Eval(input, ctx))
    case IfThenElse(_, condition, whenTrue, whenFalse) =>
      IfThenElseRule(Eval(condition, ctx), Eval(whenTrue, ctx), Eval(whenFalse, ctx))
    case Min(_, inputs) => MinRule(AllOk(seq(|inputs|, i requires 0 <= i < |inputs| => Eval(inputs[i], ctx))))
    case Max(_, inputs) => MaxRule(AllOk(seq(|inputs|, i requires 0 <= i < |inputs| => Eval(inputs[i], ctx))))
    case Pulse(_, start, duration, magnitude) =>
      PulseRule(ctx, Eval(start, ctx), Eval(duration, ctx), Eval(magnitude, ctx))
    case Step(_, start, before, after) => StepRule(ctx, Eval(start, ctx), Eval(before, ctx), Eval(after, ctx))
    case Ramp(_, start, end, slope, initial) =>
      RampRule(ctx, Eval(start, ctx), Eval(end, ctx), Eval(slope, ctx), Eval(initial, ctx))
    case Delay2(_, _, _, _, _, smooth2) => Eval(smooth2, ctx)
    case Delay3(_, _, _, _, _, _, smooth3) => Eval(smooth3, ctx)
    case Initial(_, input, modelStocks) =>
      if input.StockObject? then Ok(input.initialValue)
      else if modelStocks.Some? then Err(AttributeError("stocks"))
      else Eval(input, InitialContext(modelStocks, ctx))
    case Flow(_, equation) => Eval(equation, ctx)
  }

  /** Equation.compute: the left operand's failure first, then the right one's, then the operator. */
  function EquationRule(op: Op, a: Result<real>, b: Result<real>): Result<real> {
    if a.Err? then Err(a.error)
    else if b.Err? then Err(b.error)
    else Ok(ApplyOp(op, a.value, b.value))
  }

  /** Delay.compute: RuntimeError without a history lookup, else the lookup of the input's name at the delay. */
  function DelayRule(inputName: string, ctx: Context, d: Result<real>): Result<real> {
    if ctx.lookup.None? then Err(RuntimeError("Delay element requires a 'history_lookup' function in the context."))
    else if d.Err? then Err(d.error)
    else Ok(ctx.lookup.value(inputName, d.value))
  }

  /** One step of first-order smoothing from `prev` toward `x`; a zero smoothing time passes the input through. */
  function SmoothValue(prev: real, dt: real, st: real, x: real): real {
    if st == 0.0 then x else prev + (dt / st) * (x - prev)
  }

  /**
   * Smooth.compute: KeyError without a time; the initial value at time 0;
   * otherwise KeyError without a lookup or a dt, then the input, then the
   * smoothing time, and one smoothing step from the element's own value one
   * dt ago.
   */
  function SmoothRule(name: string, ctx: Context, x: Result<real>, st: Result<real>, initial: Result<real>): Result<real> {
    if ctx.time.None? then Err(KeyError("time"))
    else if ctx.time.value == 0.0 then initial
    else if ctx.lookup.None? then Err(KeyError("history_lookup"))
    else if ctx.dt.None? then Err(KeyError("dt"))
    else if x.Err? then Err(x.error)
    else if st.Err? then Err(st.error)
    else Ok(SmoothValue(ctx.lookup.value(name, ctx.dt.value), ctx.dt.value, st.value, x.value))
  }

  /** Table.compute: the input's failure, or the lookup of its value. */
  function TableRule(points: seq<Tables.Point>, x: Result<real>): Result<real> {
    if x.Err? then Err(x.error) else Tables.Lookup(points, x.value)
  }

  /** IfThenElse.compute: the true branch iff the condition is strictly positive. */
  function IfThenElseRule(c: Result<real>, t: Result<real>, f: Result<real>): Result<real> {
    if c.Err? then Err(c.error) else if c.value > 0.0 then t else f
  }

  /** Min.compute: the first failing input, else Python's min(). */
  function MinRule(vs: Result<seq<real>>): Result<real> {
    if vs.Err? then Err(vs.error) else Minimum(vs.value)
  }

  /** Max.compute: the first failing input, else Python's max(). */
  function MaxRule(vs: Result<seq<real>>): Result<real> {
    if vs.Err? then Err(vs.error) else Maximum(vs.value)
  }

  /** Pulse.compute: KeyError without a time; the magnitude inside `[start, start + duration)`, else 0. */
  function PulseRule(ctx: Context, s: Result<real>, d: Result<real>, m: Result<real>): Result<real> {
    if ctx.time.None? then Err(KeyError("time"))
    else if s.Err? then Err(s.error)
    else if d.Err? then Err(d.error)
    else if m.Err? then Err(m.error)
    else Ok(if s.value <= ctx.time.value < s.value + d.value then m.value else 0.0)
  }

  /** Step.compute: KeyError without a time; `before` strictly before the start, `after` from it on. */
  function StepRule(ctx: Context, s: Result<real>, before: Result<real>, after: Result<real>): Result<real> {
    if ctx.time.None? then Err(KeyError("time"))
    else if s.Err? then Err(s.error)
    else if ctx.time.value < s.value then before
    else after
  }

  /** Ramp.compute: the time with a 0.0 default, the four parameters in order, then the piecewise rule. */
  function RampRule(ctx: Context, s: Result<real>, f: Result<real>, k: Result<real>, v0: Result<real>): Result<real> {
    if s.Err? then Err(s.error)
    else if f.Err? then Err(f.error)
    else if k.Err? then Err(k.error)
    else if v0.Err? then Err(v0.error)
    else Ok(RampValue(ctx.time.GetOr(0.0), s.value, f.value, k.value, v0.value))
  }

  /** The piecewise rule of Ramp.compute. */
  function RampValue(time: real, start: real, end: real, slope: real, initial: real): real {
    if time < start then initial
    else if start <= time <= end then initial + slope * (time - start)
    else initial + slope * (end - start)
  }

  /**
   * The synthetic context Initial evaluates its input in: time 0, every
   * stock of the owning model at its initial value (an empty state before
   * the element belongs to a model), a history lookup that answers 0.0,
   * and the live context's dt (0.0 when it has none). Eval builds it only
   * without a model: with one, reading `self.model.stocks` fails first.
   */
  function InitialContext(modelStocks: Option<map<string, real>>, ctx: Context): (r: Context)
    ensures r.time == Some(0.0) && r.state == Some(modelStocks.GetOr(map[]))
    ensures r.lookup.Some? && forall n, d :: r.lookup.value(n, d) == 0.0
    ensures r.dt == Some(ctx.dt.GetOr(0.0))
  {
    Context(Some(0.0), Some(modelStocks.GetOr(map[])), Some((n: string, d: real) => 0.0), Some(ctx.dt.GetOr(0.0)))
  }

  // ---------------------------------------------------------------------
  // Construction of equations (Equation.__init__ and the operator methods)
  // ---------------------------------------------------------------------

  /**
   * A Python value handed to an operator or a constructor. Each kind carries
   * the text Python prints for it where that text names a boxed literal.
   *  - Elem: an object of the model, an Element or a Stock as `Elem(StockObject(..))`;
   *  - Num: an int or a float;
   *  - Convertible: any other value `float()` accepts, with the float it
   *    gives: a numeric string, a Decimal, a Fraction, an object with
   *    `__float__` or `__index__`;
   *  - NonNumericText: a string `float()` rejects;
   *  - Other: any other value, which `float()` refuses with TypeError.
   */
  datatype Operand =
    | Elem(e: Expr)
    | Num(value: real, text: string)
    | Convertible(value: real, text: string)
    | NonNumericText(text: string)
    | Other

  /**
   * Equation's boxing of one operand: an Element as is, anything else
   * through `float(x)`. That gives a number or any float-convertible value
   * the literal `literal_<x>`, raises ValueError for a string that is not a
   * number, and raises TypeError for a Stock or any other object.
   */
  function BoxOperand(x: Operand): (r: Result<Expr>)
    ensures r.Ok? <==> x.Num? || x.Convertible? || (x.Elem? && !x.e.StockObject?)
    ensures x.Elem? && r.Ok? ==> r.value == x.e
    ensures x.Num? || x.Convertible? ==> r == Ok(Constant("literal_" + x.text, x.value))
    ensures x.NonNumericText? ==> r.Err? && r.error.ValueError?
    ensures x.Other? || (x.Elem? && x.e.StockObject?) ==> r == Err(TypeError)
  {
    match x
    case Elem(e) => if e.StockObject? then Err(TypeError) else Ok(e)
    case Num(v, text) => Ok(Constant("literal_" + text, v))
    case Convertible(v, text) => Ok(Constant("literal_" + text, v))
    case NonNumericText(text) => Err(ValueError("could not convert string to float: '" + text + "'"))
    case Other => Err(TypeError)
  }

  /** The name an Equation gives itself. */
  function EquationName(left: Expr, opText: string, right: Expr): string {
    "(" + left.name + " " + opText + " " + right.name + ")"
  }

  /** `Equation(left, op, right)`: boxes both operands, names itself, then rejects an unknown operator. */
  function MakeEquation(left: Operand, opText: string, right: Operand): (r: Result<Expr>)
    ensures BoxOperand(left).Err? ==> r == Err(BoxOperand(left).error)
    ensures BoxOperand(left).Ok? && BoxOperand(right).Err? ==> r == Err(BoxOperand(right).error)
    ensures BoxOperand(left).Ok? && BoxOperand(right).Ok? ==>
      (r.Ok? <==> ParseOp(opText).Some?) &&
      (r.Err? ==> r.error.ValueError?)
    ensures r.Ok? ==>
      r.value.Equation? &&
      r.value.left == BoxOperand(left).value && r.value.right == BoxOperand(right).value &&
      Some(r.value.op) == ParseOp(opText) &&
      r.value.name == "(" + r.value.left.name + " " + opText + " " + r.value.right.name + ")"
  {
    var l :- BoxOperand(left);
    var rt :- BoxOperand(right);
    var name := EquationName(l, opText, rt);
    match ParseOp(opText)
    case None => Err(ValueError("Unknown operator: " + opText))
    case Some(op) => Ok(Equation(name, l, op, rt))
  }

  /** `self <op> other` for `__add__`, `__sub__`, `__mul__`, `__truediv__`, `__gt__`, `__lt__`, `__ge__`, `__le__`. */
  function Combine(self: Expr, op: Op, other: Operand): Result<Expr>
    requires !self.StockObject?
  {
    MakeEquation(Elem(self), OpSymbol(op), other)
  }

  /** `other <op> self` for `__radd__`, `__rsub__`, `__rmul__`, `__rtruediv__`. */
  function CombineReflected(self: Expr, op: Op, other: Operand): Result<Expr>
    requires !self.StockObject? && op in {Add, Sub, Mul, Div}
  {
    MakeEquation(other, OpSymbol(op), Elem(self))
  }

  /** `-self`, built as `Equation(0, "-", self)`. */
  function Neg(self: Expr): Result<Expr>
    requires !self.StockObject?
  {
    MakeEquation(Num(0.0, "0"), "-", Elem(self))
  }

  /**
   * An operator method succeeds iff `float()` accepts the other side or it
   * is an Element, and then computes `a op b`; otherwise it raises the
   * boxing's error.
   */
  lemma CombineComputes(self: Expr, op: Op, other: Operand, ctx: Context)
    requires !self.StockObject?
    ensures Combine(self, op, other).Ok? <==> BoxOperand(other).Ok?
    ensures BoxOperand(other).Err? ==> Combine(self, op, other) == Err(BoxOperand(other).error)
    ensures Combine(self, op, other).Ok? ==>
      var eq := Combine(self, op, other).value;
      eq.left == self && eq.op == op && eq.right == BoxOperand(other).value &&
      (Eval(self, ctx).Ok? && Eval(eq.right, ctx).Ok? ==>
        Eval(eq, ctx) == Ok(ApplyOp(op, Eval(self, ctx).value, Eval(eq.right, ctx).value)))
  {
    ParseOpRoundTrip(op, OpSymbol(op));
  }

  /**
   * A reflected operator method (`other <op> self` with a non-Element on
   * the left) succeeds iff the other side can be boxed, and otherwise
   * raises the boxing's error. The boxed operand is the LEFT operand, so
   * the value is `b op a` with b the other side and a the element.
   */
  lemma CombineReflectedComputes(self: Expr, op: Op, other: Operand, ctx: Context)
    requires !self.StockObject? && op in {Add, Sub, Mul, Div}
    ensures CombineReflected(self, op, other).Ok? <==> BoxOperand(other).Ok?
    ensures BoxOperand(other).Err? ==> CombineReflected(self, op, other) == Err(BoxOperand(other).error)
    ensures CombineReflected(self, op, other).Ok? ==>
      var eq := CombineReflected(self, op, other).value;
      eq.left == BoxOperand(other).value && eq.op == op && eq.right == self &&
      eq.name == "(" + eq.left.name + " " + OpSymbol(op) + " " + self.name + ")" &&
      (Eval(eq.left, ctx).Ok? && Eval(self, ctx).Ok? ==>
        Eval(eq, ctx) == Ok(ApplyOp(op, Eval(eq.left, ctx).value, Eval(self, ctx).value)))
  {
    ParseOpRoundTrip(op, OpSymbol(op));
  }

  /**
   * `3 - x` reaches `x.__rsub__(3)`: it builds `(literal_3 - x)` and
   * computes `3 - x`, not `x - 3`.
   */
  lemma ReflectedSubtraction()
    ensures CombineReflected(Element("x"), Sub, Num(3.0, "3")) ==
      Ok(Equation("(literal_3 - x)", Constant("literal_3", 3.0), Sub, Element("x")))
    ensures Eval(CombineReflected(Element("x"), Sub, Num(3.0, "3")).value, Context(None, Some(map["x" := 1.0]), None, None)) == Ok(2.0)
  {
    assert OpSymbol(Sub) == "-" && ParseOp("-") == Some(Sub);
    assert "literal_" + "3" == "literal_3";
    var three := Constant("literal_3", 3.0);
    assert BoxOperand(Num(3.0, "3")) == Ok(three);
    assert "(" + "literal_3" + " " + "-" + " " + "x" + ")" == "(literal_3 - x)";
    var sub := CombineReflected(Element("x"), Sub, Num(3.0, "3")).value;
    var c1 := Context(None, Some(map["x" := 1.0]), None, None);
    assert Eval(Element("x"), c1) == Ok(1.0);
    assert Eval(sub, c1) == EquationRule(Sub, Ok(3.0), Ok(1.0));
  }

  /** `3 / x` reaches `x.__rtruediv__(3)` and computes `3 / x`, not `x / 3`. */
  lemma ReflectedDivision()
    ensures Eval(CombineReflected(Element("x"), Div, Num(3.0, "3")).value, Context(None, Some(map["x" := 6.0]), None, None)) == Ok(0.5)
  {
    assert OpSymbol(Div) == "/" && ParseOp("/") == Some(Div);
    assert "literal_" + "3" == "literal_3";
    var three := Constant("literal_3", 3.0);
    assert BoxOperand(Num(3.0, "3")) == Ok(three);
    var div := CombineReflected(Element("x"), Div, Num(3.0, "3")).value;
    assert div.left == three && div.right == Element("x") && div.op == Div;
    var c6 := Context(None, Some(map["x" := 6.0]), None, None);
    assert Eval(Element("x"), c6) == Ok(6.0);
    assert Eval(div, c6) == EquationRule(Div, Ok(3.0), Ok(6.0));
  }

  /**
   * Negation builds the Equation `literal_0 - self` and evaluates to `0 - x`,
   * failing exactly as its operand fails.
   */
  lemma NegComputes(self: Expr, ctx: Context)
    requires !self.StockObject?
    ensures Neg(self).Ok?
    ensures var n := Neg(self).value;
      n.Equation? && n.left == Constant("literal_0", 0.0) && n.op == Sub && n.right == self
    ensures Eval(self, ctx).Ok? ==> Eval(Neg(self).value, ctx) == Ok(0.0 - Eval(self, ctx).value)
    ensures Eval(self, ctx).Err? ==> Eval(Neg(self).value, ctx) == Eval(self, ctx)
  {
    assert "literal_" + "0" == "literal_0";
    assert BoxOperand(Num(0.0, "0")) == Ok(Constant("literal_0", 0.0));
    assert ParseOp("-") == Some(Sub);
    ZeroMinus(self, ctx, Neg(self).value.name);
  }

  /** `0 - e` under any name. */
  lemma ZeroMinus(e: Expr, ctx: Context, name: string)
    ensures Eval(e, ctx).Ok? ==> Eval(Equation(name, Constant("literal_0", 0.0), Sub, e), ctx) == Ok(0.0 - Eval(e, ctx).value)
    ensures Eval(e, ctx).Err? ==> Eval(Equation(name, Constant("literal_0", 0.0), Sub, e), ctx) == Eval(e, ctx)
  {
    assert Eval(Equation(name, Constant("literal_0", 0.0), Sub, e), ctx) == EquationRule(Sub, Ok(0.0), Eval(e, ctx));
  }

  /** Division whose right operand evaluates to 0 yields exactly 0.0 instead of failing. */
  lemma DivisionByZeroIsZero(left: Operand, right: Operand, ctx: Context)
    requires MakeEquation(left, "/", right).Ok?
    requires Eval(BoxOperand(left).value, ctx).Ok?
    requires Eval(BoxOperand(right).value, ctx) == Ok(0.0)
    ensures Eval(MakeEquation(left, "/", right).value, ctx) == Ok(0.0)
  {
  }

  /** An Equation evaluates both operands, left first, and applies its operator. */
  lemma EquationComputes(left: Operand, opText: string, right: Operand, ctx: Context)
    requires MakeEquation(left, opText, right).Ok?
    ensures var eq := MakeEquation(left, opText, right).value;
      var a := Eval(BoxOperand(left).value, ctx);
      var b := Eval(BoxOperand(right).value, ctx);
      Eval(eq, ctx) == (if a.Err? then Err(a.error) else if b.Err? then Err(b.error)
                        else Ok(ApplyOp(ParseOp(opText).value, a.value, b.value)))
  {
  }

  /** A number boxed by an Equation is a constant: it computes to the number in every context. */
  lemma BoxedNumberIsConstant(v: real, text: string, ctx: Context)
    ensures BoxOperand(Num(v, text)).Ok?
    ensures BoxOperand(Num(v, text)).value.name == "literal_" + text
    ensures Eval(BoxOperand(Num(v, text)).value, ctx) == Ok(v)
  {
  }

  /**
   * A numeric string on the other side of an operator is boxed like a
   * number: `x + "2.5"` builds `(x + literal_2.5)`. A string that is not a
   * number raises ValueError.
   */
  lemma StringOperands(ctx: Context)
    ensures Combine(Element("x"), Add, Convertible(2.5, "2.5")) ==
      Ok(Equation("(x + literal_2.5)", Element("x"), Add, Constant("literal_2.5", 2.5)))
    ensures Combine(Element("x"), Add, NonNumericText("abc")).Err?
    ensures Combine(Element("x"), Add, NonNumericText("abc")).error.ValueError?
  {
    assert OpSymbol(Add) == "+" && ParseOp("+") == Some(Add);
    assert "literal_" + "2.5" == "literal_2.5";
    assert BoxOperand(Convertible(2.5, "2.5")) == Ok(Constant("literal_2.5", 2.5));
    assert "(" + "x" + " " + "+" + " " + "literal_2.5" + ")" == "(x + literal_2.5)";
  }

  // ---------------------------------------------------------------------
  // Dependencies
  // ---------------------------------------------------------------------

  /** A boxed literal: a Constant whose name starts with "literal_". */
  predicate IsLiteral(e: Expr) {
    e.Constant? && "literal_" <= e.name
  }

  /**
   * Equation.dependencies: the operands that are not literals, each once.
   * The source returns `list(set(deps))`, whose order Python leaves
   * unspecified; the model lists the left operand first.
   */
  function EquationDependencies(left: Expr, right: Expr): (deps: seq<Expr>)
    ensures forall x :: x in deps <==> (x == left && !IsLiteral(left)) || (x == right && !IsLiteral(right))
    ensures forall i, j :: 0 <= i < j < |deps| ==> deps[i] != deps[j]
    ensures |deps| <= 2
  {
    var fromLeft := if IsLiteral(left) then [] else [left];
    var fromRight := if IsLiteral(right) || right in fromLeft then [] else [right];
    fromLeft + fromRight
  }

  /**
   * The `dependencies` property; None for the classes that do not define
   * it (Element, Constant, Time and Stock).
   */
  function Dependencies(e: Expr): Option<seq<Expr>> {
    match e
    case Element(_) => None
    case StockObject(_, _) => None
    case Constant(_, _) => None
    case Time(_) => None
    case Auxiliary(_, equation) => Some([equation])
    case Equation(_, left, _, right) => Some(EquationDependencies(left, right))
    case Delay(_, input, delayTime) => Some([input, delayTime])
    case Smooth(_, target, smoothingTime, initial) => Some([target, smoothingTime, initial])
    case Table(_, input, _) => Some([input])
    case IfThenElse(_, c, t, f) => Some([c, t, f])
    case Min(_, inputs) => Some(inputs)
    case Max(_, inputs) => Some(inputs)
    case Pulse(_, s, d, m) => Some([s, d, m])
    case Step(_, s, b, a) => Some([s, b, a])
    case Ramp(_, s, f, k, v0) => Some([s, f, k, v0])
    case Delay2(_, input, delayTime, initial, s1, s2) => Some([input, delayTime, initial, s1, s2])
    case Delay3(_, input, delayTime, initial, s1, s2, s3) => Some([input, delayTime, initial, s1, s2, s3])
    case Initial(_, input, _) => Some([input])
    case Flow(_, equation) => Some([equation] + Dependencies(equation).GetOr([]))
  }

  /** `(aux + s2) * 2` depends on `aux + s2` alone; `aux + s2` on both of its operands. */
  lemma DependenciesExample(s1: Expr, s2: Expr, c1: Expr)
    requires s1 == Element("s1") && s2 == Element("s2") && c1 == Constant("c1", 10.0)
    ensures var aux := Auxiliary("aux1", Combine(s1, Mul, Elem(c1)).value);
      var eq1 := Combine(aux, Add, Elem(s2)).value;
      var eq2 := Combine(eq1, Mul, Num(2.0, "2")).value;
      Dependencies(eq1).Some? && multiset(Dependencies(eq1).value) == multiset{aux, s2} &&
      Dependencies(eq2) == Some([eq1])
  {
    var aux := Auxiliary("aux1", Combine(s1, Mul, Elem(c1)).value);
    OperandDependencies(aux, Add, s2);
    assert !IsLiteral(aux) && !IsLiteral(s2) && aux != s2;
    assert EquationDependencies(aux, s2) == [aux, s2];
    var eq1 := Combine(aux, Add, Elem(s2)).value;
    LiteralOperandDependencies(eq1, Mul, 2.0, "2");
  }

  /** `self <op> other` for two elements depends on the operands that are not literals. */
  lemma OperandDependencies(self: Expr, op: Op, other: Expr)
    requires !self.StockObject? && !other.StockObject?
    ensures Combine(self, op, Elem(other)).Ok?
    ensures Dependencies(Combine(self, op, Elem(other)).value) == Some(EquationDependencies(self, other))
  {
    ParseOpRoundTrip(op, OpSymbol(op));
  }

  /** `self <op> number` depends on self alone, unless self is itself a literal. */
  lemma LiteralOperandDependencies(self: Expr, op: Op, v: real, text: string)
    requires !self.StockObject?
    ensures Combine(self, op, Num(v, text)).Ok?
    ensures Dependencies(Combine(self, op, Num(v, text)).value) == Some(if IsLiteral(self) then [] else [self])
  {
    ParseOpRoundTrip(op, OpSymbol(op));
    var lit := Constant("literal_" + text, v);
    assert "literal_" <= lit.name;
    var eq := Combine(self, op, Num(v, text)).value;
    assert eq.left == self && eq.right == lit;
    assert Dependencies(eq) == Some(EquationDependencies(self, lit));
    assert IsLiteral(lit);
    if IsLiteral(self) {
      assert EquationDependencies(self, lit) == [];
    } else {
      assert EquationDependencies(self, lit) == [self] + [];
      assert [self] + [] == [self];
    }
  }

  /** Auxiliary computes its equation and depends on exactly that equation. */
  lemma AuxiliaryComputes(name: string, equation: Expr, ctx: Context)
    ensures Eval(Auxiliary(name, equation), ctx) == Eval(equation, ctx)
    ensures Dependencies(Auxiliary(name, equation)) == Some([equation])
  {
  }

  /** A plain Element reads its own state entry, 0.0 when absent; a Constant ignores the context. */
  lemma DefaultComputes(name: string, v: real, ctx: Context)
    ensures ctx.state.Some? ==> Eval(Element(name), ctx) == Ok(if name in ctx.state.value then ctx.state.value[name] else 0.0)
    ensures ctx.state.None? ==> Eval(Element(name), ctx) == Err(KeyError("state"))
    ensures Eval(Constant(name, v), ctx) == Ok(v)
    ensures Eval(Time(name), ctx) == Ok(ctx.time.GetOr(0.0))
  {
  }
}
