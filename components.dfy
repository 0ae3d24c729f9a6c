/**
 * The derived components of mead/components.py: their constructors (which
 * coerce every numeric-or-element argument with `as_element`) and the
 * behaviour of their `compute`, which `Core.Eval` defines. The stateful
 * Policy component is a class of its own at the end of the module.
 */
module Components {
  import opened Base
  import opened Core
  import opened Utils
  import Tables

  // ---------------------------------------------------------------------
  // Delay
  // ---------------------------------------------------------------------

  /** `Delay(name, input, delay_time)`: the input is kept as given, the delay time is coerced. */
  function MakeDelay(name: string, input: Expr, delayTime: Operand): (r: Result<Expr>)
    ensures r.Ok? <==> AsElement(delayTime).Ok?
    ensures r.Err? ==> r.error == AsElement(delayTime).error
    ensures r.Ok? ==> r.value == Delay(name, input, AsElement(delayTime).value)
  {
    var d :- AsElement(delayTime);
    Ok(Delay(name, input, d))
  }

  /**
   * Without a history lookup in the context Delay raises RuntimeError;
   * otherwise it asks the lookup for its input's name at the computed delay.
   */
  lemma DelayComputes(name: string, input: Expr, delayTime: Operand, ctx: Context)
    requires MakeDelay(name, input, delayTime).Ok?
    ensures var e := MakeDelay(name, input, delayTime).value;
      ctx.lookup.None? ==>
        Eval(e, ctx) == Err(RuntimeError("Delay element requires a 'history_lookup' function in the context."))
    ensures var e := MakeDelay(name, input, delayTime).value;
      ctx.lookup.Some? && Eval(e.delayTime, ctx).Ok? ==>
        Eval(e, ctx) == Ok(ctx.lookup.value(input.name, Eval(e.delayTime, ctx).value))
    ensures delayTime.Num? && ctx.lookup.Some? ==>
      Eval(MakeDelay(name, input, delayTime).value, ctx) == Ok(ctx.lookup.value(input.name, delayTime.value))
  {
    var d := AsElement(delayTime).value;
    assert MakeDelay(name, input, delayTime) == Ok(Delay(name, input, d));
    assert Eval(Delay(name, input, d), ctx) == DelayRule(input.name, ctx, Eval(d, ctx));
    if delayTime.Num? {
      NumberBecomesLiteral(delayTime.value, delayTime.text, ctx);
    }
  }

  // ---------------------------------------------------------------------
  // Smooth
  // ---------------------------------------------------------------------

  /**
   * `Smooth(name, target_value, smoothing_time, initial_value=0.0)`: it
   * succeeds iff every argument coerces, raising the first failure in
   * argument order, and holds the coerced arguments.
   */
  function MakeSmooth(name: string, target: Operand, smoothingTime: Operand, initial: Operand := Num(0.0, "0.0")): (r: Result<Expr>)
    ensures r.Ok? <==> AsElements([target, smoothingTime, initial]).Ok?
    ensures r.Err? ==> r.error == AsElements([target, smoothingTime, initial]).error
    ensures r.Ok? ==> var xs := AsElements([target, smoothingTime, initial]).value;
      r.value == Smooth(name, xs[0], xs[1], xs[2])
  {
    AsElementsOfThree(target, smoothingTime, initial);
    var t :- AsElement(target);
    var st :- AsElement(smoothingTime);
    var iv :- AsElement(initial);
    Ok(Smooth(name, t, st, iv))
  }

  /**
   * Smooth.compute: KeyError without a time; the initial value at time 0;
   * otherwise KeyError without a lookup or a dt, and else one smoothing step
   * from its own value one dt ago toward the input.
   */
  lemma SmoothComputes(name: string, target: Expr, smoothingTime: Expr, initial: Expr, ctx: Context)
    ensures ctx.time.None? ==> Eval(Smooth(name, target, smoothingTime, initial), ctx) == Err(KeyError("time"))
    ensures ctx.time == Some(0.0) ==> Eval(Smooth(name, target, smoothingTime, initial), ctx) == Eval(initial, ctx)
    ensures ctx.time.Some? && ctx.time != Some(0.0) && ctx.lookup.None? ==>
      Eval(Smooth(name, target, smoothingTime, initial), ctx) == Err(KeyError("history_lookup"))
    ensures ctx.time.Some? && ctx.time != Some(0.0) && ctx.lookup.Some? && ctx.dt.None? ==>
      Eval(Smooth(name, target, smoothingTime, initial), ctx) == Err(KeyError("dt"))
    ensures (ctx.time.Some? && ctx.time != Some(0.0) && ctx.lookup.Some? && ctx.dt.Some? &&
             Eval(target, ctx).Ok? && Eval(smoothingTime, ctx).Ok?) ==>
      Eval(Smooth(name, target, smoothingTime, initial), ctx) ==
        Ok(SmoothValue(ctx.lookup.value(name, ctx.dt.value), ctx.dt.value, Eval(smoothingTime, ctx).value, Eval(target, ctx).value))
  {
    assert Eval(Smooth(name, target, smoothingTime, initial), ctx) ==
      SmoothRule(name, ctx, Eval(target, ctx), Eval(smoothingTime, ctx), Eval(initial, ctx));
  }

  /** A zero smoothing time passes the input through; otherwise the step is `prev + (dt/st)·(x − prev)`. */
  lemma SmoothValueRule(prev: real, dt: real, st: real, x: real)
    ensures st == 0.0 ==> SmoothValue(prev, dt, st, x) == x
    ensures st != 0.0 ==> SmoothValue(prev, dt, st, x) - prev == (dt / st) * (x - prev)
    ensures x == prev ==> SmoothValue(prev, dt, st, x) == prev
    ensures st == dt ==> SmoothValue(prev, dt, st, x) == x
  {
  }

  /** When `0 <= dt/st <= 1` a smoothing step lands between the previous value and the input. */
  lemma SmoothValueBetween(prev: real, dt: real, st: real, x: real)
    requires st != 0.0 && 0.0 <= dt / st <= 1.0
    ensures var r := SmoothValue(prev, dt, st, x);
      (prev <= r <= x) || (x <= r <= prev)
  {
    var f := dt / st;
    var r := SmoothValue(prev, dt, st, x);
    assert r == prev + f * (x - prev);
    if prev <= x {
      var g := x - prev;
      NonNegativeProduct(f, g);
      NonNegativeProduct(1.0 - f, g);
      assert f * g == g - (1.0 - f) * g;
    } else {
      var g := prev - x;
      NonNegativeProduct(f, g);
      NonNegativeProduct(1.0 - f, g);
      assert f * g == g - (1.0 - f) * g;
      assert f * (x - prev) == -(f * g);
    }
  }

  /** The component-level form: a Smooth away from time 0 stays between its lagged value and its input. */
  lemma SmoothStaysBetween(name: string, target: Expr, smoothingTime: Expr, initial: Expr, ctx: Context)
    requires ctx.time.Some? && ctx.time != Some(0.0) && ctx.lookup.Some? && ctx.dt.Some?
    requires Eval(target, ctx).Ok? && Eval(smoothingTime, ctx).Ok?
    requires Eval(smoothingTime, ctx).value != 0.0
    requires 0.0 <= ctx.dt.value / Eval(smoothingTime, ctx).value <= 1.0
    ensures Eval(Smooth(name, target, smoothingTime, initial), ctx).Ok?
    ensures var prev := ctx.lookup.value(name, ctx.dt.value);
      var x := Eval(target, ctx).value;
      var r := Eval(Smooth(name, target, smoothingTime, initial), ctx).value;
      (prev <= r <= x) || (x <= r <= prev)
  {
    SmoothComputes(name, target, smoothingTime, initial, ctx);
    SmoothValueBetween(ctx.lookup.value(name, ctx.dt.value), ctx.dt.value, Eval(smoothingTime, ctx).value, Eval(target, ctx).value);
  }

  // ---------------------------------------------------------------------
  // Table
  // ---------------------------------------------------------------------

  /** `Table(name, input, points)`: coerces the input, sorts the points by x, then rejects fewer than two. */
  function MakeTable(name: string, input: Operand, points: seq<Tables.Point>): (r: Result<Expr>)
    ensures AsElement(input).Err? ==> r == Err(AsElement(input).error)
    ensures AsElement(input).Ok? ==> (r.Ok? <==> |points| >= 2)
    ensures AsElement(input).Ok? && |points| < 2 ==>
      r == Err(ValueError("Table must have at least two points for interpolation."))
    ensures r.Ok? ==>
      r.value.Table? && r.value.name == name && r.value.input == AsElement(input).value &&
      Tables.SortedByX(r.value.points) && multiset(r.value.points) == multiset(points)
    ensures r.Ok? ==> forall v :: Tables.WithX(r.value.points, v) == Tables.WithX(points, v)
  {
    var i :- AsElement(input);
    var ps := Tables.SortByX(points);
    Tables.SortByXPermutes(points);
    assert forall v :: Tables.WithX(ps, v) == Tables.WithX(points, v) by {
      forall v {
        Tables.SortByXStable(points, v);
      }
    }
    if |ps| < 2 then Err(ValueError("Table must have at least two points for interpolation."))
    else Ok(Table(name, i, ps))
  }

  /** A constructed Table clamps at both ends: the first y at or below the first x, the last y at or above the last x. */
  lemma TableClamps(t: Expr, ctx: Context, v: real)
    requires t.Table? && |t.points| >= 2
    requires Eval(t.input, ctx) == Ok(v)
    ensures v <= t.points[0].0 ==> Eval(t, ctx) == Ok(t.points[0].1)
    ensures v > t.points[0].0 && v >= t.points[|t.points| - 1].0 ==> Eval(t, ctx) == Ok(t.points[|t.points| - 1].1)
  {
    Tables.LookupClamps(t.points, v);
  }

  /**
   * Between the ends a constructed Table interpolates linearly on the
   * segment that encloses the input, and its value lies between the
   * segment's two y values.
   */
  lemma TableInterpolates(t: Expr, ctx: Context, v: real, k: nat)
    requires t.Table? && Tables.SortedByX(t.points)
    requires Eval(t.input, ctx) == Ok(v)
    requires k < |t.points| - 1 && t.points[k].0 < v <= t.points[k + 1].0 && v < t.points[|t.points| - 1].0
    ensures var p1, p2 := t.points[k], t.points[k + 1];
      p1.0 != p2.0 && Eval(t, ctx) == Ok(Tables.Line(p1, p2, v)) &&
      ((p1.1 <= Eval(t, ctx).value <= p2.1) || (p2.1 <= Eval(t, ctx).value <= p1.1))
  {
    Tables.LookupInterpolates(t.points, v, k);
  }

  /** Sorting the points (0,10), (10,0), (5,20) by x. */
  lemma SortExample()
    ensures Tables.SortByX([(0.0, 10.0), (10.0, 0.0), (5.0, 20.0)]) == [(0.0, 10.0), (5.0, 20.0), (10.0, 0.0)]
  {
    var p0: Tables.Point, p1: Tables.Point, p2: Tables.Point := (0.0, 10.0), (10.0, 0.0), (5.0, 20.0);
    SortTwo(p0, p1);
    Tables.SortByXSnoc([p0, p1], p2);
    assert [p0, p1] + [p2] == [p0, p1, p2];
    InsertMiddle(p0, p1, p2);
  }

  lemma InsertAtEnd(s: seq<Tables.Point>, p: Tables.Point)
    requires Tables.SortedByX(s)
    requires s == [] || s[|s| - 1].0 <= p.0
    ensures Tables.InsertByX(s, p) == s + [p]
  {
    assert Tables.InsertionPoint(s, p) == |s|;
    assert s[..|s|] == s && s[|s|..] == [];
  }

  lemma SortOne(p0: Tables.Point)
    ensures Tables.SortByX([p0]) == [p0]
  {
    var s0: seq<Tables.Point> := [];
    Tables.SortByXSnoc(s0, p0);
    assert s0 + [p0] == [p0];
    InsertAtEnd(s0, p0);
  }

  lemma SortTwo(p0: Tables.Point, p1: Tables.Point)
    requires p0.0 <= p1.0
    ensures Tables.SortByX([p0, p1]) == [p0, p1]
  {
    SortOne(p0);
    Tables.SortByXSnoc([p0], p1);
    assert [p0] + [p1] == [p0, p1];
    InsertAtEnd([p0], p1);
  }

  lemma InsertMiddle(p0: Tables.Point, p1: Tables.Point, p2: Tables.Point)
    requires p0.0 <= p2.0 < p1.0
    ensures Tables.InsertByX([p0, p1], p2) == [p0, p2, p1]
  {
    var s := [p0, p1];
    assert s[..1] == [p0];
    assert Tables.InsertionPoint([p0], p2) == 1;
    assert Tables.InsertionPoint(s, p2) == 1;
    assert s[1..] == [p1];
  }

  /** The table of the test suite: Time against (0,10), (5,20), (10,0) maps 2 to 14, 5 to 20, -1 to 10 and 11 to 0. */
  lemma TableExample()
    ensures var t := Table("table", Time("time"), [(0.0, 10.0), (5.0, 20.0), (10.0, 0.0)]);
      Eval(t, Context(Some(2.0), None, None, None)) == Ok(14.0) &&
      Eval(t, Context(Some(5.0), None, None, None)) == Ok(20.0) &&
      Eval(t, Context(Some(-1.0), None, None, None)) == Ok(10.0) &&
      Eval(t, Context(Some(11.0), None, None, None)) == Ok(0.0)
  {
    Tables.LookupExample();
  }

  // ---------------------------------------------------------------------
  // IfThenElse
  // ---------------------------------------------------------------------

  /**
   * `IfThenElse(name, condition, true_element, false_element)`: it succeeds
   * iff every argument coerces, raising the first failure in argument order,
   * and holds the coerced arguments.
   */
  function MakeIfThenElse(name: string, condition: Operand, whenTrue: Operand, whenFalse: Operand): (r: Result<Expr>)
    ensures r.Ok? <==> AsElements([condition, whenTrue, whenFalse]).Ok?
    ensures r.Err? ==> r.error == AsElements([condition, whenTrue, whenFalse]).error
    ensures r.Ok? ==> var xs := AsElements([condition, whenTrue, whenFalse]).value;
      r.value == IfThenElse(name, xs[0], xs[1], xs[2])
  {
    AsElementsOfThree(condition, whenTrue, whenFalse);
    var c :- AsElement(condition);
    var t :- AsElement(whenTrue);
    var f :- AsElement(whenFalse);
    Ok(IfThenElse(name, c, t, f))
  }

  /** The true branch exactly when the condition is strictly positive; only the chosen branch is computed. */
  lemma IfThenElseSelects(name: string, c: Expr, t: Expr, f: Expr, ctx: Context)
    ensures Eval(c, ctx).Err? ==> Eval(IfThenElse(name, c, t, f), ctx) == Err(Eval(c, ctx).error)
    ensures Eval(c, ctx).Ok? && Eval(c, ctx).value > 0.0 ==> Eval(IfThenElse(name, c, t, f), ctx) == Eval(t, ctx)
    ensures Eval(c, ctx).Ok? && Eval(c, ctx).value <= 0.0 ==> Eval(IfThenElse(name, c, t, f), ctx) == Eval(f, ctx)
  {
    assert Eval(IfThenElse(name, c, t, f), ctx) == IfThenElseRule(Eval(c, ctx), Eval(t, ctx), Eval(f, ctx));
  }

  /** A condition of exactly 0 selects the false branch. */
  lemma IfThenElseZeroIsFalse(ctx: Context)
    ensures MakeIfThenElse("x", Num(0.0, "0"), Num(1.0, "1"), Num(2.0, "2")).Ok?
    ensures Eval(MakeIfThenElse("x", Num(0.0, "0"), Num(1.0, "1"), Num(2.0, "2")).value, ctx) == Ok(2.0)
  {
    var e := MakeIfThenElse("x", Num(0.0, "0"), Num(1.0, "1"), Num(2.0, "2")).value;
    assert e.IfThenElse? && e.condition.Constant? && e.condition.value == 0.0;
    assert e.whenFalse.Constant? && e.whenFalse.value == 2.0;
    assert Eval(e.condition, ctx) == Ok(0.0);
    assert Eval(e, ctx) == Eval(e.whenFalse, ctx);
  }

  // ---------------------------------------------------------------------
  // Min and Max
  // ---------------------------------------------------------------------

  /** `Min(name, *inputs)`: ValueError on no inputs, checked before any coercion. */
  function MakeMin(name: string, inputs: seq<Operand>): (r: Result<Expr>)
    ensures inputs == [] ==> r == Err(ValueError("Min element must have at least one input element."))
    ensures r.Ok? <==> inputs != [] && forall i :: 0 <= i < |inputs| ==> AsElement(inputs[i]).Ok?
    ensures r.Ok? ==> (r.value.Min? && r.value.name == name && |r.value.inputs| == |inputs| &&
      forall i :: 0 <= i < |inputs| ==> r.value.inputs[i] == AsElement(inputs[i]).value)
    ensures inputs != [] && r.Err? ==>
      exists i :: (0 <= i < |inputs| && AsElement(inputs[i]) == Err(r.error) &&
        forall j :: 0 <= j < i ==> AsElement(inputs[j]).Ok?)
  {
    if inputs == [] then Err(ValueError("Min element must have at least one input element."))
    else
      var es :- AsElements(inputs);
      Ok(Min(name, es))
  }

  /** `Max(name, *inputs)`: ValueError on no inputs, checked before any coercion. */
  function MakeMax(name: string, inputs: seq<Operand>): (r: Result<Expr>)
    ensures inputs == [] ==> r == Err(ValueError("Max element must have at least one input element."))
    ensures r.Ok? <==> inputs != [] && forall i :: 0 <= i < |inputs| ==> AsElement(inputs[i]).Ok?
    ensures r.Ok? ==> (r.value.Max? && r.value.name == name && |r.value.inputs| == |inputs| &&
      forall i :: 0 <= i < |inputs| ==> r.value.inputs[i] == AsElement(inputs[i]).value)
    ensures inputs != [] && r.Err? ==>
      exists i :: (0 <= i < |inputs| && AsElement(inputs[i]) == Err(r.error) &&
        forall j :: 0 <= j < i ==> AsElement(inputs[j]).Ok?)
  {
    if inputs == [] then Err(ValueError("Max element must have at least one input element."))
    else
      var es :- AsElements(inputs);
      Ok(Max(name, es))
  }

  /** Python's min() over a non-empty list: at most every value, and equal to one of them. */
  lemma {:induction false} MinimumIsLeast(vs: seq<real>)
    requires vs != []
    ensures Minimum(vs).Ok?
    ensures forall i :: 0 <= i < |vs| ==> Minimum(vs).value <= vs[i]
    ensures exists i :: 0 <= i < |vs| && vs[i] == Minimum(vs).value
  {
    if |vs| > 1 {
      MinimumIsLeast(vs[1..]);
      assert forall i :: 1 <= i < |vs| ==> vs[i] == vs[1..][i - 1];
      var j :| 0 <= j < |vs[1..]| && vs[1..][j] == Minimum(vs[1..]).value;
      assert vs[j + 1] == Minimum(vs[1..]).value;
    }
  }

  /** Python's max() over a non-empty list: at least every value, and equal to one of them. */
  lemma {:induction false} MaximumIsGreatest(vs: seq<real>)
    requires vs != []
    ensures Maximum(vs).Ok?
    ensures forall i :: 0 <= i < |vs| ==> Maximum(vs).value >= vs[i]
    ensures exists i :: 0 <= i < |vs| && vs[i] == Maximum(vs).value
  {
    if |vs| > 1 {
      MaximumIsGreatest(vs[1..]);
      assert forall i :: 1 <= i < |vs| ==> vs[i] == vs[1..][i - 1];
      var j :| 0 <= j < |vs[1..]| && vs[1..][j] == Maximum(vs[1..]).value;
      assert vs[j + 1] == Maximum(vs[1..]).value;
    }
  }

  /** The element-wise results Min and Max compute over their inputs. */
  function EvalAll(inputs: seq<Expr>, ctx: Context): seq<Result<real>> {
    seq(|inputs|, i requires 0 <= i < |inputs| => Eval(inputs[i], ctx))
  }

  /**
   * Min over non-empty inputs succeeds iff every input does; its value is
   * at most every input's value and equals one of them; a failure is the
   * failure of the first failing input, as min() and max() stop there.
   */
  lemma MinComputes(name: string, inputs: seq<Expr>, ctx: Context)
    requires inputs != []
    ensures Eval(Min(name, inputs), ctx).Ok? <==> forall i :: 0 <= i < |inputs| ==> Eval(inputs[i], ctx).Ok?
    ensures Eval(Min(name, inputs), ctx).Ok? ==>
      (forall i :: 0 <= i < |inputs| ==> Eval(Min(name, inputs), ctx).value <= Eval(inputs[i], ctx).value) &&
      (exists i :: 0 <= i < |inputs| && Eval(inputs[i], ctx) == Eval(Min(name, inputs), ctx))
    ensures Eval(Min(name, inputs), ctx).Err? ==>
      exists i :: 0 <= i < |inputs| && Eval(inputs[i], ctx) == Eval(Min(name, inputs), ctx) &&
        forall j :: 0 <= j < i ==> Eval(inputs[j], ctx).Ok?
  {
    var rs := EvalAll(inputs, ctx);
    assert forall i :: 0 <= i < |inputs| ==> rs[i] == Eval(inputs[i], ctx);
    assert Eval(Min(name, inputs), ctx) == (var vs :- AllOk(rs); Minimum(vs));
    var all := AllOk(rs);
    if all.Ok? {
      assert Eval(Min(name, inputs), ctx) == Minimum(all.value);
      MinimumIsLeast(all.value);
      var j :| 0 <= j < |all.value| && all.value[j] == Minimum(all.value).value;
      assert Eval(inputs[j], ctx) == rs[j];
    } else {
      var j :| 0 <= j < |rs| && rs[j] == Err(all.error) && forall k :: 0 <= k < j ==> rs[k].Ok?;
      assert Eval(inputs[j], ctx) == rs[j];
    }
  }

  /**
   * Max over non-empty inputs succeeds iff every input does; its value is
   * at least every input's value and equals one of them; a failure is the
   * failure of the first failing input, as min() and max() stop there.
   */
  lemma MaxComputes(name: string, inputs: seq<Expr>, ctx: Context)
    requires inputs != []
    ensures Eval(Max(name, inputs), ctx).Ok? <==> forall i :: 0 <= i < |inputs| ==> Eval(inputs[i], ctx).Ok?
    ensures Eval(Max(name, inputs), ctx).Ok? ==>
      (forall i :: 0 <= i < |inputs| ==> Eval(Max(name, inputs), ctx).value >= Eval(inputs[i], ctx).value) &&
      (exists i :: 0 <= i < |inputs| && Eval(inputs[i], ctx) == Eval(Max(name, inputs), ctx))
    ensures Eval(Max(name, inputs), ctx).Err? ==>
      exists i :: 0 <= i < |inputs| && Eval(inputs[i], ctx) == Eval(Max(name, inputs), ctx) &&
        forall j :: 0 <= j < i ==> Eval(inputs[j], ctx).Ok?
  {
    var rs := EvalAll(inputs, ctx);
    assert forall i :: 0 <= i < |inputs| ==> rs[i] == Eval(inputs[i], ctx);
    assert Eval(Max(name, inputs), ctx) == (var vs :- AllOk(rs); Maximum(vs));
    var all := AllOk(rs);
    if all.Ok? {
      assert Eval(Max(name, inputs), ctx) == Maximum(all.value);
      MaximumIsGreatest(all.value);
      var j :| 0 <= j < |all.value| && all.value[j] == Maximum(all.value).value;
      assert Eval(inputs[j], ctx) == rs[j];
    } else {
      var j :| 0 <= j < |rs| && rs[j] == Err(all.error) && forall k :: 0 <= k < j ==> rs[k].Ok?;
      assert Eval(inputs[j], ctx) == rs[j];
    }
  }

  // ---------------------------------------------------------------------
  // Pulse, Step and Ramp
  // ---------------------------------------------------------------------

  /**
   * `Pulse(name, start_time, duration, ammount)`: it succeeds iff every
   * argument coerces, raising the first failure in argument order, and holds
   * the coerced arguments.
   */
  function MakePulse(name: string, start: Operand, duration: Operand, amount: Operand): (r: Result<Expr>)
    ensures r.Ok? <==> AsElements([start, duration, amount]).Ok?
    ensures r.Err? ==> r.error == AsElements([start, duration, amount]).error
    ensures r.Ok? ==> var xs := AsElements([start, duration, amount]).value;
      r.value == Pulse(name, xs[0], xs[1], xs[2])
  {
    AsElementsOfThree(start, duration, amount);
    var s :- AsElement(start);
    var d :- AsElement(duration);
    var m :- AsElement(amount);
    Ok(Pulse(name, s, d, m))
  }

  /** KeyError without a time; otherwise the magnitude inside `[start, start + duration)` and 0 outside it. */
  lemma PulseWindow(name: string, start: Expr, duration: Expr, magnitude: Expr, ctx: Context, s: real, d: real, m: real)
    requires Eval(start, ctx) == Ok(s) && Eval(duration, ctx) == Ok(d) && Eval(magnitude, ctx) == Ok(m)
    ensures ctx.time.None? ==> Eval(Pulse(name, start, duration, magnitude), ctx) == Err(KeyError("time"))
    ensures ctx.time.Some? && s <= ctx.time.value < s + d ==> Eval(Pulse(name, start, duration, magnitude), ctx) == Ok(m)
    ensures ctx.time.Some? && !(s <= ctx.time.value < s + d) ==> Eval(Pulse(name, start, duration, magnitude), ctx) == Ok(0.0)
  {
    assert Eval(Pulse(name, start, duration, magnitude), ctx) == PulseRule(ctx, Ok(s), Ok(d), Ok(m));
    PulseRuleWindow(ctx, Ok(s), Ok(d), Ok(m));
  }

  /** The window rule of Pulse on already computed parameters. */
  lemma PulseRuleWindow(ctx: Context, s: Result<real>, d: Result<real>, m: Result<real>)
    ensures ctx.time.None? ==> PulseRule(ctx, s, d, m) == Err(KeyError("time"))
    ensures ctx.time.Some? && s.Ok? && d.Ok? && m.Ok? ==>
      (s.value <= ctx.time.value < s.value + d.value ==> PulseRule(ctx, s, d, m) == Ok(m.value)) &&
      (!(s.value <= ctx.time.value < s.value + d.value) ==> PulseRule(ctx, s, d, m) == Ok(0.0))
  {
  }

  /**
   * `Step(name, start_time, before_value, after_value)`: it succeeds iff
   * every argument coerces, raising the first failure in argument order, and
   * holds the coerced arguments.
   */
  function MakeStep(name: string, start: Operand, before: Operand, after: Operand): (r: Result<Expr>)
    ensures r.Ok? <==> AsElements([start, before, after]).Ok?
    ensures r.Err? ==> r.error == AsElements([start, before, after]).error
    ensures r.Ok? ==> var xs := AsElements([start, before, after]).value;
      r.value == Step(name, xs[0], xs[1], xs[2])
  {
    AsElementsOfThree(start, before, after);
    var s :- AsElement(start);
    var b :- AsElement(before);
    var a :- AsElement(after);
    Ok(Step(name, s, b, a))
  }

  /** KeyError without a time; otherwise `before` strictly before the start and `after` from the start on. */
  lemma StepSwitches(name: string, start: Expr, before: Expr, after: Expr, ctx: Context)
    ensures ctx.time.None? ==> Eval(Step(name, start, before, after), ctx) == Err(KeyError("time"))
    ensures ctx.time.Some? && Eval(start, ctx).Ok? ==>
      (ctx.time.value < Eval(start, ctx).value ==> Eval(Step(name, start, before, after), ctx) == Eval(before, ctx)) &&
      (ctx.time.value >= Eval(start, ctx).value ==> Eval(Step(name, start, before, after), ctx) == Eval(after, ctx))
  {
    assert Eval(Step(name, start, before, after), ctx) == StepRule(ctx, Eval(start, ctx), Eval(before, ctx), Eval(after, ctx));
  }

  /**
   * `Ramp(name, start_time, end_time, ammount, initial_value=0.0)`: it
   * succeeds iff every argument coerces, raising the first failure in
   * argument order, and holds the coerced arguments.
   */
  function MakeRamp(name: string, start: Operand, end: Operand, slope: Operand, initial: Operand := Num(0.0, "0.0")): (r: Result<Expr>)
    ensures r.Ok? <==> AsElements([start, end, slope, initial]).Ok?
    ensures r.Err? ==> r.error == AsElements([start, end, slope, initial]).error
    ensures r.Ok? ==> var xs := AsElements([start, end, slope, initial]).value;
      r.value == Ramp(name, xs[0], xs[1], xs[2], xs[3])
  {
    AsElementsOfFour(start, end, slope, initial);
    var s :- AsElement(start);
    var f :- AsElement(end);
    var k :- AsElement(slope);
    var v0 :- AsElement(initial);
    Ok(Ramp(name, s, f, k, v0))
  }

  /** Ramp.compute reads the time with a 0.0 default, then applies the piecewise rule. */
  lemma RampComputes(name: string, start: Expr, end: Expr, slope: Expr, initial: Expr, ctx: Context)
    requires Eval(start, ctx).Ok? && Eval(end, ctx).Ok? && Eval(slope, ctx).Ok? && Eval(initial, ctx).Ok?
    ensures var t := ctx.time.GetOr(0.0);
      var s, f, k, v0 := Eval(start, ctx).value, Eval(end, ctx).value, Eval(slope, ctx).value, Eval(initial, ctx).value;
      (t < s ==> Eval(Ramp(name, start, end, slope, initial), ctx) == Ok(v0)) &&
      (s <= t <= f ==> Eval(Ramp(name, start, end, slope, initial), ctx) == Ok(v0 + k * (t - s))) &&
      (t > f && t >= s ==> Eval(Ramp(name, start, end, slope, initial), ctx) == Ok(v0 + k * (f - s)))
  {
    var t := ctx.time.GetOr(0.0);
    var s, f, k, v0 := Eval(start, ctx).value, Eval(end, ctx).value, Eval(slope, ctx).value, Eval(initial, ctx).value;
    assert Eval(Ramp(name, start, end, slope, initial), ctx) == Ok(RampValue(t, s, f, k, v0));
  }

  /**
   * With start <= end the ramp is continuous: it equals the initial value
   * up to the start and the held value from the end on; with a
   * non-negative slope it never decreases.
   */
  lemma RampContinuous(s: real, f: real, k: real, v0: real, t1: real, t2: real)
    requires s <= f
    ensures RampValue(s, s, f, k, v0) == v0
    ensures RampValue(f, s, f, k, v0) == v0 + k * (f - s)
    ensures t1 <= s ==> RampValue(t1, s, f, k, v0) == v0
    ensures t1 >= f ==> RampValue(t1, s, f, k, v0) == v0 + k * (f - s)
    ensures k >= 0.0 && t1 <= t2 ==> RampValue(t1, s, f, k, v0) <= RampValue(t2, s, f, k, v0)
  {
    if k >= 0.0 && t1 <= t2 {
      var c1 := if t1 < s then s else if t1 <= f then t1 else f;
      var c2 := if t2 < s then s else if t2 <= f then t2 else f;
      assert RampValue(t1, s, f, k, v0) == v0 + k * (c1 - s);
      assert RampValue(t2, s, f, k, v0) == v0 + k * (c2 - s);
      assert c1 <= c2;
      NonNegativeProduct(k, c2 - c1);
      assert k * (c2 - s) - k * (c1 - s) == k * (c2 - c1);
    }
  }

  // ---------------------------------------------------------------------
  // Delay2, Delay3 and Initial
  // ---------------------------------------------------------------------

  /** The per-stage smoothing time `delay_time / <stages>`, an Equation with a boxed literal divisor. */
  function StageTime(d: Expr, stages: Operand): Result<Expr>
    requires !d.StockObject?
  {
    var q :- Combine(d, Div, stages);
    AsElement(Elem(q))
  }

  /**
   * The stages Delay2 and Delay3 build are Smooth elements on arguments
   * that are already Elements, which Smooth's own coercions leave as they are.
   */
  lemma SmoothOfElements(name: string, target: Expr, smoothingTime: Expr, initial: Expr)
    requires !target.StockObject? && !smoothingTime.StockObject? && !initial.StockObject?
    ensures MakeSmooth(name, Elem(target), Elem(smoothingTime), Elem(initial)) == Ok(Smooth(name, target, smoothingTime, initial))
  {
  }

  /**
   * `Delay2(name, input_element, delay_time, initial_value=0.0)`: it
   * succeeds iff every argument coerces, raising the first failure in
   * argument order; the stages are built from the coerced arguments.
   */
  function MakeDelay2(name: string, input: Operand, delayTime: Operand, initial: Operand := Num(0.0, "0.0")): (r: Result<Expr>)
    ensures r.Ok? <==> AsElements([input, delayTime, initial]).Ok?
    ensures r.Err? ==> r.error == AsElements([input, delayTime, initial]).error
    ensures r.Ok? ==> var xs := AsElements([input, delayTime, initial]).value;
      r.value.Delay2? && r.value.name == name &&
      r.value.input == xs[0] && r.value.delayTime == xs[1] && r.value.initial == xs[2]
  {
    AsElementsOfThree(input, delayTime, initial);
    var i :- AsElement(input);
    var d :- AsElement(delayTime);
    var iv :- AsElement(initial);
    var st := StageTime(d, Num(2.0, "2.0")).value;
    var s1 := Smooth(name + "_smooth1", i, st, iv);
    var s2 := Smooth(name + "_smooth2", s1, st, iv);
    Ok(Delay2(name, i, d, iv, s1, s2))
  }

  /**
   * `Delay3(name, input_element, delay_time, initial_value=0.0)`: it
   * succeeds iff every argument coerces, raising the first failure in
   * argument order; the stages are built from the coerced arguments.
   */
  function MakeDelay3(name: string, input: Operand, delayTime: Operand, initial: Operand := Num(0.0, "0.0")): (r: Result<Expr>)
    ensures r.Ok? <==> AsElements([input, delayTime, initial]).Ok?
    ensures r.Err? ==> r.error == AsElements([input, delayTime, initial]).error
    ensures r.Ok? ==> var xs := AsElements([input, delayTime, initial]).value;
      r.value.Delay3? && r.value.name == name &&
      r.value.input == xs[0] && r.value.delayTime == xs[1] && r.value.initial == xs[2]
  {
    AsElementsOfThree(input, delayTime, initial);
    var i :- AsElement(input);
    var d :- AsElement(delayTime);
    var iv :- AsElement(initial);
    var st := StageTime(d, Num(3.0, "3.0")).value;
    var s1 := Smooth(name + "_smooth1", i, st, iv);
    var s2 := Smooth(name + "_smooth2", s1, st, iv);
    var s3 := Smooth(name + "_smooth3", s2, st, iv);
    Ok(Delay3(name, i, d, iv, s1, s2, s3))
  }

  /** The stage time is `(d / literal_<n>)`, which computes to d/n, or 0.0 when d/n has a zero divisor. */
  lemma StageTimeComputes(d: Expr, n: real, text: string, ctx: Context)
    requires !d.StockObject?
    ensures StageTime(d, Num(n, text)).Ok?
    ensures var st := StageTime(d, Num(n, text)).value;
      st.Equation? && st.left == d && st.op == Div && st.right == Constant("literal_" + text, n)
    ensures Eval(d, ctx).Ok? ==>
      Eval(StageTime(d, Num(n, text)).value, ctx) == Ok(ApplyOp(Div, Eval(d, ctx).value, n))
    ensures Eval(d, ctx).Err? ==> Eval(StageTime(d, Num(n, text)).value, ctx) == Eval(d, ctx)
  {
    ParseOpRoundTrip(Div, "/");
  }

  /**
   * Delay2 builds `<name>_smooth1` on the input and `<name>_smooth2` on the
   * first stage, both with smoothing time `delay_time / 2.0` and the same
   * initial value, and outputs the second stage.
   */
  lemma Delay2Structure(name: string, input: Operand, delayTime: Operand, initial: Operand, ctx: Context)
    requires MakeDelay2(name, input, delayTime, initial).Ok?
    ensures var e := MakeDelay2(name, input, delayTime, initial).value;
      var st := StageTime(e.delayTime, Num(2.0, "2.0")).value;
      e.Delay2? && e.input == AsElement(input).value && e.delayTime == AsElement(delayTime).value &&
      e.initial == AsElement(initial).value &&
      e.smooth1 == Smooth(name + "_smooth1", e.input, st, e.initial) &&
      e.smooth2 == Smooth(name + "_smooth2", e.smooth1, st, e.initial)
  {
    var i, d, iv := AsElement(input).value, AsElement(delayTime).value, AsElement(initial).value;
    assert AsElement(input).Ok? && AsElement(delayTime).Ok? && AsElement(initial).Ok?;
    StageTimeComputes(d, 2.0, "2.0", ctx);
    var st := StageTime(d, Num(2.0, "2.0")).value;
    var s1 := Smooth(name + "_smooth1", i, st, iv);
    var s2 := Smooth(name + "_smooth2", s1, st, iv);
    assert MakeDelay2(name, input, delayTime, initial) == Ok(Delay2(name, i, d, iv, s1, s2));
  }

  /**
   * Delay3 builds three stages, each on the previous one, with smoothing
   * time `delay_time / 3.0` and the same initial value, and outputs the third.
   */
  lemma Delay3Structure(name: string, input: Operand, delayTime: Operand, initial: Operand, ctx: Context)
    requires MakeDelay3(name, input, delayTime, initial).Ok?
    ensures var e := MakeDelay3(name, input, delayTime, initial).value;
      var st := StageTime(e.delayTime, Num(3.0, "3.0")).value;
      e.Delay3? && e.input == AsElement(input).value && e.delayTime == AsElement(delayTime).value &&
      e.initial == AsElement(initial).value &&
      e.smooth1 == Smooth(name + "_smooth1", e.input, st, e.initial) &&
      e.smooth2 == Smooth(name + "_smooth2", e.smooth1, st, e.initial) &&
      e.smooth3 == Smooth(name + "_smooth3", e.smooth2, st, e.initial)
  {
    var i, d, iv := AsElement(input).value, AsElement(delayTime).value, AsElement(initial).value;
    assert AsElement(input).Ok? && AsElement(delayTime).Ok? && AsElement(initial).Ok?;
    StageTimeComputes(d, 3.0, "3.0", ctx);
    var st := StageTime(d, Num(3.0, "3.0")).value;
    var s1 := Smooth(name + "_smooth1", i, st, iv);
    var s2 := Smooth(name + "_smooth2", s1, st, iv);
    var s3 := Smooth(name + "_smooth3", s2, st, iv);
    assert MakeDelay3(name, input, delayTime, initial) == Ok(Delay3(name, i, d, iv, s1, s2, s3));
  }

  /**
   * Away from time 0, with a lookup and a dt, Delay2 smooths the input
   * twice: the first stage from its own lagged value toward the input, the
   * second from its lagged value toward the first stage, each with
   * smoothing time delay/2.
   */
  lemma Delay2Computes(name: string, input: Operand, delayTime: Operand, initial: Operand, ctx: Context)
    requires MakeDelay2(name, input, delayTime, initial).Ok?
    requires ctx.time.Some? && ctx.time != Some(0.0) && ctx.lookup.Some? && ctx.dt.Some?
    requires Eval(AsElement(input).value, ctx).Ok? && Eval(AsElement(delayTime).value, ctx).Ok?
    ensures var L, h := ctx.lookup.value, ctx.dt.value;
      var x := Eval(AsElement(input).value, ctx).value;
      var st := ApplyOp(Div, Eval(AsElement(delayTime).value, ctx).value, 2.0);
      var s1 := SmoothValue(L(name + "_smooth1", h), h, st, x);
      Eval(MakeDelay2(name, input, delayTime, initial).value, ctx) == Ok(SmoothValue(L(name + "_smooth2", h), h, st, s1))
  {
    var e := MakeDelay2(name, input, delayTime, initial).value;
    Delay2Structure(name, input, delayTime, initial, ctx);
    var st := StageTime(e.delayTime, Num(2.0, "2.0")).value;
    StageTimeComputes(e.delayTime, 2.0, "2.0", ctx);
    Delay2Chain(name, e, st, ctx);
  }

  /** Two chained Smooth stages on the same smoothing time compute two smoothing steps. */
  lemma Delay2Chain(name: string, e: Expr, st: Expr, ctx: Context)
    requires e.Delay2?
    requires e.smooth1 == Smooth(name + "_smooth1", e.input, st, e.initial)
    requires e.smooth2 == Smooth(name + "_smooth2", e.smooth1, st, e.initial)
    requires ctx.time.Some? && ctx.time != Some(0.0) && ctx.lookup.Some? && ctx.dt.Some?
    requires Eval(e.input, ctx).Ok? && Eval(st, ctx).Ok?
    ensures var L, h, s := ctx.lookup.value, ctx.dt.value, Eval(st, ctx).value;
      var s1 := SmoothValue(L(name + "_smooth1", h), h, s, Eval(e.input, ctx).value);
      Eval(e, ctx) == Ok(SmoothValue(L(name + "_smooth2", h), h, s, s1))
  {
    DelayStagesOutput(e, ctx);
    SmoothComputes(name + "_smooth1", e.input, st, e.initial, ctx);
    SmoothComputes(name + "_smooth2", e.smooth1, st, e.initial, ctx);
  }

  /** Delay2 outputs its second stage and Delay3 its third. */
  lemma DelayStagesOutput(e: Expr, ctx: Context)
    ensures e.Delay2? ==> Eval(e, ctx) == Eval(e.smooth2, ctx)
    ensures e.Delay3? ==> Eval(e, ctx) == Eval(e.smooth3, ctx)
  {
  }

  /** Delay3 smooths the input three times in the same way, each stage with smoothing time delay/3. */
  lemma Delay3Computes(name: string, input: Operand, delayTime: Operand, initial: Operand, ctx: Context)
    requires MakeDelay3(name, input, delayTime, initial).Ok?
    requires ctx.time.Some? && ctx.time != Some(0.0) && ctx.lookup.Some? && ctx.dt.Some?
    requires Eval(AsElement(input).value, ctx).Ok? && Eval(AsElement(delayTime).value, ctx).Ok?
    ensures var L, h := ctx.lookup.value, ctx.dt.value;
      var x := Eval(AsElement(input).value, ctx).value;
      var st := ApplyOp(Div, Eval(AsElement(delayTime).value, ctx).value, 3.0);
      var s1 := SmoothValue(L(name + "_smooth1", h), h, st, x);
      var s2 := SmoothValue(L(name + "_smooth2", h), h, st, s1);
      Eval(MakeDelay3(name, input, delayTime, initial).value, ctx) == Ok(SmoothValue(L(name + "_smooth3", h), h, st, s2))
  {
    var e := MakeDelay3(name, input, delayTime, initial).value;
    Delay3Structure(name, input, delayTime, initial, ctx);
    var st := StageTime(e.delayTime, Num(3.0, "3.0")).value;
    StageTimeComputes(e.delayTime, 3.0, "3.0", ctx);
    Delay3Chain(name, e, st, ctx);
  }

  /** Three chained Smooth stages on the same smoothing time compute three smoothing steps. */
  lemma Delay3Chain(name: string, e: Expr, st: Expr, ctx: Context)
    requires e.Delay3?
    requires e.smooth1 == Smooth(name + "_smooth1", e.input, st, e.initial)
    requires e.smooth2 == Smooth(name + "_smooth2", e.smooth1, st, e.initial)
    requires e.smooth3 == Smooth(name + "_smooth3", e.smooth2, st, e.initial)
    requires ctx.time.Some? && ctx.time != Some(0.0) && ctx.lookup.Some? && ctx.dt.Some?
    requires Eval(e.input, ctx).Ok? && Eval(st, ctx).Ok?
    ensures var L, h, s := ctx.lookup.value, ctx.dt.value, Eval(st, ctx).value;
      var s1 := SmoothValue(L(name + "_smooth1", h), h, s, Eval(e.input, ctx).value);
      var s2 := SmoothValue(L(name + "_smooth2", h), h, s, s1);
      Eval(e, ctx) == Ok(SmoothValue(L(name + "_smooth3", h), h, s, s2))
  {
    DelayStagesOutput(e, ctx);
    SmoothComputes(name + "_smooth1", e.input, st, e.initial, ctx);
    SmoothComputes(name + "_smooth2", e.smooth1, st, e.initial, ctx);
    SmoothComputes(name + "_smooth3", e.smooth2, st, e.initial, ctx);
  }

  /**
   * Initial of a Stock is the stock's initial value. Of anything else it is
   * AttributeError once the element is attached to a model (Model keeps its
   * stocks in `_stocks`, not `stocks`), and the input computed in the
   * synthetic time-0 context before that.
   */
  lemma InitialComputes(name: string, input: Expr, modelStocks: Option<map<string, real>>, ctx: Context)
    ensures input.StockObject? ==> Eval(Initial(name, input, modelStocks), ctx) == Ok(input.initialValue)
    ensures !input.StockObject? && modelStocks.Some? ==>
      Eval(Initial(name, input, modelStocks), ctx) == Err(AttributeError("stocks"))
    ensures !input.StockObject? && modelStocks.None? ==>
      Eval(Initial(name, input, modelStocks), ctx) == Eval(input, InitialContext(None, ctx))
  {
  }

  /** Initial ignores the live context except its dt: the live time, state and lookup make no difference. */
  lemma InitialIgnoresContext(name: string, input: Expr, modelStocks: Option<map<string, real>>, c1: Context, c2: Context)
    requires c1.dt.GetOr(0.0) == c2.dt.GetOr(0.0)
    ensures Eval(Initial(name, input, modelStocks), c1) == Eval(Initial(name, input, modelStocks), c2)
  {
    assert InitialContext(modelStocks, c1) == InitialContext(modelStocks, c2);
  }

  /** Initial of a Stock reads its initial value, and an element outside any model reads 0.0. */
  lemma InitialReadsInitialValues(ctx: Context)
    ensures Eval(Initial("i", StockObject("s", 7.0), None), ctx) == Ok(7.0)
    ensures Eval(Initial("i", StockObject("s", 7.0), Some(map["s" := 5.0])), ctx) == Ok(7.0)
    ensures Eval(Initial("i", Element("s"), None), ctx) == Ok(0.0)
  {
  }

  /** As written: an element attached to a model whose stock "s" starts at 5 gets AttributeError, not 5. */
  lemma InitialWithModelFails(ctx: Context)
    ensures Eval(Initial("i", Element("s"), Some(map["s" := 5.0])), ctx) == Err(AttributeError("stocks"))
  {
  }

  /**
   * Initial as evidently intended: with a model attached, the input is
   * computed with every stock of the model at its initial value, so an
   * element reads the initial value of the stock of its name.
   */
  function InitialAsIntended(input: Expr, modelStocks: Option<map<string, real>>, ctx: Context): (r: Result<real>)
    ensures input.StockObject? ==> r == Ok(input.initialValue)
    ensures input.Element? && modelStocks.Some? && input.name in modelStocks.value ==>
      r == Ok(modelStocks.value[input.name])
    ensures input.Element? && input.name !in modelStocks.GetOr(map[]) ==> r == Ok(0.0)
  {
    if input.StockObject? then Ok(input.initialValue)
    else Eval(input, InitialContext(modelStocks, ctx))
  }

  /** Without a model, which is every Initial the rest of the model builds, as written and as intended agree. */
  lemma InitialAsIntendedWithoutModel(name: string, input: Expr, ctx: Context)
    ensures Eval(Initial(name, input, None), ctx) == InitialAsIntended(input, None, ctx)
  {
  }

  // ---------------------------------------------------------------------
  // Policy
  // ---------------------------------------------------------------------

  /** The mutable part of a Policy: remaining applications (negative: unlimited) and the per-time memo. */
  datatype PolicyState = PolicyState(apply: int, memo: map<real, real>)

  /**
   * Policy.compute as a function of the state before the call: the result
   * and the state after it. A memoised time answers from the memo; with no
   * applications left the answer is 0; a condition equal to 1 (Python's
   * `True`) spends one application, then divides the effect by dt and
   * memoises the quotient; anything else answers 0.
   */
  function PolicyCompute(condition: Expr, effect: Expr, s: PolicyState, ctx: Context): (Result<real>, PolicyState) {
    if ctx.time.None? then (Err(KeyError("time")), s)
    else
      var time := ctx.time.value;
      if time in s.memo then (Ok(s.memo[time]), s)
      else
        var c := Eval(condition, ctx);
        if c.Err? then (Err(c.error), s)
        else if s.apply == 0 then (Ok(0.0), s)
        else if c.value == 1.0 then
          var spent := s.(apply := s.apply - 1);
          var e := Eval(effect, ctx);
          if e.Err? then (Err(e.error), spent)
          else if ctx.dt.None? then (Err(KeyError("dt")), spent)
          else if ctx.dt.value == 0.0 then (Err(ZeroDivisionError), spent)
          else
            var r := e.value / ctx.dt.value;
            (Ok(r), spent.(memo := s.memo[time := r]))
        else (Ok(0.0), s)
  }

  /** A memoised time returns the memoised value and changes nothing, whatever the condition. */
  lemma PolicyMemoHit(condition: Expr, effect: Expr, s: PolicyState, ctx: Context)
    requires ctx.time.Some? && ctx.time.value in s.memo
    ensures PolicyCompute(condition, effect, s, ctx) == (Ok(s.memo[ctx.time.value]), s)
  {
  }

  /** With no applications left a new time answers 0 and changes nothing. */
  lemma PolicyExhausted(condition: Expr, effect: Expr, s: PolicyState, ctx: Context)
    requires ctx.time.Some? && ctx.time.value !in s.memo && Eval(condition, ctx).Ok?
    requires s.apply == 0
    ensures PolicyCompute(condition, effect, s, ctx) == (Ok(0.0), s)
  {
  }

  /**
   * A true condition at a new time with applications left spends exactly
   * one, answers `effect/dt`, and memoises that answer.
   */
  lemma PolicyFires(condition: Expr, effect: Expr, s: PolicyState, ctx: Context)
    requires ctx.time.Some? && ctx.time.value !in s.memo && s.apply != 0
    requires Eval(condition, ctx) == Ok(1.0) && Eval(effect, ctx).Ok?
    requires ctx.dt.Some? && ctx.dt.value != 0.0
    ensures var (r, s') := PolicyCompute(condition, effect, s, ctx);
      r == Ok(Eval(effect, ctx).value / ctx.dt.value) &&
      s'.apply == s.apply - 1 &&
      s'.memo == s.memo[ctx.time.value := r.value]
  {
  }

  /**
   * Computing twice in the same context gives the same answer, and the
   * second call changes nothing: a firing call memoised its answer, and a
   * call that did not fire left the state as it was.
   */
  lemma PolicyRepeatable(condition: Expr, effect: Expr, s: PolicyState, ctx: Context)
    requires PolicyCompute(condition, effect, s, ctx).0.Ok?
    ensures var (r, s1) := PolicyCompute(condition, effect, s, ctx);
      PolicyCompute(condition, effect, s1, ctx) == (r, s1)
  {
  }

  /** A call spends at most one application, and never spends below zero when the count is not negative. */
  lemma PolicySpendsAtMostOne(condition: Expr, effect: Expr, s: PolicyState, ctx: Context)
    ensures var s1 := PolicyCompute(condition, effect, s, ctx).1;
      (s1.apply == s.apply || s1.apply == s.apply - 1) &&
      (s.apply >= 0 ==> s1.apply >= 0) &&
      s.memo.Keys <= s1.memo.Keys
  {
  }

  /** The state after a series of computes, one per context. */
  function PolicyRun(condition: Expr, effect: Expr, s: PolicyState, ctxs: seq<Context>): PolicyState
    decreases |ctxs|
  {
    if ctxs == [] then s
    else PolicyRun(condition, effect, PolicyCompute(condition, effect, s, ctxs[0]).1, ctxs[1..])
  }

  /**
   * `apply = -1` means always: a negative count stays negative over any
   * series of computes, so the policy never runs out of applications and a
   * true condition at a new time always fires.
   */
  lemma {:induction false} UnlimitedNeverExhausts(condition: Expr, effect: Expr, s: PolicyState, ctxs: seq<Context>)
    requires s.apply < 0
    ensures PolicyRun(condition, effect, s, ctxs).apply < 0
    decreases |ctxs|
  {
    if ctxs != [] {
      PolicySpendsAtMostOne(condition, effect, s, ctxs[0]);
      UnlimitedNeverExhausts(condition, effect, PolicyCompute(condition, effect, s, ctxs[0]).1, ctxs[1..]);
    }
  }

  /** A count of n >= 0 can be spent at most n times: it ends between 0 and n. */
  lemma {:induction false} LimitedSpendsAtMostCount(condition: Expr, effect: Expr, s: PolicyState, ctxs: seq<Context>)
    requires s.apply >= 0
    ensures 0 <= PolicyRun(condition, effect, s, ctxs).apply <= s.apply
    decreases |ctxs|
  {
    if ctxs != [] {
      PolicySpendsAtMostOne(condition, effect, s, ctxs[0]);
      LimitedSpendsAtMostCount(condition, effect, PolicyCompute(condition, effect, s, ctxs[0]).1, ctxs[1..]);
    }
  }

  /** Policy (mead/components.py): the condition is kept as given, the effect coerced. */
  class Policy {
    const name: string
    const condition: Expr
    const effect: Expr
    var apply: int
    var applyMem: map<real, real>

    /** The fields as one value. */
    function State(): PolicyState
      reads this
    {
      PolicyState(apply, applyMem)
    }

    /** `Policy(name, condition, effect, apply)` once the effect is coerced; the memo starts empty. */
    constructor(name: string, condition: Expr, effect: Expr, apply: int := 1)
      ensures this.name == name && this.condition == condition && this.effect == effect
      ensures this.apply == apply && applyMem == map[]
    {
      this.name := name;
      this.condition := condition;
      this.effect := effect;
      this.apply := apply;
      applyMem := map[];
    }

    /** Policy.compute: updates the counter and the memo in place as PolicyCompute describes. */
    method Compute(ctx: Context) returns (r: Result<real>)
      modifies this
      ensures (r, State()) == PolicyCompute(condition, effect, old(State()), ctx)
    {
      if ctx.time.None? {
        return Err(KeyError("time"));
      }
      var time := ctx.time.value;
      if time in applyMem {
        return Ok(applyMem[time]);
      }
      var c := Eval(condition, ctx);
      if c.Err? {
        return Err(c.error);
      }
      if apply == 0 {
        return Ok(0.0);
      } else if c.value == 1.0 {
        apply := apply - 1;
        var e := Eval(effect, ctx);
        if e.Err? {
          return Err(e.error);
        }
        if ctx.dt.None? {
          return Err(KeyError("dt"));
        }
        if ctx.dt.value == 0.0 {
          return Err(ZeroDivisionError);
        }
        var result := e.value / ctx.dt.value;
        applyMem := applyMem[time := result];
        return Ok(result);
      } else {
        return Ok(0.0);
      }
    }
  }

  /** `Policy(name, condition, effect, apply)`: coerces the effect, raising ValueError before any object exists. */
  method MakePolicy(name: string, condition: Expr, effect: Operand, apply: int := 1) returns (r: Result<Policy>)
    ensures r.Ok? <==> AsElement(effect).Ok?
    ensures AsElement(effect).Err? ==> r == Err(AsElement(effect).error)
    ensures r.Ok? ==>
      AsElement(effect).Ok? && fresh(r.value) &&
      r.value.condition == condition && r.value.effect == AsElement(effect).value &&
      r.value.State() == PolicyState(apply, map[])
  {
    var e := AsElement(effect);
    if e.Err? {
      return Err(e.error);
    }
    var p := new Policy(name, condition, e.value, apply);
    return Ok(p);
  }
}
