/**
 * `as_element` (mead/utils.py): the coercion every component constructor
 * and Flow apply to their numeric-or-element arguments.
 */
module Utils {
  import opened Base
  import opened Core

  /**
   * An int or a float becomes `Constant("literal_<v>", v)`, an Element is
   * returned as it is, and any other value (a Stock of mead/stock.py
   * included, since it is not an Element) raises ValueError.
   */
  function AsElement(x: Operand): (r: Result<Expr>)
    ensures r.Ok? <==> x.Num? || (x.Elem? && !x.e.StockObject?)
    ensures r.Err? ==> r.error.ValueError?
    ensures x.Elem? && r.Ok? ==> r.value == x.e
    ensures x.Num? ==> r == Ok(Constant("literal_" + x.text, x.value))
  {
    match x
    case Num(v, text) => Ok(Constant("literal_" + text, v))
    case Elem(e) => if e.StockObject? then Err(ValueError("Can't handle type of value")) else Ok(e)
    case _ => Err(ValueError("Can't handle type of value"))
  }

  /** A coerced number computes to itself in every context, and is a literal. */
  lemma NumberBecomesLiteral(v: real, text: string, ctx: Context)
    ensures AsElement(Num(v, text)).Ok?
    ensures IsLiteral(AsElement(Num(v, text)).value)
    ensures Eval(AsElement(Num(v, text)).value, ctx) == Ok(v)
  {
    assert "literal_" <= "literal_" + text;
  }

  /**
   * Whatever as_element accepts, Equation's boxing accepts too and gives the
   * same element. Boxing accepts more: a float-convertible value that is not
   * an int or a float becomes a literal there, while as_element raises
   * ValueError for it.
   */
  lemma BoxAgreesWithAsElement(x: Operand)
    ensures AsElement(x).Ok? ==> BoxOperand(x) == AsElement(x)
    ensures x.Convertible? ==> BoxOperand(x).Ok? && AsElement(x).Err?
  {
  }

  /** Applying as_element to its own result returns that result. */
  lemma AsElementIdempotent(x: Operand)
    requires AsElement(x).Ok?
    ensures AsElement(Elem(AsElement(x).value)) == AsElement(x)
  {
  }

  /** Coercing a list with one more item in front: that item's failure, the rest's failure, or both coerced. */
  lemma AsElementsCons(x: Operand, xs: seq<Operand>)
    ensures AsElements([x] + xs) ==
      if AsElement(x).Err? then Err(AsElement(x).error)
      else if AsElements(xs).Err? then Err(AsElements(xs).error)
      else Ok([AsElement(x).value] + AsElements(xs).value)
  {
    assert ([x] + xs)[0] == x && ([x] + xs)[1..] == xs;
  }

  /** Coercing three arguments in order: the first failure, or the three coerced elements. */
  lemma AsElementsOfThree(a: Operand, b: Operand, c: Operand)
    ensures AsElements([a, b, c]) ==
      if AsElement(a).Err? then Err(AsElement(a).error)
      else if AsElement(b).Err? then Err(AsElement(b).error)
      else if AsElement(c).Err? then Err(AsElement(c).error)
      else Ok([AsElement(a).value, AsElement(b).value, AsElement(c).value])
  {
    assert [c] == [c] + [] && [b, c] == [b] + [c] && [a, b, c] == [a] + [b, c];
    assert AsElements([]) == Ok([]);
    AsElementsCons(c, []);
    AsElementsCons(b, [c]);
    AsElementsCons(a, [b, c]);
    if AsElement(a).Ok? && AsElement(b).Ok? && AsElement(c).Ok? {
      var x, y, z := AsElement(a).value, AsElement(b).value, AsElement(c).value;
      assert [z] + [] == [z];
      assert AsElements([c]) == Ok([z]);
      assert AsElements([b, c]) == Ok([y] + [z]);
      assert [x] + ([y] + [z]) == [x, y, z];
    }
  }

  /** Coercing four arguments in order: the first failure, or the four coerced elements. */
  lemma AsElementsOfFour(a: Operand, b: Operand, c: Operand, d: Operand)
    ensures AsElements([a, b, c, d]) ==
      if AsElement(a).Err? then Err(AsElement(a).error)
      else if AsElement(b).Err? then Err(AsElement(b).error)
      else if AsElement(c).Err? then Err(AsElement(c).error)
      else if AsElement(d).Err? then Err(AsElement(d).error)
      else Ok([AsElement(a).value, AsElement(b).value, AsElement(c).value, AsElement(d).value])
  {
    AsElementsOfThree(b, c, d);
    AsElementsCons(a, [b, c, d]);
    assert [a, b, c, d] == [a] + [b, c, d];
    if AsElements([a, b, c, d]).Ok? {
      var w := AsElement(a).value;
      var rest := [AsElement(b).value, AsElement(c).value, AsElement(d).value];
      assert [w] + rest == [w, rest[0], rest[1], rest[2]];
    }
  }

  /** `[as_element(i) for i in xs]`: the first failure, or every coerced element in order. */
  function AsElements(xs: seq<Operand>): (r: Result<seq<Expr>>)
    ensures r.Ok? ==> |r.value| == |xs| && forall i :: 0 <= i < |xs| ==> AsElement(xs[i]) == Ok(r.value[i])
    ensures r.Err? ==> exists i :: (0 <= i < |xs| && AsElement(xs[i]) == Err(r.error) &&
      forall j :: 0 <= j < i ==> AsElement(xs[j]).Ok?)
    ensures r.Err? <==> exists i :: 0 <= i < |xs| && AsElement(xs[i]).Err?
  {
    if xs == [] then Ok([])
    else
      var first :- AsElement(xs[0]);
      var rest :- AsElements(xs[1..]);
      assert forall i :: 1 <= i < |xs| ==> xs[i] == xs[1..][i - 1];
      Ok([first] + rest)
  }
}
