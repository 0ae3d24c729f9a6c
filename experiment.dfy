/**
 * Experiment of mead/experiment.py: lists of alternative values for
 * attributes of model elements, and the scenarios that try every
 * combination of them.
 *
 * Elements are of any type E whose equality is the identity the source's
 * dictionary of changes is keyed by; attribute values are of any type V.
 * `copy.replace(element, **changes)` is the parameter `replace`.
 */
module Experiments {
  import opened Base

  /** A keyword argument's value: a non-string iterable, or anything else (strings included). */
  datatype Argument<V> = Items(items: seq<V>) | Single(value: V)

  /** `list(value)` for a non-string iterable, `[value]` for anything else. */
  function ValueList<V>(a: Argument<V>): (r: seq<V>)
    ensures a.Single? ==> r == [a.value]
    ensures a.Items? ==> r == a.items
  {
    match a
    case Items(xs) => xs
    case Single(v) => [v]
  }

  /** One entry of `_variants`: `(element, element.name, attr, var_list)`. */
  datatype Variant<E, V> = Variant(element: E, elementName: string, attr: string, values: seq<V>)

  /** `Scenario(name, variants)`. */
  datatype Scenario<E> = Scenario(name: string, variants: seq<E>)

  /** `[v[3] for v in self._variants]`. */
  function ValueLists<E, V>(variants: seq<Variant<E, V>>): (r: seq<seq<V>>)
    ensures |r| == |variants|
    ensures forall j :: 0 <= j < |variants| ==> r[j] == variants[j].values
  {
    seq(|variants|, j requires 0 <= j < |variants| => variants[j].values)
  }

  /** The number of combinations: the product of the lists' lengths. */
  function ProductCount<V>(lists: seq<seq<V>>): nat {
    if |lists| == 0 then 1 else |lists[0]| * ProductCount(lists[1..])
  }

  /** Each of xs in turn, put in front of each of ps in turn. */
  function Prefixed<V>(xs: seq<V>, ps: seq<seq<V>>): (r: seq<seq<V>>)
    ensures |r| == |xs| * |ps|
  {
    if |xs| == 0 then []
    else seq(|ps|, k requires 0 <= k < |ps| => [xs[0]] + ps[k]) + Prefixed(xs[1..], ps)
  }

  /** `itertools.product(*lists)`: one item of every list, the last list varying fastest. */
  function Product<V>(lists: seq<seq<V>>): (r: seq<seq<V>>)
    ensures |r| == ProductCount(lists)
  {
    if |lists| == 0 then [[]] else Prefixed(lists[0], Product(lists[1..]))
  }

  /** c picks one item of every list, in the lists' order. */
  ghost predicate IsChoice<V>(c: seq<V>, lists: seq<seq<V>>) {
    |c| == |lists| && forall j :: 0 <= j < |lists| ==> c[j] in lists[j]
  }

  /** The item a of xs in front of the tuple q of ps sits at `a * |ps| + q`. */
  lemma {:induction false} PrefixedAt<V>(xs: seq<V>, ps: seq<seq<V>>, a: nat, q: nat)
    requires a < |xs| && q < |ps|
    ensures a * |ps| + q < |Prefixed(xs, ps)|
    ensures Prefixed(xs, ps)[a * |ps| + q] == [xs[a]] + ps[q]
    decreases a
  {
    var p := |ps|;
    if a > 0 {
      PrefixedAt(xs[1..], ps, a - 1, q);
      assert a * p + q == p + ((a - 1) * p + q);
      assert |xs| * p == p + (|xs| - 1) * p;
    } else {
      assert |xs| * p == p + (|xs| - 1) * p;
      NonNegativeProductInt(|xs| - 1, p);
    }
  }

  lemma NonNegativeProductInt(a: int, b: int)
    requires a >= 0 && b >= 0
    ensures a * b >= 0
  {
  }

  /** Everything in `Prefixed(xs, ps)` is an item of xs in front of a tuple of ps. */
  lemma {:induction false} PrefixedMember<V>(xs: seq<V>, ps: seq<seq<V>>, c: seq<V>)
    requires c in Prefixed(xs, ps)
    ensures exists a, q :: 0 <= a < |xs| && 0 <= q < |ps| && c == [xs[a]] + ps[q]
    decreases |xs|
  {
    var head := seq(|ps|, k requires 0 <= k < |ps| => [xs[0]] + ps[k]);
    if c in head {
      var q :| 0 <= q < |ps| && head[q] == c;
      assert c == [xs[0]] + ps[q];
    } else {
      assert c in Prefixed(xs[1..], ps);
      PrefixedMember(xs[1..], ps, c);
      var a, q :| 0 <= a < |xs| - 1 && 0 <= q < |ps| && c == [xs[1..][a]] + ps[q];
      assert c == [xs[a + 1]] + ps[q];
    }
  }

  /**
   * The combinations in product order: item a of the first list with
   * combination q of the rest is combination `a * P + q`, where P is the
   * number of combinations of the rest.
   */
  lemma ProductAt<V>(lists: seq<seq<V>>, a: nat, q: nat, i: nat)
    requires |lists| > 0 && a < |lists[0]| && q < ProductCount(lists[1..])
    requires i == a * ProductCount(lists[1..]) + q
    ensures i < |Product(lists)| && Product(lists)[i] == [lists[0][a]] + Product(lists[1..])[q]
  {
    PrefixedAt(lists[0], Product(lists[1..]), a, q);
  }

  /** The product holds exactly the choices of one item from every list. */
  lemma ProductIsChoices<V>(lists: seq<seq<V>>, c: seq<V>)
    ensures c in Product(lists) <==> IsChoice(c, lists)
  {
    if c in Product(lists) {
      ProductMemberIsChoice(lists, c);
    }
    if IsChoice(c, lists) {
      ChoiceInProduct(lists, c);
    }
  }

  /** Every combination of the product picks one item from every list. */
  lemma {:induction false} ProductMemberIsChoice<V>(lists: seq<seq<V>>, c: seq<V>)
    requires c in Product(lists)
    ensures IsChoice(c, lists)
    decreases |lists|
  {
    if |lists| > 0 {
      var rest := Product(lists[1..]);
      PrefixedMember(lists[0], rest, c);
      var a, q :| 0 <= a < |lists[0]| && 0 <= q < |rest| && c == [lists[0][a]] + rest[q];
      assert rest[q] in rest;
      ProductMemberIsChoice(lists[1..], rest[q]);
      forall j | 0 <= j < |lists|
        ensures c[j] in lists[j]
      {
        if j > 0 {
          assert c[j] == rest[q][j - 1];
          assert lists[1..][j - 1] == lists[j];
        }
      }
    } else {
      assert c == [];
    }
  }

  /** Every way of picking one item from every list is a combination of the product. */
  lemma {:induction false} ChoiceInProduct<V>(lists: seq<seq<V>>, c: seq<V>)
    requires IsChoice(c, lists)
    ensures c in Product(lists)
    decreases |lists|
  {
    if |lists| == 0 {
      assert c == [];
    } else {
      var rest := Product(lists[1..]);
      assert c[0] in lists[0];
      var a :| 0 <= a < |lists[0]| && lists[0][a] == c[0];
      ChoiceTail(lists, c);
      ChoiceInProduct(lists[1..], c[1..]);
      var q :| 0 <= q < |rest| && rest[q] == c[1..];
      InProduct(lists, a, q);
      assert [lists[0][a]] + rest[q] == c;
    }
  }

  /** Item a of the first list in front of combination q of the rest is a combination. */
  lemma InProduct<V>(lists: seq<seq<V>>, a: nat, q: nat)
    requires |lists| > 0 && a < |lists[0]| && q < ProductCount(lists[1..])
    ensures [lists[0][a]] + Product(lists[1..])[q] in Product(lists)
  {
    var p := ProductCount(lists[1..]);
    NonNegativeProductInt(a, p);
    var idx: nat := a * p + q;
    ProductAt(lists, a, q, idx);
    AtIndexIsMember(Product(lists), idx, [lists[0][a]] + Product(lists[1..])[q]);
  }

  lemma AtIndexIsMember<T>(s: seq<T>, i: nat, x: T)
    requires i < |s| && s[i] == x
    ensures x in s
  {
  }

  /** Dropping the first list and the first pick leaves a choice from the other lists. */
  lemma ChoiceTail<V>(lists: seq<seq<V>>, c: seq<V>)
    requires IsChoice(c, lists) && |lists| > 0
    ensures IsChoice(c[1..], lists[1..])
  {
    forall j | 0 <= j < |lists| - 1
      ensures c[1..][j] in lists[1..][j]
    {
      assert c[1..][j] == c[j + 1];
      assert lists[1..][j] == lists[j + 1];
    }
  }

  /** The dictionary of changes: element, then its attribute values, in order of first appearance. */
  type Changes<E, V> = seq<(E, map<string, V>)>

  /** The changes recorded for the element e, if any. */
  function Find<E(==), V>(changes: Changes<E, V>, e: E): Option<map<string, V>> {
    if |changes| == 0 then None
    else if changes[0].0 == e then Some(changes[0].1)
    else Find(changes[1..], e)
  }

  /** No element appears twice. */
  ghost predicate Distinct<E, V>(changes: Changes<E, V>) {
    forall k, l :: 0 <= k < l < |changes| ==> changes[k].0 != changes[l].0
  }

  /**
   * `changes_by_element[e][attr] = value`: the attribute of e's entry is
   * set (an existing one overwritten); an element without an entry gets a
   * new one at the end.
   */
  function Assign<E(==), V>(changes: Changes<E, V>, e: E, attr: string, value: V): (r: Changes<E, V>)
    ensures |r| == |changes| || |r| == |changes| + 1
    ensures forall k :: 0 <= k < |changes| ==> r[k].0 == changes[k].0
    ensures |r| == |changes| + 1 ==> r[|changes|].0 == e
    ensures Find(r, e) == Some(Find(changes, e).GetOr(map[])[attr := value])
    ensures Distinct(changes) ==> Distinct(r)
  {
    if |changes| == 0 then [(e, map[attr := value])]
    else if changes[0].0 == e then [(e, changes[0].1[attr := value])] + changes[1..]
    else
      var rest := Assign(changes[1..], e, attr, value);
      assert FindAbsent: Distinct(changes) ==> Find(changes[1..], changes[0].0).None? by {
        if Distinct(changes) {
          NotListedNotFound(changes[1..], changes[0].0);
        }
      }
      assert Distinct(changes) ==> forall k :: 0 < k < |changes| ==> changes[k].0 != changes[0].0;
      var r := [changes[0]] + rest;
      assert Distinct(changes) ==> Distinct(r) by {
        if Distinct(changes) {
          forall k | 0 <= k < |rest|
            ensures rest[k].0 != changes[0].0
          {
            if k < |changes| - 1 {
              assert rest[k].0 == changes[k + 1].0;
            } else {
              assert rest[k].0 == e;
            }
          }
        }
      }
      r
  }

  /** Assigning to e leaves the changes of every other element as they were. */
  lemma {:induction false} AssignOther<E, V>(changes: Changes<E, V>, e: E, attr: string, value: V, x: E)
    requires x != e
    ensures Find(Assign(changes, e, attr, value), x) == Find(changes, x)
    decreases |changes|
  {
    if |changes| > 0 && changes[0].0 != e {
      AssignOther(changes[1..], e, attr, value, x);
      assert Assign(changes, e, attr, value)[1..] == Assign(changes[1..], e, attr, value);
    }
  }

  /** An element listed nowhere has no changes. */
  lemma {:induction false} NotListedNotFound<E, V>(changes: Changes<E, V>, e: E)
    requires forall k :: 0 <= k < |changes| ==> changes[k].0 != e
    ensures Find(changes, e).None?
    decreases |changes|
  {
    if |changes| > 0 {
      NotListedNotFound(changes[1..], e);
    }
  }

  /**
   * The loop over `enumerate(combinations)`: the j-th value goes to the
   * attribute of the j-th variant's element.
   */
  function ChangesOf<E(==), V>(variants: seq<Variant<E, V>>, combo: seq<V>): (r: Changes<E, V>)
    requires |combo| == |variants|
    ensures |r| <= |variants|
    ensures Distinct(r)
    decreases |variants|
  {
    if |variants| == 0 then []
    else
      var n := |variants| - 1;
      Assign(ChangesOf(variants[..n], combo[..n]), variants[n].element, variants[n].attr, combo[n])
  }

  /** Some variant is of the element e. */
  predicate HasElement<E(==), V>(variants: seq<Variant<E, V>>, e: E) {
    exists j :: 0 <= j < |variants| && variants[j].element == e
  }

  /** The value of the last variant for element e and attribute attr, if there is one: the one that wins. */
  function LastValue<E(==), V>(variants: seq<Variant<E, V>>, combo: seq<V>, e: E, attr: string): Option<V>
    requires |combo| == |variants|
    decreases |variants|
  {
    if |variants| == 0 then None
    else
      var n := |variants| - 1;
      if variants[n].element == e && variants[n].attr == attr then Some(combo[n])
      else LastValue(variants[..n], combo[..n], e, attr)
  }

  /**
   * The changes have an entry for e exactly when some variant is of e;
   * within it, attr is set exactly when some variant of e names it, to the
   * value of the last such variant.
   */
  ghost predicate Merges<E, V>(variants: seq<Variant<E, V>>, combo: seq<V>, e: E, attr: string)
    requires |combo| == |variants|
  {
    var found := Find(ChangesOf(variants, combo), e);
    (found.Some? <==> HasElement(variants, e)) &&
    (found.Some? ==>
      (attr in found.value <==> LastValue(variants, combo, e, attr).Some?) &&
      (attr in found.value ==> found.value[attr] == LastValue(variants, combo, e, attr).value))
  }

  /** Several attributes of one element merge into one entry, and the last value of each attribute wins. */
  lemma {:induction false} ChangesMerge<E, V>(variants: seq<Variant<E, V>>, combo: seq<V>, e: E, attr: string)
    requires |combo| == |variants|
    ensures Merges(variants, combo, e, attr)
    decreases |variants|
  {
    if |variants| > 0 {
      var n := |variants| - 1;
      ChangesMerge(variants[..n], combo[..n], e, attr);
      MergesNext(variants, combo, e, attr);
    }
  }

  /** The step of ChangesMerge: one more variant on top of the prefix. */
  lemma MergesNext<E, V>(variants: seq<Variant<E, V>>, combo: seq<V>, e: E, attr: string)
    requires |combo| == |variants| > 0
    requires Merges(variants[..|variants| - 1], combo[..|variants| - 1], e, attr)
    ensures Merges(variants, combo, e, attr)
  {
    var n := |variants| - 1;
    var prefix, pcombo := variants[..n], combo[..n];
    var last := variants[n];
    var before := ChangesOf(prefix, pcombo);
    var after := ChangesOf(variants, combo);
    assert after == Assign(before, last.element, last.attr, combo[n]);
    var was := Find(before, e);
    var found := Find(after, e);
    LastValueNeedsElement(prefix, pcombo, e, attr);
    HasElementNext(variants, e);
    if last.element != e {
      AssignOther(before, last.element, last.attr, combo[n], e);
      assert found == was;
      assert LastValue(variants, combo, e, attr) == LastValue(prefix, pcombo, e, attr);
    } else {
      assert found == Some(was.GetOr(map[])[last.attr := combo[n]]);
      if attr == last.attr {
        assert LastValue(variants, combo, e, attr) == Some(combo[n]);
      } else {
        assert LastValue(variants, combo, e, attr) == LastValue(prefix, pcombo, e, attr);
        assert attr in found.value <==> attr in was.GetOr(map[]);
      }
    }
  }

  /** Some variant is of e iff some variant of the prefix is, or the last one is. */
  lemma HasElementNext<E, V>(variants: seq<Variant<E, V>>, e: E)
    requires |variants| > 0
    ensures HasElement(variants, e) <==>
      HasElement(variants[..|variants| - 1], e) || variants[|variants| - 1].element == e
  {
    var n := |variants| - 1;
    var prefix := variants[..n];
    if HasElement(variants, e) {
      var j :| 0 <= j < |variants| && variants[j].element == e;
      if j < n {
        assert prefix[j].element == e;
      }
    }
    if HasElement(prefix, e) {
      var j :| 0 <= j < n && prefix[j].element == e;
      assert variants[j].element == e;
    }
  }

  /** A last value exists only for an element that has a variant. */
  lemma {:induction false} LastValueNeedsElement<E, V>(variants: seq<Variant<E, V>>, combo: seq<V>, e: E, attr: string)
    requires |combo| == |variants|
    ensures LastValue(variants, combo, e, attr).Some? ==> HasElement(variants, e)
    decreases |variants|
  {
    if |variants| > 0 {
      var n := |variants| - 1;
      LastValueNeedsElement(variants[..n], combo[..n], e, attr);
      if LastValue(variants[..n], combo[..n], e, attr).Some? && HasElement(variants[..n], e) {
        var j :| 0 <= j < n && variants[..n][j].element == e;
        assert variants[j].element == e;
      }
    }
  }

  /** `replace(element, **changes)` for every element of the changes, in their order. */
  function Replaced<E, V>(changes: Changes<E, V>, replace: (E, map<string, V>) -> E): (r: seq<E>)
    ensures |r| == |changes|
    ensures forall k :: 0 <= k < |changes| ==> r[k] == replace(changes[k].0, changes[k].1)
  {
    seq(|changes|, k requires 0 <= k < |changes| => replace(changes[k].0, changes[k].1))
  }

  /** `scenarios()`: scenario i is named `<name>_<i>` and replaces the elements its combination changes. */
  function ScenarioList<E(==), V>(name: string, variants: seq<Variant<E, V>>, replace: (E, map<string, V>) -> E): (r: seq<Scenario<E>>)
    ensures |r| == ProductCount(ValueLists(variants))
    ensures forall i :: 0 <= i < |r| ==> r[i].name == name + "_" + NatToString(i)
  {
    var lists := ValueLists(variants);
    var combos := Product(lists);
    seq(|combos|, i requires 0 <= i < |combos| =>
      Scenario(name + "_" + NatToString(i), Replaced(ChangesOf(variants, ChoiceAt(lists, combos, i)), replace)))
  }

  /** No two scenarios share a name: the numbers after `<name>_` differ, and so do their texts. */
  lemma ScenarioNamesDistinct<E, V>(name: string, variants: seq<Variant<E, V>>, replace: (E, map<string, V>) -> E, i: nat, j: nat)
    requires i < j < |ScenarioList(name, variants, replace)|
    ensures ScenarioList(name, variants, replace)[i].name != ScenarioList(name, variants, replace)[j].name
  {
    var prefix := name + "_";
    var a, b := prefix + NatToString(i), prefix + NatToString(j);
    if a == b {
      assert a[|prefix|..] == NatToString(i) && b[|prefix|..] == NatToString(j);
      NatToStringRoundTrip(i);
      NatToStringRoundTrip(j);
    }
  }

  /** The i-th combination, which has one value per variant. */
  function ChoiceAt<V>(lists: seq<seq<V>>, combos: seq<seq<V>>, i: nat): (c: seq<V>)
    requires combos == Product(lists) && i < |combos|
    ensures |c| == |lists| && c == combos[i]
  {
    ProductIsChoices(lists, combos[i]);
    combos[i]
  }

  /**
   * Scenario i makes the changes of the i-th combination: one replaced
   * element per distinct element among the variants, each at most once.
   */
  lemma ScenarioChanges<E, V>(name: string, variants: seq<Variant<E, V>>, replace: (E, map<string, V>) -> E, i: nat)
    requires i < |ScenarioList(name, variants, replace)|
    ensures var combo := Product(ValueLists(variants))[i];
      |combo| == |variants| &&
      ScenarioList(name, variants, replace)[i].variants == Replaced(ChangesOf(variants, combo), replace)
  {
  }

  /** Without variants there is exactly one scenario, `<name>_0`, which changes nothing. */
  lemma NoVariants<E, V>(name: string, replace: (E, map<string, V>) -> E)
    ensures ScenarioList(name, [], replace) == [Scenario(name + "_0", [])]
  {
    var none: seq<Variant<E, V>> := [];
    var lists := ValueLists(none);
    assert lists == [];
    assert Product(lists) == [[]];
    var r := ScenarioList(name, none, replace);
    assert |r| == 1;
    var c := ChoiceAt(lists, Product(lists), 0);
    assert ChangesOf(none, c) == [];
    assert r[0] == Scenario(name + "_" + NatToString(0), Replaced(ChangesOf(none, c), replace));
    assert NatToString(0) == "0";
    assert name + "_" + "0" == name + "_0";
    assert |Replaced(ChangesOf(none, c), replace)| == 0;
    assert r == [r[0]];
  }

  /** Two values of one attribute and three of another give six combinations, the second attribute varying fastest. */
  lemma ProductExample()
    ensures Product([[1, 2], [10, 20, 30]]) == [[1, 10], [1, 20], [1, 30], [2, 10], [2, 20], [2, 30]]
  {
    var p := Product([[1, 2], [10, 20, 30]]);
    ProductExampleAt(0, 0);
    ProductExampleAt(0, 1);
    ProductExampleAt(0, 2);
    ProductExampleAt(1, 0);
    ProductExampleAt(1, 1);
    ProductExampleAt(1, 2);
    assert |p| == 6;
  }

  /** Combination `3 a + q` of ProductExample. */
  lemma ProductExampleAt(a: nat, q: nat)
    requires a < 2 && q < 3
    ensures Product([[1, 2], [10, 20, 30]])[a * 3 + q] == [[1, 2][a], [10, 20, 30][q]]
  {
    var lists: seq<seq<int>> := [[1, 2], [10, 20, 30]];
    var rest := lists[1..];
    assert rest == [[10, 20, 30]] && rest[1..] == [];
    assert ProductCount(rest) == 3;
    ProductAt(lists, a, q, a * 3 + q);
    ProductAt(rest, q, 0, q);
    assert Product(rest[1..]) == [[]];
  }

  class Experiment<E(==), V> {
    const name: string
    var variants: seq<Variant<E, V>>
    var elements: map<string, E>

    /** `Experiment(name)`: no variants and no elements yet. */
    constructor(name: string)
      ensures this.name == name && variants == [] && elements == map[]
    {
      this.name := name;
      variants := [];
      elements := map[];
    }

    /**
     * `add_variant(element, **kwargs)`, with the keyword arguments in
     * order and `elementName` the element's name: the element is stored
     * under its name and one variant per keyword argument is appended.
     */
    method AddVariant(element: E, elementName: string, kwargs: seq<(string, Argument<V>)>)
      modifies this
      ensures elements == old(elements)[elementName := element]
      ensures |variants| == |old(variants)| + |kwargs| && variants[..|old(variants)|] == old(variants)
      ensures forall k :: 0 <= k < |kwargs| ==>
        variants[|old(variants)| + k] == Variant(element, elementName, kwargs[k].0, ValueList(kwargs[k].1))
    {
      elements := elements[elementName := element];
      for i := 0 to |kwargs|
        invariant elements == old(elements)[elementName := element]
        invariant |variants| == |old(variants)| + i && variants[..|old(variants)|] == old(variants)
        invariant forall k :: 0 <= k < i ==>
          variants[|old(variants)| + k] == Variant(element, elementName, kwargs[k].0, ValueList(kwargs[k].1))
      {
        variants := variants + [Variant(element, elementName, kwargs[i].0, ValueList(kwargs[i].1))];
      }
    }

    /** `scenarios()` over the variants added so far. */
    function Scenarios(replace: (E, map<string, V>) -> E): (r: seq<Scenario<E>>)
      reads this
      ensures |r| == ProductCount(ValueLists(variants))
      ensures forall i :: 0 <= i < |r| ==> r[i].name == name + "_" + NatToString(i)
    {
      ScenarioList(name, variants, replace)
    }
  }
}
