/**
 * The piecewise-linear lookup behind the Table component
 * (mead/components.py, class Table): breakpoints sorted by x at
 * construction, flat extrapolation at both ends, linear interpolation in
 * the first segment that encloses the input.
 */
module Tables {
  import opened Base

  /** A breakpoint (x, y). */
  type Point = (real, real)

  ghost predicate SortedByX(ps: seq<Point>) {
    forall i, j :: 0 <= i < j < |ps| ==> ps[i].0 <= ps[j].0
  }

  ghost predicate StrictlyIncreasingX(ps: seq<Point>) {
    forall i, j :: 0 <= i < j < |ps| ==> ps[i].0 < ps[j].0
  }

  /** Inserting adds exactly p to the points. */
  lemma InsertByXPermutes(sorted: seq<Point>, p: Point)
    requires SortedByX(sorted)
    ensures multiset(InsertByX(sorted, p)) == multiset(sorted) + multiset{p}
  {
    var k :| 0 <= k <= |sorted| && InsertByX(sorted, p) == sorted[..k] + [p] + sorted[k..] &&
      forall i :: k <= i < |sorted| ==> sorted[i].0 > p.0;
    assert sorted == sorted[..k] + sorted[k..];
  }

  /** The sorted points are a permutation of the given ones. */
  lemma {:induction false} SortByXPermutes(ps: seq<Point>)
    ensures multiset(SortByX(ps)) == multiset(ps)
  {
    if ps != [] {
      var init, last := ps[..|ps| - 1], ps[|ps| - 1];
      assert ps == init + [last];
      assert multiset(ps) == multiset(init) + multiset{last};
      var sortedInit := SortByX(init);
      assert SortByX(ps) == InsertByX(sortedInit, last);
      SortByXPermutes(init);
      InsertByXPermutes(sortedInit, last);
    }
  }

  /** Sorting a sequence with one more point at the end inserts that point into the sorted rest. */
  lemma SortByXSnoc(init: seq<Point>, last: Point)
    ensures SortByX(init + [last]) == InsertByX(SortByX(init), last)
  {
    assert (init + [last])[..|init|] == init;
  }

  /**
   * Where p goes in `sorted`: after the last point whose x is at most p's.
   * Every point from there on has a greater x.
   */
  function InsertionPoint(sorted: seq<Point>, p: Point): (k: nat)
    ensures k <= |sorted|
    ensures forall i :: k <= i < |sorted| ==> sorted[i].0 > p.0
    ensures 0 < k ==> sorted[k - 1].0 <= p.0
  {
    if sorted == [] || sorted[|sorted| - 1].0 <= p.0 then |sorted|
    else InsertionPoint(sorted[..|sorted| - 1], p)
  }

  /**
   * Places p after every point of `sorted` whose x is at most p's x, which
   * keeps points of equal x in their original order (Python's sort is stable).
   */
  function InsertByX(sorted: seq<Point>, p: Point): (r: seq<Point>)
    requires SortedByX(sorted)
    ensures SortedByX(r)
    ensures |r| == |sorted| + 1
    ensures exists k :: (0 <= k <= |sorted| && r == sorted[..k] + [p] + sorted[k..] &&
      forall i :: k <= i < |sorted| ==> sorted[i].0 > p.0)
  {
    var k := InsertionPoint(sorted, p);
    SpliceSorted(sorted, p, k);
    assert sorted == sorted[..k] + sorted[k..];
    sorted[..k] + [p] + sorted[k..]
  }

  /** Splicing p in where the x before it is at most p's and those after are greater keeps a sequence sorted. */
  lemma SpliceSorted(sorted: seq<Point>, p: Point, k: nat)
    requires SortedByX(sorted)
    requires k <= |sorted|
    requires forall i :: k <= i < |sorted| ==> sorted[i].0 > p.0
    requires 0 < k ==> sorted[k - 1].0 <= p.0
    ensures SortedByX(sorted[..k] + [p] + sorted[k..])
  {
    var r := sorted[..k] + [p] + sorted[k..];
    forall i, j | 0 <= i < j < |r|
      ensures r[i].0 <= r[j].0
    {
      if j < k {
        assert r[i] == sorted[i] && r[j] == sorted[j];
      } else if j == k {
        assert r[i] == sorted[i] && r[j] == p;
        assert sorted[i].0 <= sorted[k - 1].0;
      } else if i == k {
        assert r[j] == sorted[j - 1];
      } else if i < k {
        assert r[i] == sorted[i] && r[j] == sorted[j - 1];
      } else {
        assert r[i] == sorted[i - 1] && r[j] == sorted[j - 1];
      }
    }
  }

  /** `sorted(points, key=lambda p: p[0])` */
  function SortByX(ps: seq<Point>): (r: seq<Point>)
    ensures SortedByX(r)
    ensures |r| == |ps|
  {
    if ps == [] then []
    else
      var init := ps[..|ps| - 1];
      assert ps == init + [ps[|ps| - 1]];
      InsertByX(SortByX(init), ps[|ps| - 1])
  }

  /** The points of `ps` whose x is v, in their order in `ps`. */
  function WithX(ps: seq<Point>, v: real): seq<Point> {
    if ps == [] then []
    else WithX(ps[..|ps| - 1], v) + (if ps[|ps| - 1].0 == v then [ps[|ps| - 1]] else [])
  }

  lemma {:induction false} WithXConcat(a: seq<Point>, b: seq<Point>, v: real)
    ensures WithX(a + b, v) == WithX(a, v) + WithX(b, v)
    decreases |b|
  {
    if b == [] {
      assert a + b == a;
    } else {
      var init, last := b[..|b| - 1], b[|b| - 1];
      assert (a + b)[..|a + b| - 1] == a + init;
      assert (a + b)[|a + b| - 1] == last;
      WithXConcat(a, init, v);
    }
  }

  lemma {:induction false} WithXNone(ps: seq<Point>, v: real)
    requires forall i :: 0 <= i < |ps| ==> ps[i].0 != v
    ensures WithX(ps, v) == []
  {
    if ps != [] {
      WithXNone(ps[..|ps| - 1], v);
    }
  }

  /** Inserting p adds it after the points of its own x and leaves the order of every other x as it was. */
  lemma InsertByXStable(sorted: seq<Point>, p: Point, v: real)
    requires SortedByX(sorted)
    ensures WithX(InsertByX(sorted, p), v) == WithX(sorted, v) + (if p.0 == v then [p] else [])
  {
    var k :| 0 <= k <= |sorted| && InsertByX(sorted, p) == sorted[..k] + [p] + sorted[k..] &&
      forall i :: k <= i < |sorted| ==> sorted[i].0 > p.0;
    StableSplice(sorted[..k], sorted[k..], p, v);
    assert sorted[..k] + sorted[k..] == sorted;
  }

  lemma WithXSingle(p: Point, v: real)
    ensures WithX([p], v) == if p.0 == v then [p] else []
  {
    assert [p][..0] == [];
  }

  lemma StableSplice(a: seq<Point>, b: seq<Point>, p: Point, v: real)
    requires forall i :: 0 <= i < |b| ==> b[i].0 > p.0
    ensures WithX(a + [p] + b, v) == WithX(a + b, v) + (if p.0 == v then [p] else [])
  {
    WithXConcat(a + [p], b, v);
    WithXConcat(a, [p], v);
    WithXConcat(a, b, v);
    WithXSingle(p, v);
    if p.0 == v {
      WithXNone(b, v);
    }
  }

  /**
   * `sorted` is stable: for every x, the points with that x come out in the
   * order they were given in.
   */
  lemma {:induction false} SortByXStable(ps: seq<Point>, v: real)
    ensures WithX(SortByX(ps), v) == WithX(ps, v)
  {
    if ps != [] {
      var init, last := ps[..|ps| - 1], ps[|ps| - 1];
      var sortedInit := SortByX(init);
      assert SortByX(ps) == InsertByX(sortedInit, last);
      SortByXStable(init, v);
      InsertByXStable(sortedInit, last, v);
    }
  }

  /** The straight line through (x1, y1) and (x2, y2), at v: `y1 + (v - x1)(y2 - y1)/(x2 - x1)`. */
  function Line(p1: Point, p2: Point, v: real): real
    requires p1.0 != p2.0
  {
    p1.1 + (v - p1.0) * (p2.1 - p1.1) / (p2.0 - p1.0)
  }

  /** The line passes through both of its points. */
  lemma LineThroughEnds(p1: Point, p2: Point)
    requires p1.0 != p2.0
    ensures Line(p1, p2, p1.0) == p1.1 && Line(p1, p2, p2.0) == p2.1
  {
    CancelQuotient(p2.0 - p1.0, p2.1 - p1.1);
  }

  /** The value on the segment from (x1, y1) to (x2, y2) at v; the midpoint of the y values when x1 == x2. */
  function Interpolate(p1: Point, p2: Point, v: real): real
  {
    if p1.0 == p2.0 then (p1.1 + p2.1) / 2.0
    else Line(p1, p2, v)
  }

  /** The loop over segments from index i on: the first segment with x1 <= v <= x2 decides, 0.0 if none does. */
  function SearchFrom(ps: seq<Point>, v: real, i: nat): real
    decreases |ps| - i
  {
    if i + 1 >= |ps| then 0.0
    else if ps[i].0 <= v <= ps[i + 1].0 then Interpolate(ps[i], ps[i + 1], v)
    else SearchFrom(ps, v, i + 1)
  }

  /**
   * Table.compute once the input is known. Only an empty table fails, with
   * the IndexError of reading its first point; otherwise the result is one
   * of the points' y values or an interpolation.
   */
  function Lookup(ps: seq<Point>, v: real): (r: Result<real>)
    ensures r.Ok? <==> ps != []
    ensures ps == [] ==> r == Err(IndexError)
  {
    if |ps| == 0 then Err(IndexError)
    else if v <= ps[0].0 then Ok(ps[0].1)
    else if v >= ps[|ps| - 1].0 then Ok(ps[|ps| - 1].1)
    else Ok(SearchFrom(ps, v, 0))
  }

  /** At or below the first x the first y, at or above the last x the last y. */
  lemma LookupClamps(ps: seq<Point>, v: real)
    requires |ps| >= 1
    ensures v <= ps[0].0 ==> Lookup(ps, v) == Ok(ps[0].1)
    ensures v > ps[0].0 && v >= ps[|ps| - 1].0 ==> Lookup(ps, v) == Ok(ps[|ps| - 1].1)
  {
  }

  lemma {:induction false} SearchFindsSegment(ps: seq<Point>, v: real, i: nat, k: nat)
    requires SortedByX(ps)
    requires i <= k < |ps| - 1
    requires ps[k].0 < v <= ps[k + 1].0
    ensures SearchFrom(ps, v, i) == Interpolate(ps[k], ps[k + 1], v)
    decreases k - i
  {
    if i < k {
      assert ps[i + 1].0 <= ps[k].0;
      SearchFindsSegment(ps, v, i + 1, k);
    }
  }

  /**
   * An interior input strictly inside a segment, or at its right end, is
   * interpolated linearly on that segment; the result lies between the
   * segment's two y values.
   */
  lemma LookupInterpolates(ps: seq<Point>, v: real, k: nat)
    requires SortedByX(ps)
    requires k < |ps| - 1
    requires ps[k].0 < v <= ps[k + 1].0 && v < ps[|ps| - 1].0
    ensures ps[k].0 != ps[k + 1].0 && Lookup(ps, v) == Ok(Line(ps[k], ps[k + 1], v))
    ensures var r := Lookup(ps, v).value;
      (ps[k].1 <= r <= ps[k + 1].1) || (ps[k + 1].1 <= r <= ps[k].1)
  {
    assert ps[0].0 <= ps[k].0;
    SearchFindsSegment(ps, v, 0, k);
    assert Lookup(ps, v) == Ok(SearchFrom(ps, v, 0));
    Between(ps[k], ps[k + 1], v);
  }

  lemma Between(p1: Point, p2: Point, v: real)
    requires p1.0 < v <= p2.0
    ensures var r := Interpolate(p1, p2, v); (p1.1 <= r <= p2.1) || (p2.1 <= r <= p1.1)
  {
    var dx, dy, a := p2.0 - p1.0, p2.1 - p1.1, v - p1.0;
    assert Interpolate(p1, p2, v) == p1.1 + a * dy / dx;
    Fraction(a, dx);
    QuotientOfProduct(a, dy, dx);
    ScaledBetween(a / dx, dy);
  }

  /** A positive part of a positive whole is a fraction in (0, 1]. */
  lemma Fraction(a: real, d: real)
    requires 0.0 < a <= d
    ensures 0.0 < a / d <= 1.0
  {
    assert (a / d) * d == a;
  }

  lemma QuotientOfProduct(a: real, b: real, d: real)
    requires d != 0.0
    ensures a * b / d == (a / d) * b
  {
  }

  lemma CancelQuotient(d: real, b: real)
    requires d != 0.0
    ensures d * b / d == b
  {
  }

  /** Scaling by a fraction in [0, 1] lands between 0 and the scaled value. */
  lemma ScaledBetween(f: real, d: real)
    requires 0.0 <= f <= 1.0
    ensures (0.0 <= f * d <= d) || (d <= f * d <= 0.0)
  {
    if d >= 0.0 {
      NonNegativeProduct(f, d);
      NonNegativeProduct(1.0 - f, d);
      assert d - f * d == (1.0 - f) * d;
    } else {
      NonNegativeProduct(f, -d);
      NonNegativeProduct(1.0 - f, -d);
      assert f * d - d == (1.0 - f) * (-d);
    }
  }

  /** Every input strictly between the first and last x falls in some segment. */
  lemma {:induction false} InteriorHasSegment(ps: seq<Point>, v: real) returns (k: nat)
    requires SortedByX(ps) && |ps| >= 2
    requires ps[0].0 < v < ps[|ps| - 1].0
    ensures k < |ps| - 1 && ps[k].0 < v <= ps[k + 1].0
  {
    k := 0;
    while v > ps[k + 1].0
      invariant k < |ps| - 1
      invariant ps[k].0 < v
      decreases |ps| - k
    {
      k := k + 1;
    }
  }

  /** With strictly increasing x, every breakpoint maps to its own y. */
  lemma LookupAtBreakpoint(ps: seq<Point>, k: nat)
    requires StrictlyIncreasingX(ps)
    requires k < |ps|
    ensures Lookup(ps, ps[k].0) == Ok(ps[k].1)
  {
    if 0 < k < |ps| - 1 {
      assert ps[k - 1].0 < ps[k].0 < ps[|ps| - 1].0;
      LookupInterpolates(ps, ps[k].0, k - 1);
      LineThroughEnds(ps[k - 1], ps[k]);
    }
  }

  /** The behaviour the test suite checks on points (0,10), (5,20), (10,0). */
  lemma LookupExample()
    ensures Lookup([(0.0, 10.0), (5.0, 20.0), (10.0, 0.0)], 2.0) == Ok(14.0)
    ensures Lookup([(0.0, 10.0), (5.0, 20.0), (10.0, 0.0)], -1.0) == Ok(10.0)
    ensures Lookup([(0.0, 10.0), (5.0, 20.0), (10.0, 0.0)], 11.0) == Ok(0.0)
    ensures Lookup([(0.0, 10.0), (5.0, 20.0), (10.0, 0.0)], 5.0) == Ok(20.0)
  {
    var ps := [(0.0, 10.0), (5.0, 20.0), (10.0, 0.0)];
    LookupInterpolates(ps, 2.0, 0);
    LookupInterpolates(ps, 5.0, 0);
  }

  /** At an x shared by two breakpoints the earlier one decides, so the order of equal-x points matters. */
  lemma LookupAtRepeatedX()
    ensures Lookup([(0.0, 1.0), (5.0, 2.0), (5.0, 8.0), (10.0, 0.0)], 5.0) == Ok(2.0)
    ensures Lookup([(0.0, 1.0), (5.0, 8.0), (5.0, 2.0), (10.0, 0.0)], 5.0) == Ok(8.0)
  {
    LookupInterpolates([(0.0, 1.0), (5.0, 2.0), (5.0, 8.0), (10.0, 0.0)], 5.0, 0);
    LookupInterpolates([(0.0, 1.0), (5.0, 8.0), (5.0, 2.0), (10.0, 0.0)], 5.0, 0);
  }
}
