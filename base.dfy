/**
 * Shared vocabulary of the model: optional values, results carrying the
 * exception the Python code would raise, and the left-to-right sum that
 * both engines use to total the rates of a list of flows.
 */
module Base {

  datatype Option<+T> = None | Some(value: T) {
    function GetOr(default: T): T {
      match this
      case Some(v) => v
      case None => default
    }
  }

  /** The Python exceptions that the modelled code raises. */
  datatype Error =
    | KeyError(key: string)
    | ValueError(message: string)
    | RuntimeError(message: string)
    | TypeError
    | AttributeError(attribute: string)
    | ZeroDivisionError
    | IndexError

  /** A value, or the exception that replaced it. Usable with `:-`. */
  datatype Result<+T> = Ok(value: T) | Err(error: Error) {
    predicate IsFailure() {
      Err?
    }

    function PropagateFailure<U>(): Result<U>
      requires Err?
    {
      Err(error)
    }

    function Extract(): T
      requires Ok?
    {
      value
    }
  }

  /** Turns a missing value into the given exception. */
  function Need<T>(o: Option<T>, e: Error): (r: Result<T>)
    ensures r.Ok? <==> o.Some?
    ensures o.Some? ==> r.value == o.value
    ensures o.None? ==> r.error == e
  {
    match o
    case Some(v) => Ok(v)
    case None => Err(e)
  }

  /** `sum(rate(f) for f in fs)`, accumulated from the left. */
  function Sum<F>(fs: seq<F>, rate: F -> real): real
  {
    if fs == [] then 0.0 else Sum(fs[..|fs| - 1], rate) + rate(fs[|fs| - 1])
  }

  lemma {:induction false} SumAppend<F>(fs: seq<F>, f: F, rate: F -> real)
    ensures Sum(fs + [f], rate) == Sum(fs, rate) + rate(f)
  {
    assert (fs + [f])[..|fs + [f]| - 1] == fs;
  }

  lemma {:induction false} SumConcat<F>(fs: seq<F>, gs: seq<F>, rate: F -> real)
    ensures Sum(fs + gs, rate) == Sum(fs, rate) + Sum(gs, rate)
    decreases |gs|
  {
    if gs == [] {
      assert fs + gs == fs;
    } else {
      var init := gs[..|gs| - 1];
      var last := gs[|gs| - 1];
      assert gs == init + [last];
      assert fs + gs == (fs + init) + [last];
      SumAppend(fs + init, last, rate);
      SumConcat(fs, init, rate);
      SumAppend(init, last, rate);
    }
  }

  lemma NonNegativeProduct(a: real, b: real)
    requires a >= 0.0 && b >= 0.0
    ensures a * b >= 0.0
  {
  }

  /** Non-negative integer powers of a real. */
  function Pow(x: real, n: nat): real
  {
    if n == 0 then 1.0 else x * Pow(x, n - 1)
  }

  /** The value after i steps of relaxation from x0 toward the goal g with factor c: `g - (g - x0) * c^i`. */
  function Relaxed(g: real, x0: real, c: real, i: nat): real {
    g - (g - x0) * Pow(c, i)
  }

  /** One step `v + k (g - v) dt` of the relaxation. */
  lemma RelaxStep(g: real, x0: real, k: real, dt: real, c: real, i: nat)
    requires c == 1.0 - k * dt
    ensures var v := Relaxed(g, x0, c, i);
      v + k * (g - v) * dt == Relaxed(g, x0, c, i + 1)
  {
    var p := Pow(c, i);
    var q := (g - x0) * p;
    assert Pow(c, i + 1) == c * p;
    assert (g - x0) * (c * p) == c * q;
    assert g - (g - q) == q;
    assert (g - q) + k * q * dt == g - c * q;
  }

  /** Python's `int(x)` on a float: truncation toward zero. */
  function Trunc(x: real): (r: int)
    ensures x >= 0.0 ==> r as real <= x < r as real + 1.0
    ensures x < 0.0 ==> r as real - 1.0 < x <= r as real
  {
    if x >= 0.0 then x.Floor else -((-x).Floor)
  }

  /** Python's `str(i)` for a natural number: its decimal digits, without leading zeros. */
  function NatToString(n: nat): (s: string)
    ensures |s| >= 1
    ensures forall k :: 0 <= k < |s| ==> '0' <= s[k] <= '9'
    ensures s[0] == '0' ==> n == 0
  {
    var d := ('0' as int + n % 10) as char;
    if n < 10 then [d] else NatToString(n / 10) + [d]
  }

  /** The number a string of decimal digits denotes. */
  function DigitsValue(s: string): nat
    requires forall k :: 0 <= k < |s| ==> '0' <= s[k] <= '9'
  {
    if s == [] then 0 else DigitsValue(s[..|s| - 1]) * 10 + (s[|s| - 1] as int - '0' as int)
  }

  /** Reading back the digits of `str(n)` gives n, so different numbers have different texts. */
  lemma {:induction false} NatToStringRoundTrip(n: nat)
    ensures DigitsValue(NatToString(n)) == n
    decreases n
  {
    var s := NatToString(n);
    if n >= 10 {
      NatToStringRoundTrip(n / 10);
      assert s[..|s| - 1] == NatToString(n / 10);
    }
  }
}
