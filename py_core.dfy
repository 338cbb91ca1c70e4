/**
  Values and failures shared by every module: Python's exceptions as data,
  Option/Result, and the few string operations the repository relies on
  (`str.lower`, `str.endswith`, `float(str)`).
*/
module PyCore {

  datatype Option<+T> = None | Some(value: T)

  /** The Python exception kinds the modelled code raises or catches.
      `TypeError` also stands for `AttributeError` (calling `.get` or `.lower`
      on a value of the wrong type): the code never tells the two apart.
      `GeometryError` is whatever shapely raises for coordinates it rejects.
      `JSONDecodeError` and `XmlParseError` are what `json.load` and
      `ElementTree.parse` raise on a file they cannot decode.
      `NotImplementedError` is what shapely raises when a polygon is asked
      for its `coords`. */
  datatype Exc =
    | ValueError(msg: string)
    | KeyError
    | IndexError
    | TypeError
    | FileNotFoundError
    | AssertionError(msg: string)
    | GeometryError
    | JSONDecodeError
    | XmlParseError
    | NotImplementedError

  /** A Python call that either returns a value or raises. */
  datatype Result<+T> = Ok(value: T) | Err(exc: Exc)
  {
    predicate IsFailure() { Err? }

    function PropagateFailure<U>(): Result<U>
      requires Err?
    {
      Err(exc)
    }

    function Extract(): T
      requires Ok?
    {
      value
    }
  }

  /** What reading and decoding a file gives: the file is missing, its
      contents do not decode, or the decoded document. */
  datatype Load<+D> = NotFound | Undecodable | Decoded(doc: D)

  function Min(a: int, b: int): (m: int)
    ensures m <= a && m <= b && (m == a || m == b)
  {
    if a <= b then a else b
  }

  // ---------------------------------------------------------------------
  // Building a list in a loop
  // ---------------------------------------------------------------------

  /** `out = []; for x in xs: out.append(f(x))` where `f` may raise: the
      first exception, or every result in order. */
  function Collect<A, B>(xs: seq<A>, f: A -> Result<B>): Result<seq<B>>
  {
    if xs == [] then Ok([])
    else
      var front :- Collect(xs[..|xs| - 1], f);
      var last :- f(xs[|xs| - 1]);
      Ok(front + [last])
  }

  /** The list is built exactly when no call raises; it then holds one
      result per element, in order, and otherwise the exception is the one
      some call raised. */
  lemma {:induction false} CollectOk<A, B>(xs: seq<A>, f: A -> Result<B>)
    ensures Collect(xs, f).Ok? <==> forall i :: 0 <= i < |xs| ==> f(xs[i]).Ok?
    ensures Collect(xs, f).Ok? ==>
      |Collect(xs, f).value| == |xs| && forall i :: 0 <= i < |xs| ==> Collect(xs, f).value[i] == f(xs[i]).value
    ensures Collect(xs, f).Err? ==> exists i :: 0 <= i < |xs| && f(xs[i]) == Err(Collect(xs, f).exc)
    decreases |xs|
  {
    if xs != [] {
      var front, last := xs[..|xs| - 1], xs[|xs| - 1];
      assert forall i :: 0 <= i < |front| ==> front[i] == xs[i];
      CollectOk(front, f);
      if Collect(front, f).Err? {
        var i :| 0 <= i < |front| && f(front[i]) == Err(Collect(front, f).exc);
        assert f(xs[i]) == Err(Collect(xs, f).exc);
      } else if f(last).Err? {
        assert f(xs[|xs| - 1]) == Err(Collect(xs, f).exc);
      }
    }
  }

  /** One more call that returns appends its result. */
  lemma CollectStep<A, B>(xs: seq<A>, j: nat, f: A -> Result<B>)
    requires j < |xs| && Collect(xs[..j], f).Ok? && f(xs[j]).Ok?
    ensures Collect(xs[..j + 1], f) == Ok(Collect(xs[..j], f).value + [f(xs[j]).value])
  {
    assert xs[..j + 1][..j] == xs[..j];
  }

  /** The first call that raises ends the loop with its exception. */
  lemma {:induction false} CollectStop<A, B>(xs: seq<A>, j: nat, f: A -> Result<B>)
    requires j < |xs| && Collect(xs[..j], f).Ok? && f(xs[j]).Err?
    ensures Collect(xs, f) == Err(f(xs[j]).exc)
    decreases |xs|
  {
    if j < |xs| - 1 {
      var front := xs[..|xs| - 1];
      assert front[..j] == xs[..j] && front[j] == xs[j];
      CollectStop(front, j, f);
    } else {
      assert xs[..j] == xs[..|xs| - 1];
    }
  }

  // ---------------------------------------------------------------------
  // Strings
  // ---------------------------------------------------------------------

  /** `str.lower()` on one character (ASCII letters only). */
  function LowerChar(c: char): (d: char)
    ensures 'A' <= c <= 'Z' ==> d as int == c as int + 32
    ensures !('A' <= c <= 'Z') ==> d == c
  {
    if 'A' <= c <= 'Z' then (c as int + 32) as char else c
  }

  function Lower(s: string): (r: string)
    ensures |r| == |s|
    ensures forall i :: 0 <= i < |s| ==> r[i] == LowerChar(s[i])
  {
    if s == [] then [] else [LowerChar(s[0])] + Lower(s[1..])
  }

  /** Lowering twice is lowering once, so a lowered name is its own lower form. */
  lemma LowerIdempotent(s: string)
    ensures Lower(Lower(s)) == Lower(s)
  {
    assert forall i :: 0 <= i < |s| ==> LowerChar(LowerChar(s[i])) == LowerChar(s[i]);
  }

  lemma LowerSuffix(s: string, k: nat)
    requires k <= |s|
    ensures Lower(s)[k..] == Lower(s[k..])
  {
  }

  /** `s.endswith(suffix)`. */
  predicate EndsWith(s: string, suffix: string)
  {
    |suffix| <= |s| && s[|s| - |suffix|..] == suffix
  }

  // ---------------------------------------------------------------------
  // float(str)
  // ---------------------------------------------------------------------

  predicate IsDigit(c: char)
  {
    '0' <= c <= '9'
  }

  function DigitsValue(ds: string): (v: nat)
    requires AllDigits(ds)
  {
    if ds == [] then 0
    else
      assert IsDigit(ds[|ds| - 1]);
      DigitsValue(ds[..|ds| - 1]) * 10 + (ds[|ds| - 1] as int - '0' as int)
  }

  function Pow10(n: nat): (p: nat)
    ensures p >= 1
  {
    if n == 0 then 1 else 10 * Pow10(n - 1)
  }

  predicate AllDigits(s: string)
  {
    forall i :: 0 <= i < |s| ==> IsDigit(s[i])
  }

  /** Position of the first '.' in `s`, or `|s|` when there is none. */
  function DotIndex(s: string): (k: nat)
    ensures k <= |s|
    ensures k < |s| ==> s[k] == '.'
    ensures forall i :: 0 <= i < k ==> s[i] != '.'
  {
    if s == [] then 0
    else if s[0] == '.' then 0
    else 1 + DotIndex(s[1..])
  }

  /** Unsigned decimal `digits[.digits]` with at least one digit in all. */
  function UnsignedDecimal(s: string): Option<real>
  {
    var k := DotIndex(s);
    var whole := s[..k];
    var frac := if k < |s| then s[k + 1..] else [];
    if AllDigits(whole) && AllDigits(frac) && |whole| + |frac| > 0 then
      Some(DigitsValue(whole) as real + Fraction(frac))
    else None
  }

  /** The value of the digits after the point. */
  function Fraction(f: string): real
    requires AllDigits(f)
  {
    DigitsValue(f) as real / Pow10(|f|) as real
  }

  /** Python's `float(s)` on a string: `None` where Python raises ValueError.
      Only signed decimal literals are modelled. */
  function ParseFloat(s: string): (r: Option<real>)
    ensures s == [] ==> r.None?
  {
    if s == [] then None
    else if s[0] == '-' then
      match UnsignedDecimal(s[1..])
      case Some(v) => Some(-v)
      case None => None
    else if s[0] == '+' then UnsignedDecimal(s[1..])
    else UnsignedDecimal(s)
  }

  /** `str(n)` for a natural number `n`. */
  function Digits(n: nat): (s: string)
    ensures s != [] && AllDigits(s)
  {
    if n < 10 then [('0' as int + n) as char]
    else Digits(n / 10) + [('0' as int + n % 10) as char]
  }

  /** Reading back the digits of `n` gives `n`. */
  lemma {:induction false} DigitsValueOfDigits(n: nat)
    ensures DigitsValue(Digits(n)) == n
  {
    if n >= 10 {
      DigitsValueOfDigits(n / 10);
      var s := Digits(n);
      assert s[..|s| - 1] == Digits(n / 10);
    }
  }

  lemma {:induction false} DotIndexOfDigits(ds: string, rest: string)
    requires AllDigits(ds) && rest != [] && rest[0] == '.'
    ensures DotIndex(ds + rest) == |ds|
    decreases |ds|
  {
    if ds == [] {
      assert ds + rest == rest;
    } else {
      assert (ds + rest)[1..] == ds[1..] + rest;
      DotIndexOfDigits(ds[1..], rest);
    }
  }

  /** Digits followed by ".0" read back as the digits' value. */
  lemma UnsignedWhole(ds: string)
    requires ds != [] && AllDigits(ds)
    ensures UnsignedDecimal(ds + ".0") == Some(DigitsValue(ds) as real)
  {
    var s := ds + ".0";
    DotIndexOfDigits(ds, ".0");
    assert s[..|ds|] == ds && s[|ds| + 1..] == "0";
    ZeroDigit();
  }

  /** A fractional part "0" is worth nothing. */
  lemma ZeroDigit()
    ensures AllDigits("0") && Fraction("0") == 0.0
  {
    assert "0"[..0] == [];
    assert DigitsValue("0") == 0;
  }

  /** `float(str(n) + ".0") == n`: a whole number written with one decimal
      place reads back as itself. */
  lemma WholeFloat(n: nat)
    ensures ParseFloat(Digits(n) + ".0") == Some(n as real)
  {
    var ds := Digits(n);
    UnsignedWhole(ds);
    DigitsValueOfDigits(n);
    assert (ds + ".0")[0] == ds[0];
  }

  /** `float(s)` for a string `s`, raising ValueError where Python does. */
  function StrToFloat(s: string): (r: Result<real>)
    ensures r.Ok? <==> ParseFloat(s).Some?
    ensures r.Ok? ==> r.value == ParseFloat(s).value
  {
    match ParseFloat(s)
    case Some(v) => Ok(v)
    case None => Err(ValueError("could not convert string to float"))
  }
}
