/**
 * Python runtime values as they arrive from the database and from JSON, with the
 * built-ins the backend applies to them: truthiness, `str()`, `float()`, `int()`,
 * `dict.get` and `round`.
 */
module PyValue {
  import opened Wrappers
  import opened PyText

  /**
   * A Python value. A float, a list and a dict carry their printed form
   * (`str(v)`) as data.
   */
  datatype Value =
    | Null
    | Bool(b: bool)
    | Int(i: int)
    | Float(x: real, text: string)
    | Str(s: string)
    | List(items: seq<Value>, text: string)
    | Object(fields: map<string, Value>, text: string)

  /** A Python dict with string keys (a database row, a JSON object). */
  type Dict = map<string, Value>

  /** `bool(v)`. */
  predicate Truthy(v: Value) {
    match v
    case Null => false
    case Bool(b) => b
    case Int(i) => i != 0
    case Float(x, _) => x != 0.0
    case Str(s) => s != ""
    case List(items, _) => |items| > 0
    case Object(fields, _) => |fields| > 0
  }

  /** `str(v)`. */
  function PyStr(v: Value): string {
    match v
    case Null => "None"
    case Bool(b) => if b then "True" else "False"
    case Int(i) => IntToStr(i)
    case Float(_, t) => t
    case Str(s) => s
    case List(_, t) => t
    case Object(_, t) => t
  }

  /** The index of the first '.' in `s`, or `|s|` when there is none. */
  function PointIndex(s: string): (k: nat)
    ensures k <= |s|
  {
    if |s| == 0 || s[0] == '.' then 0 else 1 + PointIndex(s[1..])
  }

  /** The index of the first exponent mark ('e' or 'E') in `s`, or `|s|` when there is none. */
  function MarkIndex(s: string): (k: nat)
    ensures k <= |s|
  {
    if |s| == 0 || s[0] == 'e' || s[0] == 'E' then 0 else 1 + MarkIndex(s[1..])
  }

  /** `m * 10 ** e`. */
  function Scale(m: real, e: int): (r: real)
    requires m >= 0.0
    ensures r >= 0.0
    decreases if e >= 0 then e else -e
  {
    if e == 0 then m
    else if e > 0 then 10.0 * Scale(m, e - 1)
    else Scale(m, e + 1) / 10.0
  }

  /**
   * The value of a decimal mantissa such as `12`, `12.5`, `.5` or `12.`: digits
   * around at most one point, with at least one digit.
   */
  function MantissaValue(s: string): (r: Option<real>)
    ensures r.Some? ==> r.value >= 0.0
  {
    var k := PointIndex(s);
    var whole := s[..k];
    var fraction := if k < |s| then s[k + 1..] else "";
    if |whole| + |fraction| > 0
       && (forall i :: 0 <= i < |whole| ==> IsDigit(whole[i]))
       && (forall i :: 0 <= i < |fraction| ==> IsDigit(fraction[i]))
    then
      Some(DecimalValue(whole, fraction))
    else None
  }

  /** The value of whole digits `w` and fraction digits `f`: `w + f / 10 ** len(f)`. */
  function DecimalValue(w: string, f: string): (r: real)
    requires forall i :: 0 <= i < |w| ==> IsDigit(w[i])
    requires forall i :: 0 <= i < |f| ==> IsDigit(f[i])
    ensures r >= 0.0
  {
    DigitsValue(w) as real + FractionValue(f)
  }

  /** The value of the digits after a decimal point: `0.f`. */
  function FractionValue(f: string): (r: real)
    requires forall i :: 0 <= i < |f| ==> IsDigit(f[i])
    ensures 0.0 <= r
  {
    if |f| == 0 then 0.0
    else (DigitsValue(f[..1]) as real + FractionValue(f[1..])) / 10.0
  }

  /** The value of an exponent: an optional sign and at least one digit. */
  function ExponentValue(s: string): (r: Option<int>) {
    var digits := if |s| > 0 && (s[0] == '-' || s[0] == '+') then s[1..] else s;
    if IsDigits(digits) then
      Some(if |s| > 0 && s[0] == '-' then -(DigitsValue(digits) as int) else DigitsValue(digits))
    else None
  }

  /** An unsigned decimal literal: a mantissa, then optionally `e` or `E` and an exponent. */
  function UnsignedValue(s: string): (r: Option<real>)
    ensures r.Some? ==> r.value >= 0.0
  {
    var k := MarkIndex(s);
    var m := MantissaValue(s[..k]);
    if m.None? then None
    else if k == |s| then m
    else
      match ExponentValue(s[k + 1..])
      case None => None
      case Some(e) => Some(Scale(m.value, e))
  }

  /**
   * `float(s)` for text: surrounding whitespace is ignored, then an optional
   * sign and an unsigned decimal literal; None where Python raises.
   */
  function ParseFloat(s: string): (r: Option<real>) {
    var t := Strip(s);
    if |t| > 0 && t[0] == '-' then
      match UnsignedValue(t[1..])
      case Some(x) => Some(-x)
      case None => None
    else if |t| > 0 && t[0] == '+' then UnsignedValue(t[1..])
    else UnsignedValue(t)
  }

  /** A prefix without a point moves the first point along by its length. */
  lemma {:induction false} PointIndexAppend(w: string, t: string)
    requires '.' !in w
    ensures PointIndex(w + t) == |w| + PointIndex(t)
  {
    if |w| > 0 {
      assert (w + t)[0] == w[0] && (w + t)[1..] == w[1..] + t;
      PointIndexAppend(w[1..], t);
    } else {
      assert w + t == t;
    }
  }

  /** A prefix without an exponent mark moves the first mark along by its length. */
  lemma {:induction false} MarkIndexAppend(w: string, t: string)
    requires 'e' !in w && 'E' !in w
    ensures MarkIndex(w + t) == |w| + MarkIndex(t)
  {
    if |w| > 0 {
      assert (w + t)[0] == w[0] && (w + t)[1..] == w[1..] + t;
      MarkIndexAppend(w[1..], t);
    } else {
      assert w + t == t;
    }
  }

  /** Digits are neither a point nor an exponent mark. */
  lemma DigitsHaveNoMarks(w: string)
    requires forall i :: 0 <= i < |w| ==> IsDigit(w[i])
    ensures '.' !in w && 'e' !in w && 'E' !in w
  {
  }

  /** A run of digits reads as its number. */
  lemma UnsignedOfDigits(d: string)
    requires IsDigits(d)
    ensures UnsignedValue(d) == Some(DigitsValue(d) as real)
  {
    DigitsHaveNoMarks(d);
    assert d + "" == d;
    MarkIndexAppend(d, "");
    UnsignedOfMantissa(d);
    PointIndexAppend(d, "");
    assert d[..|d|] == d;
    assert DecimalValue(d, "") == DigitsValue(d) as real;
  }

  /** Text without an exponent mark is all mantissa. */
  lemma UnsignedOfMantissa(s: string)
    requires MarkIndex(s) == |s|
    ensures UnsignedValue(s) == MantissaValue(s)
  {
    assert s[..|s|] == s;
  }

  /** In `w.f` with digits `w`, the point follows the whole part. */
  lemma PointAfterWhole(w: string, f: string)
    requires forall i :: 0 <= i < |w| ==> IsDigit(w[i])
    ensures PointIndex(w + "." + f) == |w|
  {
    DigitsHaveNoMarks(w);
    assert w + "." + f == w + ("." + f);
    PointIndexAppend(w, "." + f);
  }

  /** Decimal text `w.f` has no exponent mark. */
  lemma DecimalHasNoExponent(w: string, f: string)
    requires forall i :: 0 <= i < |w| ==> IsDigit(w[i])
    requires forall i :: 0 <= i < |f| ==> IsDigit(f[i])
    ensures MarkIndex(w + "." + f) == |w| + 1 + |f|
  {
    DigitsHaveNoMarks(w);
    DigitsHaveNoMarks(f);
    assert w + "." + f == (w + ".") + (f + "");
    assert 'e' !in w + "." && 'E' !in w + ".";
    MarkIndexAppend(w + ".", f + "");
    MarkIndexAppend(f, "");
    assert f + "" == f;
  }

  /** The mantissa `w.f` reads as `w + f / 10 ** len(f)`. */
  lemma MantissaOfDecimal(w: string, f: string)
    requires forall i :: 0 <= i < |w| ==> IsDigit(w[i])
    requires forall i :: 0 <= i < |f| ==> IsDigit(f[i])
    requires |w| + |f| > 0
    ensures MantissaValue(w + "." + f) == Some(DecimalValue(w, f))
  {
    var t := w + "." + f;
    PointAfterWhole(w, f);
    assert t[..|w|] == w && t[|w| + 1..] == f;
  }

  /** Decimal text `w.f` reads as `w + f / 10 ** len(f)`. */
  lemma UnsignedOfDecimal(w: string, f: string)
    requires forall i :: 0 <= i < |w| ==> IsDigit(w[i])
    requires forall i :: 0 <= i < |f| ==> IsDigit(f[i])
    requires |w| + |f| > 0
    ensures UnsignedValue(w + "." + f) == Some(DecimalValue(w, f))
  {
    DecimalHasNoExponent(w, f);
    UnsignedOfMantissa(w + "." + f);
    MantissaOfDecimal(w, f);
  }

  /** Stripped text starting with '-' reads as the negated unsigned literal after it. */
  lemma ParseFloatOfNegative(t: string, x: real)
    requires Strip(t) == t && |t| > 0 && t[0] == '-'
    requires UnsignedValue(t[1..]) == Some(x)
    ensures ParseFloat(t) == Some(-x)
  {
  }

  /** Stripped text without a sign reads as an unsigned literal. */
  lemma ParseFloatOfUnsigned(t: string)
    requires Strip(t) == t && |t| > 0 && t[0] != '-' && t[0] != '+'
    ensures ParseFloat(t) == UnsignedValue(t)
  {
  }

  /** Digits read as their number. */
  lemma ParseFloatOfDigits(d: string, n: nat)
    requires IsDigits(d) && DigitsValue(d) == n
    ensures ParseFloat(d) == Some(n as real)
  {
    assert IsDigit(d[0]) && IsDigit(d[|d| - 1]);
    StripTrimmed(d);
    UnsignedOfDigits(d);
    ParseFloatOfUnsigned(d);
  }

  /** Digits after a '-' read as the negated number. */
  lemma ParseFloatOfMinusDigits(d: string, n: nat)
    requires IsDigits(d) && DigitsValue(d) == n
    ensures ParseFloat("-" + d) == Some(-(n as real))
  {
    StripOfMinusDigits(d);
    UnsignedOfDigits(d);
    assert ("-" + d)[1..] == d;
    ParseFloatOfNegative("-" + d, n as real);
  }

  lemma StripOfMinusDigits(d: string)
    requires IsDigits(d)
    ensures Strip("-" + d) == "-" + d
  {
    var t := "-" + d;
    assert IsDigit(d[|d| - 1]) && t[|t| - 1] == d[|d| - 1];
    StripTrimmed(t);
  }

  /** `float(str(i)) == float(i)`: the text Python prints for an int reads back as that int. */
  lemma ParseFloatOfIntText(i: int)
    ensures ParseFloat(IntToStr(i)) == Some(i as real)
  {
    if i < 0 {
      ParseFloatOfNegativeIntText(i);
    } else {
      ParseFloatOfNatText(i);
    }
  }

  lemma ParseFloatOfNegativeIntText(i: int)
    requires i < 0
    ensures ParseFloat(IntToStr(i)) == Some(i as real)
  {
    var n: nat := -i;
    assert IntToStr(i) == "-" + NatToStr(n);
    ParseFloatOfMinusNatText(n);
  }

  lemma ParseFloatOfNatText(n: nat)
    ensures ParseFloat(IntToStr(n)) == Some(n as real)
  {
    assert IntToStr(n) == NatToStr(n);
    DigitsValueOfNatToStr(n);
    ParseFloatOfDigits(NatToStr(n), n);
  }

  lemma ParseFloatOfMinusNatText(n: nat)
    ensures ParseFloat("-" + NatToStr(n)) == Some(-(n as real))
  {
    DigitsValueOfNatToStr(n);
    ParseFloatOfMinusDigits(NatToStr(n), n);
  }

  /** Decimal text with a fraction reads as its value. */
  lemma ParseFloatFraction()
    ensures ParseFloat("5.50") == Some(5.5)
  {
    var t := "5.50";
    assert t[0] == '5' && t[3] == '0';
    StripTrimmed(t);
    UnsignedOfFractionText();
    ParseFloatOfUnsigned(t);
  }

  lemma UnsignedOfFractionText()
    ensures UnsignedValue("5.50") == Some(5.5)
  {
    assert "5.50" == "5" + "." + "50";
    UnsignedOfDecimal("5", "50");
    assert DecimalValue("5", "50") == 5.5 by {
      assert "50"[..1] == "5" && "50"[1..] == "0" && "0"[..1] == "0" && "0"[1..] == "";
    }
  }

  /** Text that is not a number raises. */
  lemma ParseFloatRejectsWords()
    ensures ParseFloat("abc") == None
  {
    var t := "abc";
    StripTrimmed(t);
    assert t + "" == t;
    MarkIndexAppend(t, "");
    assert t[..3] == t;
    assert !IsDigit(t[0]);
    ParseFloatOfUnsigned(t);
  }

  /**
   * `float(v)`, or None where Python raises. Text is read as a decimal literal
   * (`ParseFloat`).
   */
  function ToFloat(v: Value): (r: Option<real>)
    ensures r.Some? <==> v.Bool? || v.Int? || v.Float? || (v.Str? && ParseFloat(v.s).Some?)
    ensures v.Int? ==> r == Some(v.i as real)
    ensures v.Float? ==> r == Some(v.x)
    ensures v.Str? ==> r == ParseFloat(v.s)
  {
    match v
    case Bool(b) => Some(if b then 1.0 else 0.0)
    case Int(i) => Some(i as real)
    case Float(x, _) => Some(x)
    case Str(s) => ParseFloat(s)
    case _ => None
  }

  /** `float(str(i))` agrees with `float(i)`. */
  lemma ToFloatOfIntText(i: int)
    ensures ToFloat(Str(PyStr(Int(i)))) == ToFloat(Int(i))
  {
    ParseFloatOfIntText(i);
  }

  /**
   * What a Python set compares an element by: None, a number (so `True`, `1`
   * and `1.0` are one element) or a text.
   */
  datatype HashKey = NoneKey | NumberKey(x: real) | TextKey(s: string)

  /** The key `set.add(v)` files `v` under, or None where `hash(v)` raises (a list or a dict). */
  function HashKeyOf(v: Value): (k: Option<HashKey>)
    ensures k.None? <==> v.List? || v.Object?
  {
    match v
    case Null => Some(NoneKey)
    case Str(s) => Some(TextKey(s))
    case List(_, _) => None
    case Object(_, _) => None
    case _ => Some(NumberKey(ToFloat(v).value))
  }

  /** Two numbers share a set key exactly when Python's `==` holds between them. */
  lemma NumberKeysAgree(a: Value, b: Value)
    requires a.Bool? || a.Int? || a.Float?
    requires b.Bool? || b.Int? || b.Float?
    ensures HashKeyOf(a) == HashKeyOf(b) <==> ToFloat(a) == ToFloat(b)
  {
  }

  /** A text never shares a key with a value that is not a text: `"1" != 1`. */
  lemma TextKeysOnlyForText(a: Value, b: Value)
    requires a.Str? && !b.Str?
    ensures HashKeyOf(a) != HashKeyOf(b)
  {
  }

  /** `{True, 1, 1.0}` has one element. */
  lemma TrueOneAndOnePointZeroCoincide()
    ensures HashKeyOf(Bool(true)) == HashKeyOf(Int(1)) == HashKeyOf(Float(1.0, "1.0"))
  {
  }

  /** `d.get(k)`. */
  function Get(d: Dict, k: string): Value {
    if k in d then d[k] else Null
  }

  /** `d.get(k, default)`: a stored None is returned as None. */
  function GetOr(d: Dict, k: string, default: Value): Value {
    if k in d then d[k] else default
  }

  /** Python's `a or b`. */
  function Or(a: Value, b: Value): (r: Value)
    ensures Truthy(r) <==> Truthy(a) || Truthy(b)
  {
    if Truthy(a) then a else b
  }

  /** `int(x)` for a finite float: truncation toward zero. */
  function Trunc(x: real): (n: int)
    ensures x >= 0.0 ==> 0 <= n && n as real <= x < n as real + 1.0
    ensures x < 0.0 ==> n <= 0 && n as real - 1.0 < x <= n as real
  {
    if x >= 0.0 then x.Floor else -((-x).Floor)
  }

  /** `round(x)`: the nearest integer, ties to the even one. */
  function RoundHalfEven(x: real): (n: int)
    ensures n as real - 0.5 <= x <= n as real + 0.5
    ensures x == n as real - 0.5 || x == n as real + 0.5 ==> n % 2 == 0
  {
    var f := x.Floor;
    var d := x - f as real;
    if d < 0.5 then f
    else if d > 0.5 then f + 1
    else if f % 2 == 0 then f
    else f + 1
  }

  /** `round(x, 1)`: the nearest multiple of 0.1, ties to the even one. */
  function Round1(x: real): (r: real)
    ensures (r * 10.0).Floor as real == r * 10.0
    ensures -0.05 <= r - x <= 0.05
    ensures 0.0 <= x <= 100.0 ==> 0.0 <= r <= 100.0
  {
    RoundHalfEven(x * 10.0) as real / 10.0
  }

  /** `round(x, 2)`: the nearest multiple of 0.01, ties to the even one. */
  function Round2(x: real): (r: real)
    ensures (r * 100.0).Floor as real == r * 100.0
    ensures -0.005 <= r - x <= 0.005
  {
    RoundHalfEven(x * 100.0) as real / 100.0
  }
}
