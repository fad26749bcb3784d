/** The JavaScript values held by form fields and fetched records, with the
    three operations the screens apply to them: truthiness (`!x`), strict
    equality (`===`, used by `indexOf` and `find`) and numeric conversion
    (`Number(x)`, and the implicit one in `x <= 0`). */
module JsValue {
  import opened JsString
  import opened Wrappers

  /** A field value: text typed into an input, a number (from the backend or
      from `Number(...)`), `NaN`, or `null`/`undefined`. */
  datatype Value = Str(s: string) | Num(n: real) | NaN | Null

  /** JavaScript truthiness: the empty string, zero, `NaN` and `null` are
      falsy; so `!v` holds exactly when `!Truthy(v)`. */
  predicate Truthy(v: Value) {
    match v
    case Str(s) => s != ""
    case Num(n) => n != 0.0
    case NaN => false
    case Null => false
  }

  /** `a === b`: equal values, except that `NaN` equals nothing. */
  predicate StrictEquals(a: Value, b: Value) {
    a == b && !a.NaN?
  }

  /** `Array.prototype.indexOf`: the first index holding a value `===` to
      `v`, or -1. */
  function IndexOf(xs: seq<Value>, v: Value): (k: int)
    ensures -1 <= k < |xs|
    ensures k == -1 <==> forall i :: 0 <= i < |xs| ==> !StrictEquals(xs[i], v)
    ensures 0 <= k ==> StrictEquals(xs[k], v)
                       && forall i :: 0 <= i < k ==> !StrictEquals(xs[i], v)
  {
    if xs == [] then -1
    else if StrictEquals(xs[0], v) then 0
    else
      var k := IndexOf(xs[1..], v);
      if k == -1 then -1 else k + 1
  }

  function Pow10(n: nat): (p: nat)
    ensures p >= 1
  {
    if n == 0 then 1 else 10 * Pow10(n - 1)
  }

  predicate NotDot(c: char) {
    c != '.'
  }

  /** An unsigned decimal literal: digits, optionally a dot and more digits,
      with at least one digit in all (so "5", "5.", ".5" and "5.25" are
      numbers and "." is not). */
  function UnsignedDecimal(t: string): Option<real> {
    var k := FirstFailing(t, NotDot);
    var whole := t[..k];
    var frac := if k < |t| then t[k + 1..] else "";
    if AllDigits(whole) && AllDigits(frac) && |whole| + |frac| > 0 then
      Some(DigitsValue(whole) as real + DigitsValue(frac) as real / Pow10(|frac|) as real)
    else
      None
  }

  predicate NotExponentMark(c: char) {
    c != 'e' && c != 'E'
  }

  /** The signed integer after an exponent mark: an optional sign, then one
      or more digits. */
  function SignedExponent(t: string): (r: Option<int>)
    ensures r.Some? ==> t != ""
  {
    if t == "" then None
    else
      var digits := if t[0] == '-' || t[0] == '+' then t[1..] else t;
      if digits != "" && AllDigits(digits) then
        var v: int := DigitsValue(digits);
        Some(if t[0] == '-' then -v else v)
      else None
  }

  /** `x * 10^e` for a whole exponent of either sign. */
  function Scale(x: real, e: int): real {
    if e >= 0 then x * Pow10(e) as real else x / Pow10(-e) as real
  }

  /** An unsigned decimal literal with an optional exponent part: the part
      before the first 'e' or 'E' is a decimal literal, and the part after
      it a signed integer. */
  function UnsignedLiteral(t: string): Option<real> {
    var k := FirstFailing(t, NotExponentMark);
    if k == |t| then UnsignedDecimal(t)
    else
      match (UnsignedDecimal(t[..k]), SignedExponent(t[k + 1..]))
      case (Some(m), Some(e)) => Some(Scale(m, e))
      case _ => None
  }

  /** `Number(s)` on a string: surrounding white space is ignored, the empty
      string is 0, an optional sign precedes a decimal literal with an
      optional exponent, and anything else is `NaN`. */
  function StringToNumber(s: string): (r: Value)
    ensures r.Num? || r.NaN?
  {
    var t := Trim(s);
    if t == "" then Num(0.0)
    else
      var body := if t[0] == '-' || t[0] == '+' then t[1..] else t;
      match UnsignedLiteral(body)
      case Some(x) => Num(if t[0] == '-' then -x else x)
      case None => NaN
  }

  /** `Number(v)`. */
  function ToNumber(v: Value): (r: Value)
    ensures r.Num? || r.NaN?
  {
    match v
    case Str(s) => StringToNumber(s)
    case Num(_) => v
    case NaN => NaN
    case Null => Num(0.0)
  }

  /** `v <= 0`: the value is converted to a number, and any comparison with
      `NaN` is false. */
  predicate AtMostZero(v: Value) {
    match ToNumber(v)
    case Num(n) => n <= 0.0
    case _ => false
  }

  /** A value that converts to a number greater than zero. */
  predicate IsPositiveNumber(v: Value) {
    ToNumber(v).Num? && ToNumber(v).n > 0.0
  }

  /** `/^\d+$/.test(v)`: the value's string form is one or more ASCII digits.
      A number renders as digits exactly when it is a non-negative integer
      below 10^21 (larger ones render in exponent form); `NaN` and `null`
      render as words. */
  predicate TestDigitsOnly(v: Value) {
    match v
    case Str(s) => s != "" && AllDigits(s)
    case Num(n) => n.Floor as real == n && 0.0 <= n < 1000000000000000000000.0
    case NaN => false
    case Null => false
  }

  /** A non-empty string of digits converts to the number it spells. */
  lemma DigitStringToNumber(d: string)
    requires d != "" && AllDigits(d)
    ensures StringToNumber(d) == Num(DigitsValue(d) as real)
  {
    TrimOfTrimmed(d);
    assert Trim(d) == d;
    assert d[0] != '-' && d[0] != '+';
    DigitStringDecimal(d);
  }

  lemma DigitStringDecimal(d: string)
    requires d != "" && AllDigits(d)
    ensures UnsignedDecimal(d) == Some(DigitsValue(d) as real)
    ensures UnsignedLiteral(d) == Some(DigitsValue(d) as real)
  {
    NoMarkInDigits(d);
    assert d[..|d|] == d;
  }

  lemma NoMarkInDigits(d: string)
    requires AllDigits(d)
    ensures FirstFailing(d, NotDot) == |d|
    ensures FirstFailing(d, NotExponentMark) == |d|
  {
    forall j | 0 <= j < |d| ensures NotDot(d[j]) && NotExponentMark(d[j]) {
      assert IsDigit(d[j]);
    }
  }

  /** Digits, an 'e' and digits: the first number times ten to the power
      of the second, as in `Number("1e3")`, which is 1000. */
  lemma {:induction false} ExponentStringToNumber(d: string, e: string)
    requires d != "" && AllDigits(d) && e != "" && AllDigits(e)
    ensures StringToNumber(d + "e" + e) == Num(Scale(DigitsValue(d) as real, DigitsValue(e)))
  {
    var t := d + "e" + e;
    LiteralWithExponent(d, e);
    assert IsDigit(t[0]) && t[|t| - 1] == e[|e| - 1] && IsDigit(e[|e| - 1]);
    UnsignedNumber(t, Scale(DigitsValue(d) as real, DigitsValue(e)));
  }

  /** Text that starts and ends with a digit needs no trimming and has no
      sign: `Number` reads it as an unsigned literal. */
  lemma UnsignedNumber(t: string, x: real)
    requires t != "" && IsDigit(t[0]) && IsDigit(t[|t| - 1])
    requires UnsignedLiteral(t) == Some(x)
    ensures StringToNumber(t) == Num(x)
  {
    TrimOfTrimmed(t);
    assert t[0] != '-' && t[0] != '+';
  }

  lemma {:induction false} LiteralWithExponent(d: string, e: string)
    requires d != "" && AllDigits(d) && e != "" && AllDigits(e)
    ensures UnsignedLiteral(d + "e" + e) == Some(Scale(DigitsValue(d) as real, DigitsValue(e)))
  {
    var t := d + "e" + e;
    NoMarkInDigits(d);
    MarkAt(d, e);
    var k := FirstFailing(t, NotExponentMark);
    assert k == |d| && k < |t|;
    assert t[..k] == d && t[k + 1..] == e;
    DigitStringDecimal(d);
    var m := DigitsValue(d) as real;
    var x := DigitsValue(e);
    assert SignedExponent(e) == Some(x);
    assert UnsignedLiteral(t) == Some(Scale(m, x));
  }

  /** Text that starts and ends with a digit but is no literal is `NaN`. */
  lemma NotALiteral(t: string)
    requires t != "" && IsDigit(t[0]) && IsDigit(t[|t| - 1])
    requires UnsignedLiteral(t).None?
    ensures StringToNumber(t) == NaN
  {
    TrimOfTrimmed(t);
    assert t[0] != '-' && t[0] != '+';
  }

  /** `Number("1e3")` is 1000. */
  lemma ThousandInExponentForm()
    ensures StringToNumber("1e3") == Num(1000.0)
  {
    assert DigitsValue("1") == 1 && DigitsValue("3") == 3;
    assert "1" + "e" + "3" == "1e3";
    ExponentStringToNumber("1", "3");
    ScaleByNat(1.0, 3);
    assert Pow10(3) == 1000;
  }

  /** A non-negative exponent multiplies by that power of ten. */
  lemma ScaleByNat(m: real, x: nat)
    ensures Scale(m, x) == m * Pow10(x) as real
  {
  }

  lemma MarkAt(d: string, e: string)
    requires FirstFailing(d, NotExponentMark) == |d|
    ensures FirstFailing(d + "e" + e, NotExponentMark) == |d|
  {
    var t := d + "e" + e;
    forall j | 0 <= j < |d| ensures NotExponentMark(t[j]) {
      assert t[j] == d[j];
    }
    assert t[|d|] == 'e';
  }

  /** `fecha ? fecha.split('T')[0] : ""` on an optional date-time text:
      the date part, or "" when the text is missing or empty. */
  function DatePart(fecha: Option<string>): (r: string)
    ensures fecha.None? || fecha == Some("") ==> r == ""
    ensures fecha.Some? ==> r <= fecha.value && 'T' !in r
    ensures fecha.Some? && 'T' !in fecha.value ==> r == fecha.value
  {
    match fecha
    case None => ""
    case Some(s) =>
      if s == "" then ""
      else
        BeforeTNoTIfAbsent(s);
        BeforeT(s)
  }

  lemma BeforeTNoTIfAbsent(s: string)
    ensures 'T' !in s ==> BeforeT(s) == s
  {
    if 'T' !in s { BeforeTNoT(s); }
  }
}
