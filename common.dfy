/** Shared vocabulary: optional values, the handful of JavaScript value
    kinds the reader stores in its settings and progress objects, and the
    JavaScript conversions (`Number(x) || d`, truthiness, `String(n)`,
    UTF-16 `length`) its code relies on. */
module Common {
  import opened Utils

  datatype Option<+T> = None | Some(value: T) {
    function GetOr(default: T): (r: T)
      ensures Some? ==> r == value
      ensures None? ==> r == default
    {
      match this
      case Some(v) => v
      case None => default
    }
  }

  /** The outcome of an operation that throws on failure. */
  datatype Result<+T, +E> = Ok(value: T) | Err(error: E)

  /** A scalar JSON value as found in a settings or progress object.
      A JS number is a `real`; NaN and the infinities are not numbers here
      (see ToNumber). An absent key (`undefined`) is modelled by the key
      being absent from the map. */
  datatype Value = VNull | VBool(b: bool) | VNum(n: real) | VStr(s: string)

  /** A plain JS object with scalar values; `{ ...a, ...b }` is `a + b`. */
  type JsObject = map<string, Value>

  /** JavaScript truthiness of a property read; `None` is `undefined`. */
  predicate Truthy(v: Option<Value>)
  {
    match v
    case None => false
    case Some(VNull) => false
    case Some(VBool(b)) => b
    case Some(VNum(n)) => n != 0.0
    case Some(VStr(s)) => |s| > 0
  }

  /** Property read on an object: `obj[key]`, `undefined` when absent. */
  function Get(obj: JsObject, key: string): (r: Option<Value>)
    ensures r.Some? <==> key in obj
    ensures key in obj ==> r.value == obj[key]
  {
    if key in obj then Some(obj[key]) else None
  }

  /** `Number(v)`: `None` stands for NaN. `Number(undefined)` is NaN,
      `Number(null)` is 0, booleans are 0 or 1, and a string is read as a
      numeric literal (StringToNumber). */
  function ToNumber(v: Option<Value>): (r: Option<real>)
    ensures v.Some? && v.value.VNum? ==> r == Some(v.value.n)
    ensures v.None? ==> r.None?
  {
    match v
    case None => None
    case Some(VNull) => Some(0.0)
    case Some(VBool(b)) => Some(if b then 1.0 else 0.0)
    case Some(VNum(n)) => Some(n)
    case Some(VStr(s)) => StringToNumber(s)
  }

  // ---------------------------------------------------------------------
  // `Number(string)`: the StringNumericLiteral grammar of ECMAScript.

  function Pow10(n: nat): (r: real)
    ensures r >= 1.0
  {
    if n == 0 then 1.0 else 10.0 * Pow10(n - 1)
  }

  /** `10^e` for a signed exponent. */
  function Scale(e: int): (r: real)
    ensures r > 0.0
  {
    if e >= 0 then Pow10(e) else 1.0 / Pow10(-e)
  }

  predicate IsDigit(c: char)
  {
    '0' <= c <= '9'
  }

  /** The length of the run of decimal digits that starts `s`. */
  function DigitRun(s: string): (n: nat)
    ensures n <= |s| && IsDigits(s[..n])
    ensures n < |s| ==> !IsDigit(s[n])
  {
    if s == [] || !IsDigit(s[0]) then 0
    else
      var k := DigitRun(s[1..]);
      assert s[..1 + k] == [s[0]] + s[1..][..k];
      1 + k
  }

  /** An optional `e`/`E` part: nothing, or a sign and at least one digit
      and nothing after them. */
  function Exponent(tail: string): (r: Option<int>)
    ensures tail == [] ==> r == Some(0)
  {
    if tail == [] then Some(0)
    else if tail[0] != 'e' && tail[0] != 'E' then None
    else
      var v := tail[1..];
      var neg := v != [] && v[0] == '-';
      var d := if v != [] && (v[0] == '+' || v[0] == '-') then v[1..] else v;
      if d != [] && IsDigits(d) then Some(if neg then 0 - ParseDecimal(d) else ParseDecimal(d) as int)
      else None
  }

  /** StrUnsignedDecimalLiteral without `Infinity`: digits, an optional
      `.` with digits, at least one digit in all, and an optional exponent. */
  function UnsignedDecimal(u: string): Option<real>
  {
    var a := DigitRun(u);
    var rest := u[a..];
    var hasDot := rest != [] && rest[0] == '.';
    var afterDot := if hasDot then rest[1..] else rest;
    var f := if hasDot then DigitRun(afterDot) else 0;
    var e := Exponent(afterDot[f..]);
    if a + f == 0 || e.None? then None
    else Some(DecimalValue(u[..a], afterDot[..f], e.value))
  }

  /** The value of integer digits `i`, fraction digits `f` and exponent `e`. */
  function DecimalValue(i: string, f: string, e: int): real
    requires IsDigits(i) && IsDigits(f)
  {
    (ParseDecimal(i) as real + ParseDecimal(f) as real / Pow10(|f|)) * Scale(e)
  }

  /** StrDecimalLiteral: an optional sign before the unsigned literal. */
  function DecimalLiteral(t: string): Option<real>
  {
    if t != [] && (t[0] == '+' || t[0] == '-') then
      match UnsignedDecimal(t[1..])
      case None => None
      case Some(x) => Some(if t[0] == '-' then -x else x)
    else UnsignedDecimal(t)
  }

  /** The base a `0x`/`0o`/`0b` prefix letter names. */
  function RadixOf(c: char): Option<nat>
  {
    if c == 'x' || c == 'X' then Some(16)
    else if c == 'o' || c == 'O' then Some(8)
    else if c == 'b' || c == 'B' then Some(2)
    else None
  }

  /** The value of a hexadecimal digit, if `c` is one. */
  function HexDigitValue(c: char): (r: Option<nat>)
    ensures r.Some? ==> r.value < 16
  {
    if '0' <= c <= '9' then Some(c as int - '0' as int)
    else if 'a' <= c <= 'f' then Some(c as int - 'a' as int + 10)
    else if 'A' <= c <= 'F' then Some(c as int - 'A' as int + 10)
    else None
  }

  predicate IsRadixDigits(s: string, base: nat)
  {
    forall i :: 0 <= i < |s| ==> HexDigitValue(s[i]).Some? && HexDigitValue(s[i]).value < base
  }

  function ParseRadix(s: string, base: nat): nat
    requires IsRadixDigits(s, base)
  {
    if s == [] then 0
    else base * ParseRadix(s[..|s| - 1], base) + HexDigitValue(s[|s| - 1]).value
  }

  /** `Number(s)` for a string: surrounding whitespace is ignored, a blank
      string is 0, a `0x`/`0o`/`0b` integer is read in its base, and
      anything else must be a decimal literal. `None` is NaN. */
  function StringToNumber(s: string): (r: Option<real>)
    ensures AllWhitespace(s) ==> r == Some(0.0)
  {
    var t := Trim(s);
    TrimSpec(s);
    if t == [] then Some(0.0)
    else if |t| >= 2 && t[0] == '0' && RadixOf(t[1]).Some? then
      var digits := t[2..];
      if digits != [] && IsRadixDigits(digits, RadixOf(t[1]).value) then
        Some(ParseRadix(digits, RadixOf(t[1]).value) as real)
      else None
    else DecimalLiteral(t)
  }

  /** A run of decimal digits ends where the first non-digit is. */
  lemma {:induction false} DigitsRun(d: string, s: string)
    requires IsDigits(d) && (s == [] || !IsDigit(s[0]))
    ensures DigitRun(d + s) == |d|
    decreases |d|
  {
    if d == [] {
      assert d + s == s;
    } else {
      assert (d + s)[1..] == d[1..] + s;
      DigitsRun(d[1..], s);
    }
  }

  /** A numeral without a fraction reads as its value: `"120"` is 120. */
  lemma UnsignedInteger(a: string)
    requires IsDigits(a) && a != []
    ensures UnsignedDecimal(a) == Some(DecimalValue(a, "", 0))
  {
    DigitsRun(a, []);
    assert a + [] == a;
    assert a[..|a|] == a;
    assert a[|a|..] == [];
  }

  /** A numeral with a fraction reads as its digits: `"1.8"` is 1 and 8
      tenths. */
  lemma UnsignedFraction(a: string, b: string)
    requires IsDigits(a) && IsDigits(b) && a != []
    ensures UnsignedDecimal(a + "." + b) == Some(DecimalValue(a, b, 0))
  {
    var u := a + "." + b;
    DigitsRun(a, "." + b);
    assert u == a + ("." + b);
    DigitsRun(b, []);
    assert b + [] == b;
    assert u[..|a|] == a;
    var rest := u[|a|..];
    assert rest == "." + b;
    var afterDot := rest[1..];
    assert afterDot == b;
    assert afterDot[..|b|] == b;
    assert afterDot[|b|..] == [];
  }

  /** Without an exponent the value is the integer part plus the fraction. */
  lemma DecimalValueNoExponent(a: string, b: string)
    requires IsDigits(a) && IsDigits(b)
    ensures DecimalValue(a, b, 0) == ParseDecimal(a) as real + ParseDecimal(b) as real / Pow10(|b|)
    ensures b == [] ==> DecimalValue(a, b, 0) == ParseDecimal(a) as real
  {
  }

  /** Around a literal that does not start with a radix prefix, `Number`
      ignores whitespace and reads a decimal literal. */
  lemma {:induction false} NumberOfPaddedDecimal(w1: string, t: string, w2: string)
    requires AllWhitespace(w1) && AllWhitespace(w2)
    requires t != [] && !IsJsWhitespace(t[0]) && !IsJsWhitespace(t[|t| - 1])
    requires |t| >= 2 ==> t[0] != '0' || RadixOf(t[1]).None?
    ensures StringToNumber(w1 + t + w2) == DecimalLiteral(t)
  {
    TrimPadded(w1, t, w2);
  }

  /** A literal that starts with a digit has no sign to strip. */
  lemma DecimalLiteralUnsigned(t: string)
    requires t != [] && IsDigit(t[0])
    ensures DecimalLiteral(t) == UnsignedDecimal(t)
  {
  }

  /** A leading `-` negates the unsigned literal after it. */
  lemma DecimalLiteralNegative(d: string, x: real)
    requires UnsignedDecimal(d) == Some(x)
    ensures DecimalLiteral("-" + d) == Some(-x)
  {
    assert ("-" + d)[1..] == d;
  }

  /** A digit string, possibly after a `-`, can be read by the decimal
      grammar alone: its ends are not whitespace and it has no radix
      prefix. */
  lemma SignedDigitsShape(d: string, neg: bool)
    requires IsDigits(d) && d != [] && (|d| > 1 ==> d[0] != '0')
    ensures var t := (if neg then "-" else "") + d;
            && t != [] && !IsJsWhitespace(t[0]) && !IsJsWhitespace(t[|t| - 1])
            && (|t| >= 2 ==> t[0] != '0' || RadixOf(t[1]).None?)
  {
    var t := (if neg then "-" else "") + d;
    assert t[|t| - 1] == d[|d| - 1];
    if neg {
      assert t[0] == '-';
    } else {
      assert t == d;
    }
  }

  /** What `String(n)` prints, `Number` reads back, also with a sign and
      with surrounding whitespace. */
  lemma {:induction false} NumberOfNatString(n: nat, neg: bool, w1: string, w2: string)
    requires AllWhitespace(w1) && AllWhitespace(w2)
    ensures ToNumber(Some(VStr(w1 + (if neg then "-" else "") + NatToString(n) + w2)))
              == Some(if neg then -(n as real) else n as real)
  {
    var d := NatToString(n);
    var t := (if neg then "-" else "") + d;
    assert w1 + (if neg then "-" else "") + d + w2 == w1 + t + w2;
    SignedDigitsShape(d, neg);
    NumberOfPaddedDecimal(w1, t, w2);
    var x := NatValue(n);
    if neg {
      DecimalLiteralNegative(d, x);
      assert StringToNumber(w1 + t + w2) == Some(-x);
    } else {
      assert t == d;
      DecimalLiteralUnsigned(d);
      assert StringToNumber(w1 + t + w2) == Some(x);
    }
  }

  /** `String(n)` reads back as `n` by the unsigned decimal grammar. */
  lemma NatValue(n: nat) returns (x: real)
    ensures x == n as real
    ensures UnsignedDecimal(NatToString(n)) == Some(x)
  {
    var d := NatToString(n);
    UnsignedInteger(d);
    ParseNatToString(n);
    DecimalValueNoExponent(d, "");
    x := n as real;
  }

  /** `0x`, `0o` and `0b` integers read in their base: `"0x1F"` is 31. */
  lemma NumberOfRadixString(prefix: char, digits: string)
    requires RadixOf(prefix).Some? && digits != [] && IsRadixDigits(digits, RadixOf(prefix).value)
    ensures ToNumber(Some(VStr("0" + [prefix] + digits)))
              == Some(ParseRadix(digits, RadixOf(prefix).value) as real)
  {
    var t := "0" + [prefix] + digits;
    assert t[0] == '0' && t[1] == prefix && t[2..] == digits;
    assert !IsJsWhitespace(t[|t| - 1]) by {
      assert t[|t| - 1] == digits[|digits| - 1];
      assert HexDigitValue(digits[|digits| - 1]).Some?;
    }
    TrimPadded([], t, []);
    assert [] + t + [] == t;
  }

  /** A decimal fraction such as `"1.8"` reads as its exact value. */
  lemma NumberOfDecimalString(a: string, b: string)
    requires IsDigits(a) && IsDigits(b) && a != []
    ensures ToNumber(Some(VStr(a + "." + b))) == Some(DecimalValue(a, b, 0))
  {
    var t := a + "." + b;
    assert t[0] == a[0];
    assert t[|t| - 1] == if b == [] then '.' else b[|b| - 1];
    assert |t| >= 2 ==> t[1] == if |a| >= 2 then a[1] else '.';
    NumberOfPaddedDecimal([], t, []);
    assert [] + t + [] == t;
    DecimalLiteralUnsigned(t);
    UnsignedFraction(a, b);
  }

  /** `x || d` for a number `x` (`None` is NaN): `x` unless it is 0 or NaN. */
  function NonZeroOr(x: Option<real>, d: real): (r: real)
    ensures x.Some? && x.value != 0.0 ==> r == x.value
    ensures x.None? || x.value == 0.0 ==> r == d
  {
    match x
    case Some(n) => if n != 0.0 then n else d
    case None => d
  }

  /** `Number(v) || d`: the number, unless it is 0 or NaN. */
  function NumberOr(v: Option<Value>, d: real): (r: real)
    ensures ToNumber(v).Some? && ToNumber(v).value != 0.0 ==> r == ToNumber(v).value
    ensures ToNumber(v).None? || ToNumber(v).value == 0.0 ==> r == d
  {
    NonZeroOr(ToNumber(v), d)
  }

  /** `Math.round(x)`: the nearest integer, halves rounded up. */
  function Round(x: real): (r: int)
    ensures x - 1.0 / 2.0 < r as real <= x + 1.0 / 2.0
  {
    (x + 1.0 / 2.0).Floor
  }

  /** A touch point as a touch event reports it. */
  datatype TouchPoint = TouchPoint(clientX: real, clientY: real)

  /** `Math.abs`. */
  function Abs(x: real): (r: real)
    ensures r >= 0.0 && (r == x || r == -x)
  {
    if x < 0.0 then -x else x
  }

  /** `str.length`: JS strings count UTF-16 code units, so a character
      outside the Basic Multilingual Plane counts twice. */
  function Utf16Length(s: string): (r: nat)
    ensures |s| <= r <= 2 * |s|
  {
    if s == [] then 0
    else (if s[0] as int >= 0x1_0000 then 2 else 1) + Utf16Length(s[1..])
  }

  // ---------------------------------------------------------------------
  // Decimal rendering of naturals, as `String(n)` does it.

  function DigitChar(d: nat): (c: char)
    requires d < 10
    ensures '0' <= c <= '9'
  {
    ('0' as int + d) as char
  }

  function DigitValue(c: char): (d: nat)
    requires '0' <= c <= '9'
    ensures d < 10
  {
    c as int - '0' as int
  }

  predicate IsDigits(s: string)
  {
    forall i :: 0 <= i < |s| ==> '0' <= s[i] <= '9'
  }

  /** `String(n)` for a natural number: shortest decimal form. */
  function NatToString(n: nat): (s: string)
    ensures |s| >= 1 && IsDigits(s)
    ensures n >= 10 ==> |s| >= 2
    ensures |s| > 1 ==> s[0] != '0'
    decreases n
  {
    if n < 10 then [DigitChar(n)]
    else NatToString(n / 10) + [DigitChar(n % 10)]
  }

  /** The value of a string of decimal digits. */
  function ParseDecimal(s: string): (n: nat)
    requires IsDigits(s)
  {
    if s == [] then 0
    else 10 * ParseDecimal(s[..|s| - 1]) + DigitValue(s[|s| - 1])
  }

  /** Decimal rendering is undone by parsing: `String(n)` loses nothing. */
  lemma {:induction false} ParseNatToString(n: nat)
    ensures ParseDecimal(NatToString(n)) == n
    decreases n
  {
    var s := NatToString(n);
    if n >= 10 {
      ParseNatToString(n / 10);
      assert s[..|s| - 1] == NatToString(n / 10);
    }
  }

  /** Hence two different numbers never render alike. */
  lemma NatToStringInjective(a: nat, b: nat)
    requires NatToString(a) == NatToString(b)
    ensures a == b
  {
    ParseNatToString(a);
    ParseNatToString(b);
  }

  lemma ScaleHalf(a: real, w: real)
    requires -(1.0 / 2.0) < a <= 1.0 / 2.0 && w > 0.0
    ensures Abs(a * w) <= w / 2.0
  {
    if a >= 0.0 {
      assert a * w <= (1.0 / 2.0) * w;
    } else {
      assert -(a * w) == (-a) * w;
      assert (-a) * w <= (1.0 / 2.0) * w;
    }
  }

  /** Rounding to a multiple of a positive width: `Math.round(x / w) * w`
      lies within half a width of `x`. */
  lemma RoundToMultiple(x: real, w: real)
    requires w > 0.0
    ensures Abs(Round(x / w) as real * w - x) <= w / 2.0
  {
    var q := x / w;
    var r := Round(q) as real;
    assert x == q * w;
    assert r * w - x == (r - q) * w;
    ScaleHalf(r - q, w);
  }
}
