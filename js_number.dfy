/**
 * The JavaScript number conversions the components use: `parseInt` (ECMA-262
 * `parseInt(string, radix)`), `Number(string)` (StringToNumber), `isNaN`,
 * truthiness, and `toString` of an integer-valued number.
 * parseInt's result is an integer or NaN, so it is an Option<int> here;
 * StringToNumber's result is a JsNumber over the reals.
 */
module JsNumber {
  import opened Wrappers
  import opened JsString

  datatype JsNumber = NaN | Finite(value: real) | Infinity(positive: bool)

  /** ToBoolean of a number: false for NaN and for (either) zero. */
  predicate Truthy(n: JsNumber) {
    match n
    case NaN => false
    case Finite(v) => v != 0.0
    case Infinity(_) => true
  }

  predicate IsDecimalDigit(u: int) { 0x30 <= u <= 0x39 }

  /** The value of a digit in radix up to 36 (`0-9`, `a-z`, `A-Z`), 36 for any other unit. */
  function DigitValue(u: CodeUnit): (d: nat)
    ensures d <= 36
    ensures d < 10 <==> IsDecimalDigit(u)
  {
    if 0x30 <= u <= 0x39 then u - 0x30
    else if 0x61 <= u <= 0x7A then u - 0x61 + 10
    else if 0x41 <= u <= 0x5A then u - 0x41 + 10
    else 36
  }

  /** The length of the longest prefix of `s` made of radix-`radix` digits. */
  function LeadingDigits(s: JsStr, radix: nat): (n: nat)
    ensures n <= |s|
    ensures forall i | 0 <= i < n :: DigitValue(s[i]) < radix
    ensures n < |s| ==> DigitValue(s[n]) >= radix
  {
    if s == [] || DigitValue(s[0]) >= radix then 0 else 1 + LeadingDigits(s[1..], radix)
  }

  /** The integer that a string of radix-`radix` digits denotes. */
  function DigitsValue(ds: JsStr, radix: nat): nat
    requires forall i | 0 <= i < |ds| :: DigitValue(ds[i]) < radix
  {
    if ds == [] then 0 else DigitsValue(ds[..|ds| - 1], radix) * radix + DigitValue(ds[|ds| - 1])
  }

  /** ToInt32 of an integral value. */
  function ToInt32(n: int): (r: int)
    ensures -0x8000_0000 <= r < 0x8000_0000
  {
    if -0x8000_0000 <= n < 0x8000_0000 then n
    else
      var m := n % 0x1_0000_0000;
      if m >= 0x8000_0000 then m - 0x1_0000_0000 else m
  }

  const Minus: CodeUnit := 0x2D
  const PlusSign: CodeUnit := 0x2B
  const Zero: CodeUnit := 0x30

  predicate IsHexPrefix(s: JsStr) {
    |s| >= 2 && s[0] == Zero && (s[1] == 0x78 || s[1] == 0x58)
  }

  /**
   * `parseInt(input, radix)`; `radix` 0 stands for an absent radix (ToInt32(undefined) is 0).
   * None is NaN. A zero result with a minus sign is -0, which is 0 here.
   */
  function ParseInt(input: JsStr, radix: int): (r: Option<int>)
  {
    var s := TrimStart(input);
    var negative := s != [] && s[0] == Minus;
    var unsigned := if s != [] && (s[0] == Minus || s[0] == PlusSign) then s[1..] else s;
    match ParseUnsigned(unsigned, ToInt32(radix))
    case None => None
    case Some(magnitude) => Some(if negative then 0 - magnitude else magnitude)
  }

  /** Steps 6 to 14 of parseInt: the radix, the optional `0x` prefix, and the leading digits. */
  function ParseUnsigned(s: JsStr, r: int): Option<nat> {
    if r != 0 && (r < 2 || r > 36) then None
    else
      var hex := (r == 0 || r == 16) && IsHexPrefix(s);
      var body := if hex then s[2..] else s;
      var base: nat := if hex then 16 else if r == 0 then 10 else r;
      var end := LeadingDigits(body, base);
      if end == 0 then None else Some(DigitsValue(body[..end], base))
  }

  /** `parseInt` of `undefined`: ToString gives "undefined", which has no leading digit in radix 10. */
  function ParseIntOrUndefined(input: Option<JsStr>, radix: int): Option<int> {
    match input
    case Some(s) => ParseInt(s, radix)
    case None => ParseInt(UndefinedText, radix)
  }

  /** "undefined" */
  const UndefinedText: JsStr := [0x75, 0x6E, 0x64, 0x65, 0x66, 0x69, 0x6E, 0x65, 0x64]

  /** Up to radix 30 `undefined` parses as NaN: its first letter, `u`, is digit 30. */
  lemma UndefinedIsNaN(radix: int)
    requires radix == 0 || 2 <= radix <= 30
    ensures ParseIntOrUndefined(None, radix) == None
  {
    assert !IsWhiteSpace(UndefinedText[0]);
    assert TrimStart(UndefinedText) == UndefinedText;
    assert DigitValue(UndefinedText[0]) == 30;
  }

  /** The decimal digits of a natural number, without leading zeros. */
  function Digits(n: nat): (r: JsStr)
    ensures |r| >= 1
  {
    if n < 10 then [Zero + n] else Digits(n / 10) + [Zero + n % 10]
  }

  lemma {:induction false} DigitsAreDecimal(n: nat)
    ensures AllDecimalDigits(Digits(n))
  {
    if n >= 10 {
      DigitsAreDecimal(n / 10);
    }
  }

  /** Number::toString of an integral number below 10^21 (no exponent form). */
  function ToDecimal(n: int): (r: JsStr)
    ensures |r| >= 1
  {
    if n < 0 then [Minus] + Digits(-n) else Digits(n)
  }

  lemma {:induction false} DigitsValueOfDigits(n: nat)
    ensures AllDecimalDigits(Digits(n))
    ensures DigitsValue(Digits(n), 10) == n
  {
    DigitsAreDecimal(n);
    if n >= 10 {
      DigitsValueOfDigits(n / 10);
      var d := Digits(n);
      assert d[..|d| - 1] == Digits(n / 10);
    }
  }

  lemma ParseUnsignedOfDigits(n: nat, rest: JsStr, r: int)
    requires r == 10 || (r == 0 && !IsHexPrefix(Digits(n) + rest))
    requires rest == [] || !IsDecimalDigit(rest[0])
    ensures ParseUnsigned(Digits(n) + rest, r) == Some(n)
  {
    DigitsAreDecimal(n);
    var d := Digits(n);
    LeadingDigitsOfDigits(d, rest);
    assert (d + rest)[..|d|] == d;
    DigitsValueOfDigits(n);
  }

  /** parseInt in radix 10 reads a run of digits back, whatever non-digit follows it. */
  lemma ParseIntOfDigits(n: nat, rest: JsStr)
    requires rest == [] || !IsDecimalDigit(rest[0])
    ensures ParseInt(Digits(n) + rest, 10) == Some(n)
  {
    DigitsAreDecimal(n);
    var s := Digits(n) + rest;
    assert s[0] == Digits(n)[0];
    PositiveParse(s, 10);
    assert ToInt32(10) == 10;
    ParseUnsignedOfDigits(n, rest, 10);
  }

  /** parseInt, with radix 10 or without a radix, reads back what ToDecimal writes. */
  lemma ParseIntOfDecimal(n: int, radix: int)
    requires radix == 10 || radix == 0
    ensures ParseInt(ToDecimal(n), radix) == Some(n)
  {
    var m: nat := if n < 0 then -n else n;
    DigitsAreDecimal(m);
    var d := Digits(m);
    assert ToInt32(radix) == radix;
    DigitsNotHex(m);
    ParseUnsignedOfDigits(m, [], radix);
    assert d + [] == d;
    if n < 0 {
      assert IsDecimalDigit(d[0]);
      NegativeParse([Minus] + d, radix);
      assert ([Minus] + d)[1..] == d;
    } else {
      PositiveParse(d, radix);
    }
  }

  lemma DigitsNotHex(n: nat)
    ensures !IsHexPrefix(Digits(n) + [])
  {
    DigitsAreDecimal(n);
    var d := Digits(n);
    assert d + [] == d;
    if |d| >= 2 { assert IsDecimalDigit(d[1]); }
  }

  lemma PositiveParse(s: JsStr, radix: int)
    requires |s| >= 1 && IsDecimalDigit(s[0])
    ensures ParseInt(s, radix) == ParseUnsigned(s, ToInt32(radix))
  {
    TrimStartUnchanged(s);
  }

  lemma NegativeParse(s: JsStr, radix: int)
    requires |s| >= 2 && s[0] == Minus && IsDecimalDigit(s[1])
    ensures ParseInt(s, radix) == match ParseUnsigned(s[1..], ToInt32(radix))
      case None => None case Some(m) => Some(0 - m)
  {
    TrimStartUnchanged(s);
  }

  lemma {:induction false} LeadingDigitsOfDigits(d: JsStr, rest: JsStr)
    requires forall i | 0 <= i < |d| :: IsDecimalDigit(d[i])
    requires rest == [] || !IsDecimalDigit(rest[0])
    ensures LeadingDigits(d + rest, 10) == |d|
  {
    if d != [] {
      LeadingDigitsOfDigits(d[1..], rest);
      assert (d + rest)[1..] == d[1..] + rest;
    }
  }

  function Pow10(e: nat): (r: nat)
    ensures r >= 1
  {
    if e == 0 then 1 else 10 * Pow10(e - 1)
  }

  /** 10 to the power `e`, for an exponent of either sign. */
  function Scale(e: int): real {
    if e >= 0 then Pow10(e) as real else 1.0 / (Pow10(-e) as real)
  }

  predicate AllDecimalDigits(s: JsStr) {
    forall i | 0 <= i < |s| :: IsDecimalDigit(s[i])
  }

  const Dot: CodeUnit := 0x2E

  /** The index of the first `e` or `E`. */
  function ExponentIndex(s: JsStr): (r: Option<nat>)
    ensures r.None? ==> forall i | 0 <= i < |s| :: s[i] != 0x65 && s[i] != 0x45
    ensures r.Some? ==> r.value < |s|
  {
    if s == [] then None
    else if s[0] == 0x65 || s[0] == 0x45 then Some(0)
    else match ExponentIndex(s[1..])
      case None => None
      case Some(k) => Some(k + 1)
  }

  /** A SignedInteger of the ExponentPart: an optional sign and at least one digit. */
  function ExponentValue(s: JsStr): Option<int> {
    var negative := s != [] && s[0] == Minus;
    var digits := if s != [] && (s[0] == Minus || s[0] == PlusSign) then s[1..] else s;
    if digits == [] || !AllDecimalDigits(digits) then None
    else
      var v: int := DigitsValue(digits, 10);
      Some(if negative then -v else v)
  }

  /** The digits around an optional `.`, at least one digit in all. */
  function MantissaValue(m: JsStr): Option<real> {
    match IndexOf(m, Dot)
    case None =>
      if m != [] && AllDecimalDigits(m) then Some(DigitsValue(m, 10) as real) else None
    case Some(k) =>
      var whole, fraction := m[..k], m[k + 1..];
      if (whole != [] || fraction != []) && AllDecimalDigits(whole) && AllDecimalDigits(fraction) then
        Some(DigitsValue(whole, 10) as real + DigitsValue(fraction, 10) as real / Pow10(|fraction|) as real)
      else None
  }

  /** The mathematical value of a StrUnsignedDecimalLiteral other than `Infinity`. */
  function UnsignedDecimalValue(s: JsStr): Option<real> {
    match ExponentIndex(s)
    case None => MantissaValue(s)
    case Some(k) =>
      match (MantissaValue(s[..k]), ExponentValue(s[k + 1..]))
      case (Some(v), Some(e)) => Some(v * Scale(e))
      case _ => None
  }

  /** "Infinity" */
  const InfinityLiteral: JsStr := [0x49, 0x6E, 0x66, 0x69, 0x6E, 0x69, 0x74, 0x79]

  /** The radix that a `0b`, `0o` or `0x` prefix letter selects, 0 for any other unit. */
  function NonDecimalBase(u: CodeUnit): nat {
    if u == 0x62 || u == 0x42 then 2
    else if u == 0x6F || u == 0x4F then 8
    else if u == 0x78 || u == 0x58 then 16
    else 0
  }

  /**
   * `Number(s)` (StringToNumber): white space trimmed; empty is 0; a
   * NonDecimalIntegerLiteral; or a signed decimal literal or `Infinity`;
   * anything else is NaN. The value is the literal's mathematical value,
   * not rounded to a double.
   */
  function StringToNumber(input: JsStr): JsNumber {
    var t := Trim(input);
    if t == [] then Finite(0.0)
    else if |t| >= 2 && t[0] == Zero && NonDecimalBase(t[1]) != 0 then
      var base := NonDecimalBase(t[1]);
      var ds := t[2..];
      if ds != [] && LeadingDigits(ds, base) == |ds| then Finite(DigitsValue(ds, base) as real) else NaN
    else
      var negative := t[0] == Minus;
      var u := if t[0] == Minus || t[0] == PlusSign then t[1..] else t;
      if u == InfinityLiteral then Infinity(!negative)
      else match UnsignedDecimalValue(u)
        case None => NaN
        case Some(v) => Finite(if negative then -v else v)
  }

  lemma TrimStartUnchanged(s: JsStr)
    requires |s| >= 1 && 0x2D <= s[0] <= 0x39
    ensures TrimStart(s) == s
  {
    assert !IsWhiteSpace(s[0]);
  }

  lemma TrimUnchanged(s: JsStr)
    requires |s| >= 1 && 0x2D <= s[0] <= 0x39 && 0x30 <= s[|s| - 1] <= 0x39
    ensures Trim(s) == s
  {
    TrimStartUnchanged(s);
    assert !IsWhiteSpace(s[|s| - 1]);
  }

  lemma {:induction false} NoMarkersInDigits(d: JsStr)
    requires AllDecimalDigits(d)
    ensures ExponentIndex(d).None? && Dot !in d
  {
    if d != [] {
      NoMarkersInDigits(d[1..]);
    }
  }

  lemma UnsignedDecimalOfDigits(m: nat)
    ensures Digits(m) != InfinityLiteral
    ensures UnsignedDecimalValue(Digits(m)) == Some(m as real)
  {
    DigitsAreDecimal(m);
    var d := Digits(m);
    assert IsDecimalDigit(d[0]);
    NoMarkersInDigits(d);
    DigitsValueOfDigits(m);
  }

  /** StringToNumber of a trimmed string that starts with a sign or a digit other than a `0x`-style prefix. */
  lemma StringToNumberSigned(t: JsStr, negative: bool, u: JsStr, v: real)
    requires Trim(t) == t
    requires t == (if negative then [Minus] + u else u)
    requires u != [] && IsDecimalDigit(u[0]) && (|u| >= 2 && u[0] == Zero ==> IsDecimalDigit(u[1]))
    requires u != InfinityLiteral && UnsignedDecimalValue(u) == Some(v)
    ensures StringToNumber(t) == Finite(if negative then -v else v)
  {
    if negative {
      assert t[1..] == u;
    }
  }

  lemma TrimOfDigitRun(d: JsStr, negative: bool)
    requires d != [] && AllDecimalDigits(d)
    ensures Trim(if negative then [Minus] + d else d) == (if negative then [Minus] + d else d)
  {
    var t: JsStr := if negative then [Minus] + d else d;
    assert IsDecimalDigit(d[0]) && IsDecimalDigit(d[|d| - 1]);
    assert t[|t| - 1] == d[|d| - 1];
    TrimUnchanged(t);
  }

  /** An optionally negated run of decimal digits reads back as its value. */
  lemma StringToNumberOfDigitRun(d: JsStr, v: real, negative: bool)
    requires d != [] && AllDecimalDigits(d)
    requires d != InfinityLiteral && UnsignedDecimalValue(d) == Some(v)
    ensures StringToNumber(if negative then [Minus] + d else d) == Finite(if negative then -v else v)
  {
    TrimOfDigitRun(d, negative);
    if |d| >= 2 {
      assert IsDecimalDigit(d[1]);
    }
    StringToNumberSigned(if negative then [Minus] + d else d, negative, d, v);
  }

  /** `Number` reads back what ToDecimal writes. */
  lemma StringToNumberOfDecimal(n: int)
    ensures StringToNumber(ToDecimal(n)) == Finite(n as real)
  {
    var m: nat := if n < 0 then -n else n;
    DigitsAreDecimal(m);
    UnsignedDecimalOfDigits(m);
    StringToNumberOfDigitRun(Digits(m), m as real, n < 0);
  }
}
