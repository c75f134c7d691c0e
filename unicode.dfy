/**
 * The Unicode encoding forms that JavaScript strings meet on the way into a
 * URL: UTF-16 (the code units of a string) and UTF-8 (the octets that get
 * percent-encoded).
 */
module Unicode {
  import opened Wrappers
  import opened JsString

  /** A Unicode scalar value: a code point that is not a surrogate. */
  type Scalar = x: int | 0 <= x < 0xD800 || 0xE000 <= x < 0x11_0000

  type Byte = x: int | 0 <= x < 0x100

  const ReplacementCharacter: Scalar := 0xFFFD

  predicate IsLeadSurrogate(u: int) { 0xD800 <= u < 0xDC00 }
  predicate IsTrailSurrogate(u: int) { 0xDC00 <= u < 0xE000 }

  function SurrogatePair(lead: CodeUnit, trail: CodeUnit): Scalar
    requires IsLeadSurrogate(lead) && IsTrailSurrogate(trail)
  {
    (lead - 0xD800) * 0x400 + (trail - 0xDC00) + 0x1_0000
  }

  /**
   * The code points of a string as ECMA-262 CodePointAt reads them, or None
   * when the string holds an unpaired surrogate.
   */
  function Scalars(s: JsStr): Option<seq<Scalar>>
    decreases |s|
  {
    if s == [] then Some([])
    else if |s| >= 2 && IsLeadSurrogate(s[0]) && IsTrailSurrogate(s[1]) then
      match Scalars(s[2..])
      case None => None
      case Some(rest) => Some([SurrogatePair(s[0], s[1])] + rest)
    else if IsLeadSurrogate(s[0]) || IsTrailSurrogate(s[0]) then None
    else
      match Scalars(s[1..])
      case None => None
      case Some(rest) => Some([s[0] as Scalar] + rest)
  }

  predicate WellFormed(s: JsStr) {
    Scalars(s).Some?
  }

  /** Conversion to a USVString (WebIDL): every unpaired surrogate becomes U+FFFD. */
  function ToUsv(s: JsStr): seq<Scalar>
    decreases |s|
  {
    if s == [] then []
    else if |s| >= 2 && IsLeadSurrogate(s[0]) && IsTrailSurrogate(s[1]) then
      [SurrogatePair(s[0], s[1])] + ToUsv(s[2..])
    else if IsLeadSurrogate(s[0]) || IsTrailSurrogate(s[0]) then
      [ReplacementCharacter] + ToUsv(s[1..])
    else
      [s[0] as Scalar] + ToUsv(s[1..])
  }

  /** UTF16EncodeCodePoint of ECMA-262. */
  function Utf16Of(c: Scalar): (r: JsStr)
    ensures 1 <= |r| <= 2
  {
    if c < 0x1_0000 then [c]
    else [(c - 0x1_0000) / 0x400 + 0xD800, (c - 0x1_0000) % 0x400 + 0xDC00]
  }

  /** A sequence of scalar values as UTF-16 code units. */
  function Utf16(cps: seq<Scalar>): JsStr {
    if cps == [] then [] else Utf16Of(cps[0]) + Utf16(cps[1..])
  }

  lemma {:induction false} Utf16Append(a: seq<Scalar>, b: seq<Scalar>)
    ensures Utf16(a + b) == Utf16(a) + Utf16(b)
  {
    if a == [] {
      assert a + b == b;
    } else {
      var ab := a + b;
      assert ab[0] == a[0] && ab[1..] == a[1..] + b;
      Utf16Append(a[1..], b);
      calc {
        Utf16(ab);
        Utf16Of(a[0]) + Utf16(a[1..] + b);
        Utf16Of(a[0]) + (Utf16(a[1..]) + Utf16(b));
        (Utf16Of(a[0]) + Utf16(a[1..])) + Utf16(b);
      }
    }
  }

  lemma {:induction false} ScalarsOfUtf16(cps: seq<Scalar>)
    ensures Scalars(Utf16(cps)) == Some(cps)
  {
    if cps != [] {
      ScalarsOfUtf16(cps[1..]);
      var c := cps[0];
      var u := Utf16(cps);
      assert u == Utf16Of(c) + Utf16(cps[1..]);
      if c < 0x1_0000 {
        assert u[0] == c && u[1..] == Utf16(cps[1..]);
        assert !IsLeadSurrogate(u[0]) && !IsTrailSurrogate(u[0]);
        assert Scalars(u) == Some([c] + cps[1..]);
        assert [c] + cps[1..] == cps;
      } else {
        assert u[2..] == Utf16(cps[1..]);
        assert IsLeadSurrogate(u[0]) && IsTrailSurrogate(u[1]);
        assert SurrogatePair(u[0], u[1]) == c;
        assert Scalars(u) == Some([c] + cps[1..]);
        assert [c] + cps[1..] == cps;
      }
    }
  }

  lemma {:induction false} Utf16OfScalars(s: JsStr)
    requires WellFormed(s)
    ensures Utf16(Scalars(s).value) == s
    decreases |s|
  {
    if s != [] {
      if |s| >= 2 && IsLeadSurrogate(s[0]) && IsTrailSurrogate(s[1]) {
        Utf16OfScalars(s[2..]);
        assert s == s[..2] + s[2..];
      } else {
        Utf16OfScalars(s[1..]);
        assert s == [s[0]] + s[1..];
      }
    }
  }

  lemma {:induction false} ToUsvOfWellFormed(s: JsStr)
    requires WellFormed(s)
    ensures ToUsv(s) == Scalars(s).value
    decreases |s|
  {
    if s != [] {
      if |s| >= 2 && IsLeadSurrogate(s[0]) && IsTrailSurrogate(s[1]) {
        ToUsvOfWellFormed(s[2..]);
      } else {
        ToUsvOfWellFormed(s[1..]);
      }
    }
  }

  /** Concatenation preserves well-formedness when the left part is ASCII. */
  lemma {:induction false} ScalarsOfAsciiPrefix(a: JsStr, b: JsStr)
    requires forall i | 0 <= i < |a| :: a[i] < 0x80
    ensures Scalars(a + b) == (match Scalars(b) case None => None case Some(cs) => Some(a + cs))
    decreases |a|
  {
    if a == [] {
      assert a + b == b;
      match Scalars(b)
      case None =>
      case Some(cs) => assert a + cs == cs;
    } else {
      ScalarsOfAsciiPrefix(a[1..], b);
      assert (a + b)[1..] == a[1..] + b;
      assert (a + b)[0] == a[0];
      match Scalars(b)
      case None =>
      case Some(cs) =>
        assert [a[0] as Scalar] + (a[1..] + cs) == a + cs;
    }
  }

  /** The UTF-8 octets of a scalar value (RFC 3629). */
  function Utf8(c: Scalar): (r: seq<Byte>)
    ensures 1 <= |r| <= 4
    ensures (|r| == 1) == (c < 0x80)
  {
    if c < 0x80 then [c]
    else if c < 0x800 then [0xC0 + c / 0x40, 0x80 + c % 0x40]
    else if c < 0x1_0000 then [0xE0 + c / 0x1000, 0x80 + (c / 0x40) % 0x40, 0x80 + c % 0x40]
    else [0xF0 + c / 0x4_0000, 0x80 + (c / 0x1000) % 0x40, 0x80 + (c / 0x40) % 0x40, 0x80 + c % 0x40]
  }

  /**
   * How many octets a UTF-8 sequence starting with `b` has: 1 for ASCII,
   * 2 to 4 for a lead octet, 0 when `b` cannot start a sequence.
   */
  function SequenceLength(b: Byte): nat {
    if b < 0x80 then 1
    else if 0xC0 <= b < 0xE0 then 2
    else if 0xE0 <= b < 0xF0 then 3
    else if 0xF0 <= b < 0xF8 then 4
    else 0
  }

  predicate IsContinuation(b: Byte) { 0x80 <= b < 0xC0 }

  /**
   * The scalar value that a whole UTF-8 sequence encodes, or None when the
   * octets are not the shortest encoding of a scalar value.
   */
  function Utf8Decode(bs: seq<Byte>): (r: Option<Scalar>)
  {
    if |bs| == 0 || |bs| != SequenceLength(bs[0]) then None
    else if exists i | 1 <= i < |bs| :: !IsContinuation(bs[i]) then None
    else if |bs| == 1 then Some(bs[0])
    else if |bs| == 2 then
      var c := (bs[0] as int - 0xC0) * 0x40 + (bs[1] as int - 0x80);
      if c < 0x80 then None else Some(c)
    else if |bs| == 3 then
      var c := (bs[0] as int - 0xE0) * 0x1000 + (bs[1] as int - 0x80) * 0x40 + (bs[2] as int - 0x80);
      if c < 0x800 || (0xD800 <= c < 0xE000) then None else Some(c)
    else
      var c := (bs[0] as int - 0xF0) * 0x4_0000 + (bs[1] as int - 0x80) * 0x1000
             + (bs[2] as int - 0x80) * 0x40 + (bs[3] as int - 0x80);
      if c < 0x1_0000 || c >= 0x11_0000 then None else Some(c)
  }

  /** Decoding the UTF-8 encoding of a scalar value gives it back. */
  lemma Utf8RoundTrip(c: Scalar)
    ensures SequenceLength(Utf8(c)[0]) == |Utf8(c)|
    ensures Utf8Decode(Utf8(c)) == Some(c)
  {
    if c < 0x80 {
    } else if c < 0x800 {
      Utf8TwoOctets(c);
    } else if c < 0x1_0000 {
      Utf8ThreeOctets(c);
    } else {
      Utf8FourOctets(c);
    }
  }

  lemma Utf8TwoOctets(c: Scalar)
    requires 0x80 <= c < 0x800
    ensures SequenceLength(Utf8(c)[0]) == |Utf8(c)| == 2
    ensures Utf8Decode(Utf8(c)) == Some(c)
  {
    var bs := Utf8(c);
    var q, r := c / 0x40, c % 0x40;
    assert c == q * 0x40 + r;
    assert bs == [0xC0 + q, 0x80 + r];
  }

  lemma Utf8ThreeOctets(c: Scalar)
    requires 0x800 <= c < 0x1_0000
    ensures SequenceLength(Utf8(c)[0]) == |Utf8(c)| == 3
    ensures Utf8Decode(Utf8(c)) == Some(c)
  {
    var bs := Utf8(c);
    var q, r := c / 0x40, c % 0x40;
    var q2, r2 := q / 0x40, q % 0x40;
    assert c == q * 0x40 + r && q == q2 * 0x40 + r2;
    assert c / 0x1000 == q2;
    assert bs == [0xE0 + q2, 0x80 + r2, 0x80 + r];
  }

  lemma Utf8FourOctets(c: Scalar)
    requires 0x1_0000 <= c
    ensures SequenceLength(Utf8(c)[0]) == |Utf8(c)| == 4
    ensures Utf8Decode(Utf8(c)) == Some(c)
  {
    var bs := Utf8(c);
    var q, r := c / 0x40, c % 0x40;
    var q2, r2 := q / 0x40, q % 0x40;
    var q3, r3 := q2 / 0x40, q2 % 0x40;
    assert c == q * 0x40 + r && q == q2 * 0x40 + r2 && q2 == q3 * 0x40 + r3;
    assert c / 0x1000 == q2 && c / 0x4_0000 == q3;
    assert bs == [0xF0 + q3, 0x80 + r3, 0x80 + r2, 0x80 + r];
  }
}
