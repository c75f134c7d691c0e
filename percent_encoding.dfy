/**
 * Percent-encoding of strings, in the two flavours the generator uses:
 * `encodeURIComponent` (ECMA-262, URI Handling Functions) for the path
 * segment, and the application/x-www-form-urlencoded byte serializer of the
 * WHATWG URL Standard (section 5.2) for the query. Both encode each scalar
 * value as itself when it is in an unescaped set and as `%XX` triplets of its
 * UTF-8 octets otherwise; the form flavour also writes a space as `+`.
 * The decoder is the partner of both: it follows ECMA-262's Decode with an
 * empty reserved set, and for the form flavour reads `+` as a space.
 */
module PercentEncoding {
  import opened Wrappers
  import opened JsString
  import opened Unicode

  const Percent: CodeUnit := 0x25
  const Plus: CodeUnit := 0x2B
  const Space: CodeUnit := 0x20

  datatype Flavour = Component | Form

  datatype UriError = UriError

  /** The upper-case hexadecimal digit for 0..15. */
  function HexDigit(d: int): (u: CodeUnit)
    requires 0 <= d < 16
    ensures IsAsciiAlphanumeric(u)
  {
    if d < 10 then 0x30 + d else 0x41 + d - 10
  }

  /** The value of a hexadecimal digit of either case. */
  function HexValue(u: CodeUnit): (r: Option<int>)
    ensures r.Some? ==> 0 <= r.value < 16
  {
    if 0x30 <= u <= 0x39 then Some(u - 0x30)
    else if 0x41 <= u <= 0x46 then Some(u - 0x41 + 10)
    else if 0x61 <= u <= 0x66 then Some(u - 0x61 + 10)
    else None
  }

  predicate IsAsciiAlphanumeric(u: int) {
    (0x30 <= u <= 0x39) || (0x41 <= u <= 0x5A) || (0x61 <= u <= 0x7A)
  }

  /**
   * The units left as they are: for encodeURIComponent uriAlpha, DecimalDigit
   * and uriMark (`- _ . ! ~ * ' ( )`); for the form serializer ASCII
   * alphanumerics and `* - . _`.
   */
  predicate Unescaped(flavour: Flavour, u: int) {
    IsAsciiAlphanumeric(u) || u == 0x2A || u == 0x2D || u == 0x2E || u == 0x5F ||
    (flavour == Component && (u == 0x21 || u == 0x7E || u == 0x27 || u == 0x28 || u == 0x29))
  }

  function PercentBytes(bs: seq<Byte>): (r: JsStr)
    ensures |r| == 3 * |bs|
  {
    if bs == [] then []
    else [Percent, HexDigit(bs[0] / 16), HexDigit(bs[0] % 16)] + PercentBytes(bs[1..])
  }

  /** The encoding of one scalar value. */
  function EncodeScalar(flavour: Flavour, c: Scalar): (r: JsStr)
    ensures |r| >= 1
  {
    if flavour == Form && c == Space then [Plus]
    else if Unescaped(flavour, c) then [c]
    else PercentBytes(Utf8(c))
  }

  function EncodeScalars(flavour: Flavour, cps: seq<Scalar>): JsStr {
    if cps == [] then [] else EncodeScalar(flavour, cps[0]) + EncodeScalars(flavour, cps[1..])
  }

  /** `encodeURIComponent(s)`: throws URIError exactly when `s` holds an unpaired surrogate. */
  function EncodeUriComponent(s: JsStr): Result<JsStr, UriError> {
    match Scalars(s)
    case None => Err(UriError)
    case Some(cps) => Ok(EncodeScalars(Component, cps))
  }

  /** The form-urlencoded serialization of one name or value, after conversion to a USVString. */
  function FormEncode(s: JsStr): JsStr {
    EncodeScalars(Form, ToUsv(s))
  }

  /** The octet written as `%XY` at the start of `s`. */
  function ReadByte(s: JsStr): Option<Byte> {
    if |s| < 3 || s[0] != Percent then None
    else match (HexValue(s[1]), HexValue(s[2]))
      case (Some(h), Some(l)) => Some(h * 16 + l)
      case _ => None
  }

  /** `n` consecutive `%XY` triplets at the start of `s`. */
  function ReadBytes(s: JsStr, n: nat): Option<seq<Byte>> {
    if n == 0 then Some([])
    else match ReadByte(s)
      case None => None
      case Some(b) =>
        match ReadBytes(s[3..], n - 1)
        case None => None
        case Some(bs) => Some([b] + bs)
  }

  /** One decoding step at the start of a non-empty string: the units produced and the units consumed. */
  function DecodeStep(flavour: Flavour, s: JsStr): (r: Option<(JsStr, nat)>)
    requires s != []
    ensures r.Some? ==> 0 < r.value.1 <= |s|
  {
    if s[0] != Percent then
      Some(([if flavour == Form && s[0] == Plus then Space else s[0]], 1))
    else match ReadByte(s)
      case None => None
      case Some(b) =>
        var n := SequenceLength(b);
        if n == 0 || |s| < 3 * n then None
        else match ReadBytes(s, n)
          case None => None
          case Some(bs) =>
            match Utf8Decode(bs)
            case None => None
            case Some(c) => Some((Utf16Of(c), 3 * n))
  }

  /** Percent-decoding of a whole string; None where `decodeURIComponent` throws URIError. */
  function PercentDecode(flavour: Flavour, s: JsStr): Option<JsStr>
    decreases |s|
  {
    if s == [] then Some([])
    else match DecodeStep(flavour, s)
      case None => None
      case Some((u, k)) =>
        match PercentDecode(flavour, s[k..])
        case None => None
        case Some(rest) => Some(u + rest)
  }

  /** `decodeURIComponent(s)` */
  function DecodeUriComponent(s: JsStr): Result<JsStr, UriError> {
    match PercentDecode(Component, s)
    case None => Err(UriError)
    case Some(r) => Ok(r)
  }

  lemma {:induction false} ReadPercentBytes(bs: seq<Byte>, rest: JsStr)
    ensures ReadBytes(PercentBytes(bs) + rest, |bs|) == Some(bs)
  {
    if bs != [] {
      var b := bs[0];
      var s := PercentBytes(bs) + rest;
      assert s == [Percent, HexDigit(b / 16), HexDigit(b % 16)] + (PercentBytes(bs[1..]) + rest);
      assert HexValue(HexDigit(b / 16)) == Some(b / 16);
      assert HexValue(HexDigit(b % 16)) == Some(b % 16);
      assert ReadByte(s) == Some(b);
      ReadPercentBytes(bs[1..], rest);
      assert s[3..] == PercentBytes(bs[1..]) + rest;
      assert [b] + bs[1..] == bs;
    }
  }

  /** Decoding the encoding of one scalar value gives its UTF-16 units and consumes exactly that encoding. */
  lemma DecodeStepOfEncoded(flavour: Flavour, c: Scalar, rest: JsStr)
    ensures DecodeStep(flavour, EncodeScalar(flavour, c) + rest) == Some((Utf16Of(c), |EncodeScalar(flavour, c)|))
  {
    if !(flavour == Form && c == Space) && !Unescaped(flavour, c) {
      Utf8RoundTrip(c);
      DecodeStepOfPercentBytes(flavour, Utf8(c), c, rest);
    }
  }

  /** A run of `%XY` triplets holding a whole UTF-8 sequence decodes in one step to its scalar value. */
  lemma DecodeStepOfPercentBytes(flavour: Flavour, bs: seq<Byte>, c: Scalar, rest: JsStr)
    requires bs != [] && SequenceLength(bs[0]) == |bs| && Utf8Decode(bs) == Some(c)
    ensures DecodeStep(flavour, PercentBytes(bs) + rest) == Some((Utf16Of(c), 3 * |bs|))
  {
    var s := PercentBytes(bs) + rest;
    ReadPercentBytes(bs, rest);
    ReadFirstByte(bs, rest);
    assert s[0] == Percent && |s| >= 3 * |bs|;
  }

  /** The first triplet of a run of `%XY` triplets reads as the first octet. */
  lemma ReadFirstByte(bs: seq<Byte>, rest: JsStr)
    requires bs != []
    ensures ReadByte(PercentBytes(bs) + rest) == Some(bs[0])
  {
    ReadPercentBytes(bs, rest);
  }

  /** Percent-decoding undoes percent-encoding. */
  lemma {:induction false} DecodeEncodeScalars(flavour: Flavour, cps: seq<Scalar>)
    ensures PercentDecode(flavour, EncodeScalars(flavour, cps)) == Some(Utf16(cps))
  {
    if cps != [] {
      var e := EncodeScalar(flavour, cps[0]);
      var rest := EncodeScalars(flavour, cps[1..]);
      DecodeStepOfEncoded(flavour, cps[0], rest);
      DecodeEncodeScalars(flavour, cps[1..]);
      assert (e + rest)[|e|..] == rest;
    }
  }

  /** A unit that an encoding can produce. */
  predicate EncodedUnit(flavour: Flavour, u: int) {
    Unescaped(flavour, u) || u == Percent || (flavour == Form && u == Plus)
  }

  lemma {:induction false} EncodedUnits(flavour: Flavour, cps: seq<Scalar>)
    ensures forall i | 0 <= i < |EncodeScalars(flavour, cps)| :: EncodedUnit(flavour, EncodeScalars(flavour, cps)[i])
  {
    if cps != [] {
      EncodedUnits(flavour, cps[1..]);
      PercentBytesUnits(Utf8(cps[0]));
    }
  }

  lemma {:induction false} PercentBytesUnits(bs: seq<Byte>)
    ensures forall i | 0 <= i < |PercentBytes(bs)| :: PercentBytes(bs)[i] == Percent || IsAsciiAlphanumeric(PercentBytes(bs)[i])
  {
    if bs != [] {
      PercentBytesUnits(bs[1..]);
    }
  }

  /** encodeURIComponent fails exactly on strings with an unpaired surrogate. */
  lemma EncodeUriComponentFails(s: JsStr)
    ensures EncodeUriComponent(s).Err? <==> !WellFormed(s)
  {
  }

  /**
   * `decodeURIComponent(encodeURIComponent(s)) == s` for every well-formed
   * string, and the encoding holds only unescaped units and `%` (so no `:`,
   * `/`, `?`, `#`, `&` or `=`).
   */
  lemma UriComponentRoundTrip(s: JsStr)
    requires WellFormed(s)
    ensures EncodeUriComponent(s).Ok?
    ensures DecodeUriComponent(EncodeUriComponent(s).value) == Ok(s)
    ensures forall i | 0 <= i < |EncodeUriComponent(s).value| :: EncodedUnit(Component, EncodeUriComponent(s).value[i])
  {
    DecodeEncodeScalars(Component, Scalars(s).value);
    Utf16OfScalars(s);
    EncodedUnits(Component, Scalars(s).value);
  }

  /** The form-urlencoded parser's decoding undoes FormEncode, up to USVString conversion. */
  lemma FormRoundTrip(s: JsStr)
    ensures PercentDecode(Form, FormEncode(s)) == Some(Utf16(ToUsv(s)))
    ensures WellFormed(s) ==> PercentDecode(Form, FormEncode(s)) == Some(s)
    ensures forall i | 0 <= i < |FormEncode(s)| :: EncodedUnit(Form, FormEncode(s)[i])
  {
    DecodeEncodeScalars(Form, ToUsv(s));
    EncodedUnits(Form, ToUsv(s));
    if WellFormed(s) {
      ToUsvOfWellFormed(s);
      Utf16OfScalars(s);
    }
  }

  /** None of the URL's delimiters is ever produced by an encoding. */
  lemma DelimitersNotEncoded(flavour: Flavour)
    ensures !EncodedUnit(flavour, Colon) && !EncodedUnit(flavour, QuestionMark)
    ensures !EncodedUnit(flavour, Ampersand) && !EncodedUnit(flavour, EqualsSign)
  {
  }
}
