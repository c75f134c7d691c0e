/**
 * `URLSearchParams` as the generator uses it: an ordered list of
 * name/value pairs that `append` extends in place and `toString`
 * serializes as application/x-www-form-urlencoded (WHATWG URL Standard,
 * section 5.2). The parser of section 5.1 is here too, as the serializer's
 * inverse.
 */
module FormUrlencoded {
  import opened Wrappers
  import opened JsString
  import opened Unicode
  import opened PercentEncoding

  type Pair = (JsStr, JsStr)

  /** `name=value`, each half form-encoded. */
  function SerializePair(p: Pair): JsStr {
    FormEncode(p.0) + [EqualsSign] + FormEncode(p.1)
  }

  /** The serialized pairs, joined with `&`. */
  function Serialize(pairs: seq<Pair>): JsStr {
    if pairs == [] then []
    else if |pairs| == 1 then SerializePair(pairs[0])
    else SerializePair(pairs[0]) + [Ampersand] + Serialize(pairs[1..])
  }

  /** What a name or value reads back as: its USVString conversion. */
  function Normalize(p: Pair): Pair {
    (Utf16(ToUsv(p.0)), Utf16(ToUsv(p.1)))
  }

  function NormalizeAll(pairs: seq<Pair>): (r: seq<Pair>)
    ensures |r| == |pairs|
    ensures forall i | 0 <= i < |pairs| :: r[i] == Normalize(pairs[i])
  {
    if pairs == [] then [] else [Normalize(pairs[0])] + NormalizeAll(pairs[1..])
  }

  /**
   * One `&`-separated piece: name and value split at the first `=` (the
   * value is empty without one), `+` read as space, then percent-decoded.
   * None where the percent-decoding is not valid UTF-8; section 5.1 would
   * substitute U+FFFD there, which no serializer output needs.
   */
  function ParsePiece(piece: JsStr): Option<Pair> {
    var (name, value) :=
      match IndexOf(piece, EqualsSign)
      case None => (piece, [])
      case Some(i) => (piece[..i], piece[i + 1..]);
    match (PercentDecode(Form, name), PercentDecode(Form, value))
    case (Some(n), Some(v)) => Some((n, v))
    case _ => None
  }

  /** The pieces in order, empty pieces skipped. */
  function ParsePieces(pieces: seq<JsStr>): Option<seq<Pair>> {
    if pieces == [] then Some([])
    else
      match ParsePieces(pieces[1..])
      case None => None
      case Some(rest) =>
        if pieces[0] == [] then Some(rest)
        else match ParsePiece(pieces[0])
          case None => None
          case Some(p) => Some([p] + rest)
  }

  /** The application/x-www-form-urlencoded parser. */
  function Parse(s: JsStr): Option<seq<Pair>> {
    ParsePieces(Split(s, Ampersand))
  }

  /** A form-encoded string holds neither of the serializer's delimiters. */
  lemma DelimitersNotInFormEncode(s: JsStr)
    ensures EqualsSign !in FormEncode(s) && Ampersand !in FormEncode(s)
  {
    FormRoundTrip(s);
    DelimitersNotEncoded(Form);
    var e := FormEncode(s);
    forall i | 0 <= i < |e|
      ensures e[i] != EqualsSign && e[i] != Ampersand
    {
      assert EncodedUnit(Form, e[i]);
    }
  }

  /** A serialized pair parses back as the pair, up to USVString conversion. */
  lemma ParseSerializePair(p: Pair)
    ensures SerializePair(p) != [] && Ampersand !in SerializePair(p)
    ensures ParsePiece(SerializePair(p)) == Some(Normalize(p))
  {
    var piece := SerializePair(p);
    var n := FormEncode(p.0);
    DelimitersNotInFormEncode(p.0);
    DelimitersNotInFormEncode(p.1);
    assert piece[|n|] == EqualsSign;
    assert EqualsSign !in piece[..|n|] by { assert piece[..|n|] == n; }
    assert IndexOf(piece, EqualsSign) == Some(|n|);
    assert piece[..|n|] == n && piece[|n| + 1..] == FormEncode(p.1);
    FormRoundTrip(p.0);
    FormRoundTrip(p.1);
  }

  /** Splitting a serialization at `&` yields the serialized pairs. */
  lemma {:induction false} SplitSerialize(pairs: seq<Pair>)
    requires pairs != []
    ensures |Split(Serialize(pairs), Ampersand)| == |pairs|
    ensures forall i | 0 <= i < |pairs| :: Split(Serialize(pairs), Ampersand)[i] == SerializePair(pairs[i])
  {
    ParseSerializePair(pairs[0]);
    if |pairs| == 1 {
      SplitNoSep(SerializePair(pairs[0]), Ampersand);
    } else {
      SplitSerialize(pairs[1..]);
      SplitConcat(SerializePair(pairs[0]), Ampersand, Serialize(pairs[1..]));
    }
  }

  lemma {:induction false} ParseSerializedPieces(pairs: seq<Pair>, pieces: seq<JsStr>)
    requires |pieces| == |pairs|
    requires forall i | 0 <= i < |pairs| :: pieces[i] == SerializePair(pairs[i])
    ensures ParsePieces(pieces) == Some(NormalizeAll(pairs))
  {
    if pairs != [] {
      ParseSerializedPieces(pairs[1..], pieces[1..]);
      ParseSerializePair(pairs[0]);
    }
  }

  /**
   * The parser reads back every serialization: the same pairs in the same
   * order, each name and value after USVString conversion.
   */
  lemma ParseSerialize(pairs: seq<Pair>)
    ensures Parse(Serialize(pairs)) == Some(NormalizeAll(pairs))
  {
    if pairs == [] {
      SplitNoSep([], Ampersand);
      assert Split([], Ampersand) == [[]];
      assert ParsePieces([[]]) == Some([]);
    } else {
      SplitSerialize(pairs);
      ParseSerializedPieces(pairs, Split(Serialize(pairs), Ampersand));
    }
  }

  /** Well-formed names and values read back exactly. */
  lemma ParseSerializeWellFormed(pairs: seq<Pair>)
    requires forall i | 0 <= i < |pairs| :: WellFormed(pairs[i].0) && WellFormed(pairs[i].1)
    ensures Parse(Serialize(pairs)) == Some(pairs)
  {
    ParseSerialize(pairs);
    forall i | 0 <= i < |pairs|
      ensures NormalizeAll(pairs)[i] == pairs[i]
    {
      NormalizeWellFormed(pairs[i]);
    }
    assert NormalizeAll(pairs) == pairs;
  }

  lemma NormalizeWellFormed(p: Pair)
    requires WellFormed(p.0) && WellFormed(p.1)
    ensures Normalize(p) == p
  {
    ToUsvOfWellFormed(p.0);
    Utf16OfScalars(p.0);
    ToUsvOfWellFormed(p.1);
    Utf16OfScalars(p.1);
  }

  /** A `URLSearchParams` object: its list of pairs, changed in place by `append`. */
  class SearchParams {
    var list: seq<Pair>

    /** `new URLSearchParams()` */
    constructor()
      ensures list == []
    {
      list := [];
    }

    /** `append(name, value)` adds the pair at the end. */
    method Append(name: JsStr, value: JsStr)
      modifies this
      ensures list == old(list) + [(name, value)]
    {
      list := list + [(name, value)];
    }

    /** `toString()`: the serialization, which the parser reads back as the list. */
    function ToString(): (r: JsStr)
      reads this
      ensures Parse(r) == Some(NormalizeAll(list))
    {
      ParseSerialize(list);
      Serialize(list)
    }
  }
}
