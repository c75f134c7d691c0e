/**
 * JavaScript strings as sequences of UTF-16 code units, with the few
 * String.prototype operations the components use: `trim`, `includes`,
 * `split` on a one-unit separator, and `indexOf` of one unit.
 */
module JsString {
  import opened Wrappers

  type CodeUnit = x: int | 0 <= x < 0x1_0000
  type JsStr = seq<CodeUnit>

  /** The UTF-16 code units of a Dafny string (whose characters are Unicode scalar values). */
  function Js(s: string): (r: JsStr)
    ensures |r| >= |s|
    ensures (forall i | 0 <= i < |s| :: s[i] as int < 0x1_0000) ==>
              |r| == |s| && forall i | 0 <= i < |s| :: r[i] == s[i] as int
  {
    if s == [] then []
    else
      var c := s[0] as int;
      var head: JsStr := if c < 0x1_0000 then [c]
                         else [0xD800 + (c - 0x1_0000) / 0x400, 0xDC00 + (c - 0x1_0000) % 0x400];
      head + Js(s[1..])
  }

  const Colon: CodeUnit := 0x3A
  const QuestionMark: CodeUnit := 0x3F
  const Ampersand: CodeUnit := 0x26
  const EqualsSign: CodeUnit := 0x3D
  const LowerX: CodeUnit := 0x78

  /** ", ", the separator both prompt editors append with. */
  const CommaSpace: JsStr := [0x2C, 0x20]

  /** WhiteSpace and LineTerminator code points of ECMA-262 (StrWhiteSpaceChar); all lie in the BMP. */
  predicate IsWhiteSpace(u: CodeUnit) {
    u == 0x09 || u == 0x0A || u == 0x0B || u == 0x0C || u == 0x0D || u == 0x20 || u == 0xA0 ||
    u == 0x1680 || (0x2000 <= u <= 0x200A) || u == 0x2028 || u == 0x2029 || u == 0x202F ||
    u == 0x205F || u == 0x3000 || u == 0xFEFF
  }

  predicate IsBlank(s: JsStr) {
    forall i | 0 <= i < |s| :: IsWhiteSpace(s[i])
  }

  /** `s.trimStart()`: the leading white space removed. */
  function TrimStart(s: JsStr): (r: JsStr)
    ensures |r| <= |s| && r == s[|s| - |r|..]
    ensures r == [] || !IsWhiteSpace(r[0])
  {
    if s != [] && IsWhiteSpace(s[0]) then TrimStart(s[1..]) else s
  }

  /** `s.trimEnd()`: the trailing white space removed. */
  function TrimEnd(s: JsStr): (r: JsStr)
    ensures |r| <= |s| && r == s[..|r|]
    ensures r == [] || !IsWhiteSpace(r[|r| - 1])
  {
    if s != [] && IsWhiteSpace(s[|s| - 1]) then TrimEnd(s[..|s| - 1]) else s
  }

  /** `s.trim()` */
  function Trim(s: JsStr): JsStr {
    TrimEnd(TrimStart(s))
  }

  lemma {:induction false} TrimStartDropsBlank(s: JsStr)
    ensures IsBlank(s[..|s| - |TrimStart(s)|])
  {
    if s != [] && IsWhiteSpace(s[0]) {
      TrimStartDropsBlank(s[1..]);
      assert s[..|s| - |TrimStart(s)|] == [s[0]] + s[1..][..|s[1..]| - |TrimStart(s[1..])|];
    }
  }

  lemma {:induction false} TrimEndDropsBlank(s: JsStr)
    ensures IsBlank(s[|TrimEnd(s)|..])
  {
    if s != [] && IsWhiteSpace(s[|s| - 1]) {
      TrimEndDropsBlank(s[..|s| - 1]);
      assert s[|TrimEnd(s)|..] == s[..|s| - 1][|TrimEnd(s[..|s| - 1])|..] + [s[|s| - 1]];
    }
  }

  /** `s.trim()` is the empty (falsy) string exactly when `s` is all white space. */
  lemma TrimEmptyIffBlank(s: JsStr)
    ensures Trim(s) == [] <==> IsBlank(s)
  {
    var t := TrimStart(s);
    TrimStartDropsBlank(s);
    TrimEndDropsBlank(t);
    if Trim(s) == [] {
      assert s == s[..|s| - |t|] + t;
    }
  }

  predicate OccursAt(s: JsStr, sub: JsStr, i: int) {
    0 <= i && i + |sub| <= |s| && s[i..i + |sub|] == sub
  }

  /** `s.includes(sub)` */
  predicate Contains(s: JsStr, sub: JsStr) {
    exists i | 0 <= i <= |s| - |sub| :: OccursAt(s, sub, i)
  }

  /** `s.indexOf(u)` for a single code unit, as an option instead of -1. */
  function IndexOf(s: JsStr, u: CodeUnit): (r: Option<nat>)
    ensures r.None? <==> u !in s
    ensures r.Some? ==> r.value < |s| && s[r.value] == u && u !in s[..r.value]
  {
    if s == [] then None
    else if s[0] == u then Some(0)
    else match IndexOf(s[1..], u)
      case None => None
      case Some(k) =>
        assert s[..k + 1] == [s[0]] + s[1..][..k];
        Some(k + 1)
  }

  /** `s.split(sep)` for a one-unit separator: the pieces between occurrences of `sep`. */
  function Split(s: JsStr, sep: CodeUnit): (r: seq<JsStr>)
    ensures |r| >= 1
    ensures forall k | 0 <= k < |r| :: sep !in r[k]
    decreases |s|
  {
    match IndexOf(s, sep)
    case None => [s]
    case Some(k) => [s[..k]] + Split(s[k + 1..], sep)
  }

  /** The `n`-th piece of `s.split(sep)`, or `undefined` (None) past the end of the array. */
  function SplitPart(s: JsStr, sep: CodeUnit, n: nat): Option<JsStr> {
    var parts := Split(s, sep);
    if n < |parts| then Some(parts[n]) else None
  }

  /** The first `u` in `a + [u] + b`, when `a` has none, is the one after `a`. */
  lemma IndexOfConcat(a: JsStr, u: CodeUnit, b: JsStr)
    requires u !in a
    ensures IndexOf(a + [u] + b, u) == Some(|a|)
    ensures (a + [u] + b)[..|a|] == a && (a + [u] + b)[|a| + 1..] == b
  {
    var s := a + [u] + b;
    assert s[..|a|] == a && s[|a|] == u && s[|a| + 1..] == b;
  }

  /** Splitting a string whose first piece holds no separator yields that piece first. */
  lemma {:induction false} SplitConcat(a: JsStr, sep: CodeUnit, b: JsStr)
    requires sep !in a
    ensures Split(a + [sep] + b, sep) == [a] + Split(b, sep)
  {
    var s := a + [sep] + b;
    assert s[..|a|] == a && s[|a|] == sep && s[|a| + 1..] == b;
  }

  /** A string without the separator is a single piece. */
  lemma SplitNoSep(a: JsStr, sep: CodeUnit)
    requires sep !in a
    ensures Split(a, sep) == [a]
  {
  }
}
