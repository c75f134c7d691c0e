/**
 * The image generator component (components/image-generator.tsx): its
 * state, the `generateImage` pipeline that builds the request URL and
 * records history and saved prompts, and the handlers for parameter
 * changes and for picking a history entry or saved prompt.
 *
 * The clock (`Date.now()`, `toISOString()`) and the random seed source are
 * parameters of the operations that read them.
 */
module Generator {
  import opened Wrappers
  import opened JsString
  import opened Unicode
  import opened PercentEncoding
  import opened JsNumber
  import opened FormUrlencoded
  import opened ImageTypes

  /** "https://image.pollinations.ai/prompt/" */
  const ServicePrefix: JsStr := [
    0x68, 0x74, 0x74, 0x70, 0x73, 0x3A, 0x2F, 0x2F, 0x69, 0x6D, 0x61, 0x67, 0x65, 0x2E, 0x70, 0x6F,
    0x6C, 0x6C, 0x69, 0x6E, 0x61, 0x74, 0x69, 0x6F, 0x6E, 0x73, 0x2E, 0x61, 0x69, 0x2F, 0x70, 0x72,
    0x6F, 0x6D, 0x70, 0x74, 0x2F]

  /** The query's names "nologo", "enhance", "size", "quality", "seed" and the flag value "true". */
  const NologoKey: JsStr := [0x6E, 0x6F, 0x6C, 0x6F, 0x67, 0x6F]
  const EnhanceKey: JsStr := [0x65, 0x6E, 0x68, 0x61, 0x6E, 0x63, 0x65]
  const SizeKey: JsStr := [0x73, 0x69, 0x7A, 0x65]
  const QualityKey: JsStr := [0x71, 0x75, 0x61, 0x6C, 0x69, 0x74, 0x79]
  const SeedKey: JsStr := [0x73, 0x65, 0x65, 0x64]
  const TrueValue: JsStr := [0x74, 0x72, 0x75, 0x65]

  const HistoryCap := 50
  const SavedPromptsCap := 100

  function Min(a: int, b: int): int { if a <= b then a else b }

  predicate NoDuplicates<T(==)>(s: seq<T>) {
    forall i, j | 0 <= i < j < |s| :: s[i] != s[j]
  }

  /** `[x, ...xs].slice(0, cap)` */
  function Prepend<T>(x: T, xs: seq<T>, cap: nat): (r: seq<T>)
    requires cap >= 1
    ensures |r| == Min(|xs| + 1, cap)
    ensures r[0] == x && r[1..] == xs[..|r| - 1]
  {
    ([x] + xs)[..Min(|xs| + 1, cap)]
  }

  // ---------------------------------------------------------------- the URL

  /** The pairs the pipeline appends, in order: the two optional flags, then size, quality and seed. */
  function QueryPairs(p: ImageParams): seq<Pair> {
    QueryOf(p.nologo, p.enhance, p.size, p.quality, ToDecimal(p.seed))
  }

  function QueryOf(nologo: bool, enhance: bool, size: JsStr, quality: JsStr, seed: JsStr): seq<Pair> {
    (if nologo then [(NologoKey, TrueValue)] else []) +
    (if enhance then [(EnhanceKey, TrueValue)] else []) +
    [(SizeKey, size), (QualityKey, quality), (SeedKey, seed)]
  }

  /** `https://image.pollinations.ai/prompt/{encodeURIComponent(model + ":" + prompt)}?{query}`; Err where encodeURIComponent throws. */
  function Url(p: ImageParams, prompt: JsStr): Result<JsStr, UriError> {
    match EncodeUriComponent(ModelName(p.model) + [Colon] + prompt)
    case Err(e) => Err(e)
    case Ok(path) => Ok(ServicePrefix + path + [QuestionMark] + Serialize(QueryPairs(p)))
  }

  /** The receiving side: model, prompt and query pairs read back from a URL. */
  function ReadUrl(url: JsStr): Option<(ImageModel, JsStr, seq<Pair>)> {
    if |url| < |ServicePrefix| || url[..|ServicePrefix|] != ServicePrefix then None
    else
      var rest := url[|ServicePrefix|..];
      match IndexOf(rest, QuestionMark)
      case None => None
      case Some(q) => ReadRequest(rest[..q], rest[q + 1..])
  }

  /** The path segment decoded and split at its first `:` into model and prompt; the query parsed. */
  function ReadRequest(path: JsStr, query: JsStr): Option<(ImageModel, JsStr, seq<Pair>)> {
    match DecodeUriComponent(path)
    case Err(_) => None
    case Ok(plain) =>
      match IndexOf(plain, Colon)
      case None => None
      case Some(c) =>
        match (ParseModel(plain[..c]), Parse(query))
        case (Some(m), Some(pairs)) => Some((m, plain[c + 1..], pairs))
        case _ => None
  }

  /** The value of the first pair with the given name. */
  function Lookup(pairs: seq<Pair>, name: JsStr): (r: Option<JsStr>)
    ensures r.Some? ==> exists i | 0 <= i < |pairs| :: pairs[i] == (name, r.value)
  {
    if pairs == [] then None
    else if pairs[0].0 == name then Some(pairs[0].1)
    else Lookup(pairs[1..], name)
  }

  function Names(pairs: seq<Pair>): (r: seq<JsStr>)
    ensures |r| == |pairs| && forall i | 0 <= i < |pairs| :: r[i] == pairs[i].0
  {
    if pairs == [] then [] else [pairs[0].0] + Names(pairs[1..])
  }

  lemma KeysDistinct()
    ensures NologoKey != EnhanceKey && NologoKey != SizeKey && NologoKey != QualityKey && NologoKey != SeedKey
    ensures EnhanceKey != SizeKey && EnhanceKey != QualityKey && EnhanceKey != SeedKey
    ensures SizeKey != QualityKey && SizeKey != SeedKey && QualityKey != SeedKey
  {
    assert NologoKey[0] == 0x6E && EnhanceKey[0] == 0x65 && QualityKey[0] == 0x71;
    assert SizeKey[0] == 0x73 && SeedKey[0] == 0x73 && SizeKey[1] == 0x69 && SeedKey[1] == 0x65;
  }

  lemma {:induction false} LookupAppend(a: seq<Pair>, b: seq<Pair>, name: JsStr)
    ensures Lookup(a + b, name) == if Lookup(a, name).Some? then Lookup(a, name) else Lookup(b, name)
  {
    if a != [] {
      assert (a + b)[1..] == a[1..] + b;
      LookupAppend(a[1..], b, name);
    } else {
      assert a + b == b;
    }
  }

  lemma {:induction false} NamesAppend(a: seq<Pair>, b: seq<Pair>)
    ensures Names(a + b) == Names(a) + Names(b)
  {
    if a != [] {
      assert (a + b)[1..] == a[1..] + b;
      NamesAppend(a[1..], b);
    } else {
      assert a + b == b;
    }
  }

  lemma QueryOfContents(nologo: bool, enhance: bool, size: JsStr, quality: JsStr, seed: JsStr)
    ensures var q := QueryOf(nologo, enhance, size, quality, seed);
            && Names(q) == (if nologo then [NologoKey] else []) + (if enhance then [EnhanceKey] else [])
                           + [SizeKey, QualityKey, SeedKey]
            && Lookup(q, NologoKey) == (if nologo then Some(TrueValue) else None)
            && Lookup(q, EnhanceKey) == (if enhance then Some(TrueValue) else None)
            && Lookup(q, SizeKey) == Some(size)
            && Lookup(q, QualityKey) == Some(quality)
            && Lookup(q, SeedKey) == Some(seed)
  {
    QueryOfNames(nologo, enhance, size, quality, seed);
    QueryOfFlagLookups(nologo, enhance, size, quality, seed);
    QueryOfTailLookups(nologo, enhance, size, quality, seed);
  }

  lemma QueryOfNames(nologo: bool, enhance: bool, size: JsStr, quality: JsStr, seed: JsStr)
    ensures Names(QueryOf(nologo, enhance, size, quality, seed))
         == (if nologo then [NologoKey] else []) + (if enhance then [EnhanceKey] else []) + [SizeKey, QualityKey, SeedKey]
  {
    var flags: seq<Pair> := (if nologo then [(NologoKey, TrueValue)] else []) + (if enhance then [(EnhanceKey, TrueValue)] else []);
    var tail := [(SizeKey, size), (QualityKey, quality), (SeedKey, seed)];
    FlagPairs(nologo, enhance);
    TailPairs(size, quality, seed);
    NamesAppend(flags, tail);
  }

  lemma QueryOfFlagLookups(nologo: bool, enhance: bool, size: JsStr, quality: JsStr, seed: JsStr)
    ensures var q := QueryOf(nologo, enhance, size, quality, seed);
            && Lookup(q, NologoKey) == (if nologo then Some(TrueValue) else None)
            && Lookup(q, EnhanceKey) == (if enhance then Some(TrueValue) else None)
  {
    var flags: seq<Pair> := (if nologo then [(NologoKey, TrueValue)] else []) + (if enhance then [(EnhanceKey, TrueValue)] else []);
    var tail := [(SizeKey, size), (QualityKey, quality), (SeedKey, seed)];
    FlagPairs(nologo, enhance);
    KeysDistinct();
    assert Lookup(tail, NologoKey).None? && Lookup(tail, EnhanceKey).None? by {
      assert Lookup(tail[2..], NologoKey).None? && Lookup(tail[2..], EnhanceKey).None?;
      assert Lookup(tail[1..], NologoKey).None? && Lookup(tail[1..], EnhanceKey).None?;
    }
    LookupAppend(flags, tail, NologoKey);
    LookupAppend(flags, tail, EnhanceKey);
  }

  lemma QueryOfTailLookups(nologo: bool, enhance: bool, size: JsStr, quality: JsStr, seed: JsStr)
    ensures var q := QueryOf(nologo, enhance, size, quality, seed);
            && Lookup(q, SizeKey) == Some(size)
            && Lookup(q, QualityKey) == Some(quality)
            && Lookup(q, SeedKey) == Some(seed)
  {
    var flags: seq<Pair> := (if nologo then [(NologoKey, TrueValue)] else []) + (if enhance then [(EnhanceKey, TrueValue)] else []);
    var tail := [(SizeKey, size), (QualityKey, quality), (SeedKey, seed)];
    FlagPairs(nologo, enhance);
    TailPairs(size, quality, seed);
    LookupAppend(flags, tail, SizeKey);
    LookupAppend(flags, tail, QualityKey);
    LookupAppend(flags, tail, SeedKey);
  }

  lemma FlagPairs(nologo: bool, enhance: bool)
    ensures var flags: seq<Pair> := (if nologo then [(NologoKey, TrueValue)] else []) + (if enhance then [(EnhanceKey, TrueValue)] else []);
            && Names(flags) == (if nologo then [NologoKey] else []) + (if enhance then [EnhanceKey] else [])
            && Lookup(flags, NologoKey) == (if nologo then Some(TrueValue) else None)
            && Lookup(flags, EnhanceKey) == (if enhance then Some(TrueValue) else None)
            && Lookup(flags, SizeKey).None? && Lookup(flags, QualityKey).None? && Lookup(flags, SeedKey).None?
  {
    KeysDistinct();
  }

  lemma TailPairs(size: JsStr, quality: JsStr, seed: JsStr)
    ensures var tail := [(SizeKey, size), (QualityKey, quality), (SeedKey, seed)];
            && Names(tail) == [SizeKey, QualityKey, SeedKey]
            && Lookup(tail, SizeKey) == Some(size)
            && Lookup(tail, QualityKey) == Some(quality)
            && Lookup(tail, SeedKey) == Some(seed)
  {
    KeysDistinct();
    var tail := [(SizeKey, size), (QualityKey, quality), (SeedKey, seed)];
    assert Lookup(tail[2..], SeedKey) == Some(seed);
    assert Lookup(tail[1..], SeedKey) == Some(seed);
  }

  lemma NoDuplicatesCons<T>(x: T, xs: seq<T>)
    requires x !in xs && NoDuplicates(xs)
    ensures NoDuplicates([x] + xs)
  {
    var s := [x] + xs;
    forall i, j | 0 <= i < j < |s|
      ensures s[i] != s[j]
    {
      assert s[j] == xs[j - 1];
      if i > 0 {
        assert s[i] == xs[i - 1];
      }
    }
  }

  lemma TailKeysDistinct()
    ensures NoDuplicates([SizeKey, QualityKey, SeedKey])
  {
    KeysDistinct();
    NoDuplicatesCons(QualityKey, [SeedKey]);
    assert [QualityKey] + [SeedKey] == [QualityKey, SeedKey];
    NoDuplicatesCons(SizeKey, [QualityKey, SeedKey]);
    assert [SizeKey] + [QualityKey, SeedKey] == [SizeKey, QualityKey, SeedKey];
  }

  /** The fixed key order names no key twice, whichever flags are present. */
  lemma KeyOrderDistinct(nologo: bool, enhance: bool)
    ensures NoDuplicates((if nologo then [NologoKey] else []) + (if enhance then [EnhanceKey] else [])
                         + [SizeKey, QualityKey, SeedKey])
  {
    var tail := [SizeKey, QualityKey, SeedKey];
    var withEnhance := (if enhance then [EnhanceKey] else []) + tail;
    assert NoDuplicates(withEnhance) && NologoKey !in withEnhance by {
      KeysDistinct();
      TailKeysDistinct();
      if enhance {
        NoDuplicatesCons(EnhanceKey, tail);
      } else {
        assert withEnhance == tail;
      }
    }
    if nologo {
      NoDuplicatesCons(NologoKey, withEnhance);
      assert [NologoKey] + withEnhance == [NologoKey] + (if enhance then [EnhanceKey] else []) + tail;
    } else {
      assert [] + (if enhance then [EnhanceKey] else []) + tail == withEnhance;
    }
  }

  /**
   * The query names each key at most once, in the fixed order nologo,
   * enhance, size, quality, seed; `nologo=true` appears iff nologo is set,
   * `enhance=true` iff enhance is set, and size, quality and seed always,
   * the seed as a decimal that parseInt reads back.
   */
  lemma QueryContents(p: ImageParams)
    ensures Names(QueryPairs(p)) == (if p.nologo then [NologoKey] else []) + (if p.enhance then [EnhanceKey] else [])
                                  + [SizeKey, QualityKey, SeedKey]
    ensures NoDuplicates(Names(QueryPairs(p)))
    ensures Lookup(QueryPairs(p), NologoKey) == (if p.nologo then Some(TrueValue) else None)
    ensures Lookup(QueryPairs(p), EnhanceKey) == (if p.enhance then Some(TrueValue) else None)
    ensures Lookup(QueryPairs(p), SizeKey) == Some(p.size)
    ensures Lookup(QueryPairs(p), QualityKey) == Some(p.quality)
    ensures Lookup(QueryPairs(p), SeedKey) == Some(ToDecimal(p.seed))
    ensures ParseInt(ToDecimal(p.seed), 10) == Some(p.seed)
  {
    QueryOfContents(p.nologo, p.enhance, p.size, p.quality, ToDecimal(p.seed));
    ParseIntOfDecimal(p.seed, 10);
    KeyOrderDistinct(p.nologo, p.enhance);
  }

  /** A model name followed by `:` is ASCII, so the joined string is well formed iff the prompt is. */
  lemma PathWellFormed(m: ImageModel, prompt: JsStr)
    ensures WellFormed(ModelName(m) + [Colon] + prompt) <==> WellFormed(prompt)
  {
    ModelNameLetters(m);
    var lead := ModelName(m) + [Colon];
    assert lead + prompt == ModelName(m) + [Colon] + prompt;
    ScalarsOfAsciiPrefix(lead, prompt);
  }

  /** A URL splits after the prefix at its first `?`, which no encoded path segment holds. */
  lemma ReadUrlSplits(path: JsStr, query: JsStr)
    requires QuestionMark !in path
    ensures ReadUrl(ServicePrefix + path + [QuestionMark] + query) == ReadRequest(path, query)
  {
    var url := ServicePrefix + path + [QuestionMark] + query;
    assert url[..|ServicePrefix|] == ServicePrefix;
    assert url[|ServicePrefix|..] == path + [QuestionMark] + query;
    IndexOfConcat(path, QuestionMark, query);
  }

  /** The encoded path segment decodes to the model name, `:` and the prompt. */
  lemma ReadRequestOf(m: ImageModel, prompt: JsStr, query: JsStr)
    requires WellFormed(prompt)
    ensures EncodeUriComponent(ModelName(m) + [Colon] + prompt).Ok?
    ensures var path := EncodeUriComponent(ModelName(m) + [Colon] + prompt).value;
            && QuestionMark !in path
            && ReadRequest(path, query) == match Parse(query)
                                           case None => None
                                           case Some(pairs) => Some((m, prompt, pairs))
  {
    var plain := ModelName(m) + [Colon] + prompt;
    PathWellFormed(m, prompt);
    UriComponentRoundTrip(plain);
    DelimitersNotEncoded(Component);
    var path := EncodeUriComponent(plain).value;
    forall i | 0 <= i < |path|
      ensures path[i] != QuestionMark
    {
      assert EncodedUnit(Component, path[i]);
    }
    ModelNameLetters(m);
    ModelNameRoundTrip(m);
    IndexOfConcat(ModelName(m), Colon, prompt);
  }

  /**
   * The URL exists iff the prompt is well formed, and then decoding its path
   * segment and splitting at the first `:` gives back the model and the
   * prompt, and its query parses to the query pairs.
   */
  lemma UrlRoundTrip(p: ImageParams, prompt: JsStr)
    ensures Url(p, prompt).Ok? <==> WellFormed(prompt)
    ensures Url(p, prompt).Ok? ==>
              ReadUrl(Url(p, prompt).value) == Some((p.model, prompt, NormalizeAll(QueryPairs(p))))
  {
    var plain := ModelName(p.model) + [Colon] + prompt;
    PathWellFormed(p.model, prompt);
    EncodeUriComponentFails(plain);
    if WellFormed(prompt) {
      var query := Serialize(QueryPairs(p));
      ReadRequestOf(p.model, prompt, query);
      ReadUrlSplits(EncodeUriComponent(plain).value, query);
      ParseSerialize(QueryPairs(p));
    }
  }

  // ---------------------------------------------------------------- the state

  /** A snapshot of the component's state. */
  datatype GeneratorState = GeneratorState(
    prompt: JsStr,
    isGenerating: bool,
    currentImage: Option<JsStr>,
    currentParams: ImageParams,
    history: seq<ImageHistory>,
    savedPrompts: seq<JsStr>)

  /** The state on first render: flux, no logo, enhance, 1024x1792, hd, a random seed; empty stores. */
  function Initial(seed: int): GeneratorState {
    GeneratorState([], false, None, ImageParams(Flux, true, true, PortraitSize, HdQuality, seed), [], [])
  }

  /** The early return: an empty prompt on a plain generate, or a generation already running. */
  predicate Blocked(g: GeneratorState, regenerate: bool) {
    (g.prompt == [] && !regenerate) || g.isGenerating
  }

  /** The parameters a generation uses: the current ones, with the new seed on a regenerate. */
  function WorkingParams(g: GeneratorState, regenerate: bool, newSeed: int): ImageParams {
    if regenerate then g.currentParams.(seed := newSeed) else g.currentParams
  }

  /** The saved prompts after a generation: the prompt in front when it is non-empty and new. */
  function SavePrompt(saved: seq<JsStr>, prompt: JsStr): seq<JsStr> {
    if prompt != [] && prompt !in saved then Prepend(prompt, saved, SavedPromptsCap) else saved
  }

  /**
   * `generateImage(regenerate)` as one step. `newSeed` is what
   * generateRandomSeed returns, `now` what Date.now() returns and
   * `timestamp` the ISO time stamp.
   */
  function Generate(g: GeneratorState, regenerate: bool, newSeed: int, now: nat, timestamp: JsStr): GeneratorState {
    if Blocked(g, regenerate) then g
    else
      var working := WorkingParams(g, regenerate, newSeed);
      match Url(working, g.prompt)
      case Err(_) => g
      case Ok(url) =>
        var item := ImageHistory(ToDecimal(now), g.prompt, url, working, timestamp);
        g.(currentImage := Some(url),
           currentParams := if regenerate then working else g.currentParams,
           history := Prepend(item, g.history, HistoryCap),
           savedPrompts := SavePrompt(g.savedPrompts, g.prompt))
  }

  /** `handleParamsChange(update)` */
  function ParamsChange(g: GeneratorState, update: PartialParams): GeneratorState {
    g.(currentParams := Merge(g.currentParams, update))
  }

  /** `handleSelectHistory(item)` */
  function SelectHistory(g: GeneratorState, item: ImageHistory): GeneratorState {
    g.(prompt := item.prompt, currentParams := item.params, currentImage := Some(item.imageUrl))
  }

  // ---------------------------------------------------------------- properties

  /** A blocked call changes nothing at all. */
  lemma GenerateBlocked(g: GeneratorState, regenerate: bool, newSeed: int, now: nat, timestamp: JsStr)
    requires Blocked(g, regenerate)
    ensures Generate(g, regenerate, newSeed, now, timestamp) == g
  {
  }

  /**
   * The busy flag is never left raised: every path that sets it clears it
   * again, and a thrown encoding error changes nothing else.
   */
  lemma GenerateFlag(g: GeneratorState, regenerate: bool, newSeed: int, now: nat, timestamp: JsStr)
    ensures Generate(g, regenerate, newSeed, now, timestamp).isGenerating == g.isGenerating
    ensures !Blocked(g, regenerate) ==> !Generate(g, regenerate, newSeed, now, timestamp).isGenerating
    ensures !WellFormed(g.prompt) ==> Generate(g, regenerate, newSeed, now, timestamp) == g
  {
    UrlRoundTrip(WorkingParams(g, regenerate, newSeed), g.prompt);
  }

  /**
   * A generation that gets through shows a URL from which the service reads
   * the model, the prompt and the working parameters back; a plain generate
   * keeps the parameters and a regenerate changes the seed and nothing else.
   */
  lemma GenerateUrl(g: GeneratorState, regenerate: bool, newSeed: int, now: nat, timestamp: JsStr)
    requires !Blocked(g, regenerate) && WellFormed(g.prompt)
    ensures var r := Generate(g, regenerate, newSeed, now, timestamp);
            var working := WorkingParams(g, regenerate, newSeed);
            && r.prompt == g.prompt
            && r.currentImage.Some?
            && ReadUrl(r.currentImage.value) == Some((working.model, g.prompt, NormalizeAll(QueryPairs(working))))
            && r.currentParams == working
            && r.currentParams.seed == (if regenerate then newSeed else g.currentParams.seed)
            && r.currentParams.(seed := g.currentParams.seed) == g.currentParams
  {
    UrlRoundTrip(WorkingParams(g, regenerate, newSeed), g.prompt);
  }

  /**
   * The history gains the new entry in front, holding the shown URL and a
   * copy of the working parameters; it is cut to 50, so a full history
   * loses its oldest entry, and a history of at most 50 stays so.
   */
  lemma GenerateHistory(g: GeneratorState, regenerate: bool, newSeed: int, now: nat, timestamp: JsStr)
    requires !Blocked(g, regenerate) && WellFormed(g.prompt)
    ensures var r := Generate(g, regenerate, newSeed, now, timestamp);
            && |r.history| == Min(|g.history| + 1, HistoryCap)
            && r.currentImage.Some?
            && r.history[0] == ImageHistory(ToDecimal(now), g.prompt, r.currentImage.value, r.currentParams, timestamp)
            && r.history[1..] == g.history[..|r.history| - 1]
            && (|g.history| >= HistoryCap ==> r.history[1..] == g.history[..HistoryCap - 1])
            && (|g.history| <= HistoryCap ==> |r.history| <= HistoryCap)
  {
    UrlRoundTrip(WorkingParams(g, regenerate, newSeed), g.prompt);
  }

  /**
   * The saved prompts gain the prompt in front exactly when it is non-empty
   * and not yet saved, capped at 100; otherwise they are unchanged. A
   * duplicate-free list stays duplicate-free and a list of at most 100 stays so.
   */
  lemma SavePromptFacts(saved: seq<JsStr>, prompt: JsStr)
    ensures var r := SavePrompt(saved, prompt);
            && (prompt != [] ==> prompt in r)
            && (prompt == [] || prompt in saved ==> r == saved)
            && (prompt != [] && prompt !in saved ==> r[0] == prompt && r[1..] == saved[..|r| - 1])
            && (NoDuplicates(saved) ==> NoDuplicates(r))
            && (|saved| <= SavedPromptsCap ==> |r| <= SavedPromptsCap)
  {
    var r := SavePrompt(saved, prompt);
    if prompt != [] && prompt !in saved {
      assert r[0] == prompt;
      if NoDuplicates(saved) {
        forall i, j | 0 <= i < j < |r|
          ensures r[i] != r[j]
        {
          assert r[j] == saved[j - 1];
          if i > 0 {
            assert r[i] == saved[i - 1];
          }
        }
      }
    }
  }

  lemma GenerateSavedPrompts(g: GeneratorState, regenerate: bool, newSeed: int, now: nat, timestamp: JsStr)
    requires !Blocked(g, regenerate) && WellFormed(g.prompt)
    ensures Generate(g, regenerate, newSeed, now, timestamp).savedPrompts == SavePrompt(g.savedPrompts, g.prompt)
  {
    UrlRoundTrip(WorkingParams(g, regenerate, newSeed), g.prompt);
  }

  /** A history entry whose URL is the one its prompt and parameters build. */
  predicate Consistent(e: ImageHistory) {
    Url(e.params, e.prompt) == Ok(e.imageUrl)
  }

  predicate HistoryConsistent(g: GeneratorState) {
    forall i | 0 <= i < |g.history| :: Consistent(g.history[i])
  }

  /** Every entry a generation records is consistent, so the history stays consistent. */
  lemma GenerateKeepsHistoryConsistent(g: GeneratorState, regenerate: bool, newSeed: int, now: nat, timestamp: JsStr)
    requires HistoryConsistent(g)
    ensures HistoryConsistent(Generate(g, regenerate, newSeed, now, timestamp))
  {
    var r := Generate(g, regenerate, newSeed, now, timestamp);
    if !Blocked(g, regenerate) && WellFormed(g.prompt) {
      UrlRoundTrip(WorkingParams(g, regenerate, newSeed), g.prompt);
      GenerateHistory(g, regenerate, newSeed, now, timestamp);
      forall i | 0 <= i < |r.history|
        ensures Consistent(r.history[i])
      {
        if i > 0 {
          assert r.history[i] == r.history[1..][i - 1] == g.history[i - 1];
        }
      }
    } else {
      GenerateFlag(g, regenerate, newSeed, now, timestamp);
    }
  }

  /**
   * Picking a consistent history entry and generating again (not a
   * regenerate) rebuilds exactly the entry's URL with the entry's seed;
   * with a non-empty prompt the generation goes through and records an
   * entry with that URL and those parameters.
   */
  lemma ReplayHistory(h: GeneratorState, e: ImageHistory, now: nat, timestamp: JsStr)
    requires Consistent(e) && !h.isGenerating
    ensures var r := Generate(SelectHistory(h, e), false, 0, now, timestamp);
            && r.currentImage == Some(e.imageUrl) && r.currentParams == e.params && r.prompt == e.prompt
            && (e.prompt != [] ==>
                  && |r.history| >= 1
                  && r.history[0].imageUrl == e.imageUrl
                  && r.history[0].params == e.params
                  && r.history[0].prompt == e.prompt)
  {
    UrlRoundTrip(e.params, e.prompt);
    if e.prompt != [] {
      GenerateHistory(SelectHistory(h, e), false, 0, now, timestamp);
    }
  }

  /** A parameter change overwrites the supplied fields and touches nothing but the parameters. */
  lemma ParamsChangeFacts(g: GeneratorState, update: PartialParams)
    ensures ParamsChange(g, update).(currentParams := g.currentParams) == g
    ensures ParamsChange(g, NoChange) == g
    ensures ParamsChange(ParamsChange(g, update), update) == ParamsChange(g, update)
  {
    MergeLaws(g.currentParams, update);
  }

  // ---------------------------------------------------------------- the component

  /** The component: its state hooks as fields. */
  class ImageGenerator {
    var prompt: JsStr
    var isGenerating: bool
    var currentImage: Option<JsStr>
    var currentParams: ImageParams
    var history: seq<ImageHistory>
    var savedPrompts: seq<JsStr>

    function State(): GeneratorState
      reads this
    {
      GeneratorState(prompt, isGenerating, currentImage, currentParams, history, savedPrompts)
    }

    /** First render; `seed` is the value of generateRandomSeed(). */
    constructor(seed: int)
      ensures State() == Initial(seed)
    {
      prompt := [];
      isGenerating := false;
      currentImage := None;
      currentParams := ImageParams(Flux, true, true, PortraitSize, HdQuality, seed);
      history := [];
      savedPrompts := [];
    }

    /** The query string: a URLSearchParams object filled in the fixed order. */
    static method BuildQuery(working: ImageParams) returns (query: JsStr)
      ensures query == Serialize(QueryPairs(working))
      ensures Parse(query) == Some(NormalizeAll(QueryPairs(working)))
    {
      var params := new SearchParams();
      if working.nologo {
        params.Append(NologoKey, TrueValue);
      }
      if working.enhance {
        params.Append(EnhanceKey, TrueValue);
      }
      params.Append(SizeKey, working.size);
      params.Append(QualityKey, working.quality);
      params.Append(SeedKey, ToDecimal(working.seed));
      assert params.list == QueryPairs(working);
      query := params.ToString();
    }

    /** The query, then the encoded path segment; Err where encodeURIComponent throws. */
    static method BuildUrl(working: ImageParams, prompt: JsStr) returns (r: Result<JsStr, UriError>)
      ensures r == Url(working, prompt)
      ensures r.Ok? <==> WellFormed(prompt)
    {
      UrlRoundTrip(working, prompt);
      var query := BuildQuery(working);
      var encodedPrompt := EncodeUriComponent(ModelName(working.model) + [Colon] + prompt);
      if encodedPrompt.Err? {
        return Err(encodedPrompt.error);
      }
      r := Ok(ServicePrefix + encodedPrompt.value + [QuestionMark] + query);
    }

    /** `generateImage(regenerate)` */
    method GenerateImage(regenerate: bool, newSeed: int, now: nat, timestamp: JsStr)
      modifies this
      ensures State() == Generate(old(State()), regenerate, newSeed, now, timestamp)
    {
      if (prompt == [] && !regenerate) || isGenerating {
        return;
      }
      isGenerating := true;
      var workingParams := currentParams;
      if regenerate {
        workingParams := workingParams.(seed := newSeed);
      }
      var built := BuildUrl(workingParams, prompt);
      if built.Err? {
        // the URIError is caught and logged; `finally` clears the flag
        isGenerating := false;
        return;
      }
      var imageUrl := built.value;
      currentImage := Some(imageUrl);
      if regenerate {
        currentParams := workingParams;
      }
      var newHistoryItem := ImageHistory(ToDecimal(now), prompt, imageUrl, workingParams, timestamp);
      history := Prepend(newHistoryItem, history, HistoryCap);
      if prompt != [] && prompt !in savedPrompts {
        savedPrompts := Prepend(prompt, savedPrompts, SavedPromptsCap);
      }
      isGenerating := false;
    }

    /** `handlePromptSubmit(inputPrompt)`: the argument is ignored; the state's prompt is used. */
    method HandlePromptSubmit(inputPrompt: JsStr, now: nat, timestamp: JsStr)
      modifies this
      ensures State() == Generate(old(State()), false, old(currentParams.seed), now, timestamp)
    {
      GenerateImage(false, currentParams.seed, now, timestamp);
    }

    /** `handleRegenerate()`; `newSeed` is the value of generateRandomSeed(). */
    method HandleRegenerate(newSeed: int, now: nat, timestamp: JsStr)
      modifies this
      ensures State() == Generate(old(State()), true, newSeed, now, timestamp)
    {
      GenerateImage(true, newSeed, now, timestamp);
    }

    /** `handleParamsChange(update)` */
    method HandleParamsChange(update: PartialParams)
      modifies this
      ensures State() == ParamsChange(old(State()), update)
    {
      currentParams := Merge(currentParams, update);
    }

    /** `handleSelectHistory(item)` */
    method HandleSelectHistory(item: ImageHistory)
      modifies this
      ensures State() == SelectHistory(old(State()), item)
    {
      prompt := item.prompt;
      currentParams := item.params;
      currentImage := Some(item.imageUrl);
    }

    /** `handleSelectSavedPrompt(savedPrompt)`, also the suggestion panel's callback. */
    method HandleSelectSavedPrompt(savedPrompt: JsStr)
      modifies this
      ensures State() == old(State()).(prompt := savedPrompt)
    {
      prompt := savedPrompt;
    }

    /** `setPrompt`, the prompt input's change callback. */
    method SetPrompt(newPrompt: JsStr)
      modifies this
      ensures State() == old(State()).(prompt := newPrompt)
    {
      prompt := newPrompt;
    }
  }
}
