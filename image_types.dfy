/**
 * The records the image generator passes around: the model choice, the
 * generation parameters, a history entry, and the partial parameter
 * update that the controls emit.
 */
module ImageTypes {
  import opened Wrappers
  import opened JsString

  /** The three image models; nothing else inhabits the type. */
  datatype ImageModel = Flux | Turbo | GptImage

  /** The string each model is written as: "flux", "turbo", "gptimage". */
  function ModelName(m: ImageModel): JsStr {
    match m
    case Flux => [0x66, 0x6C, 0x75, 0x78]
    case Turbo => [0x74, 0x75, 0x72, 0x62, 0x6F]
    case GptImage => [0x67, 0x70, 0x74, 0x69, 0x6D, 0x61, 0x67, 0x65]
  }

  /** The model a name denotes, if any: the inverse of ModelName. */
  function ParseModel(name: JsStr): (r: Option<ImageModel>)
    ensures r.Some? ==> ModelName(r.value) == name
  {
    if name == ModelName(Flux) then Some(Flux)
    else if name == ModelName(Turbo) then Some(Turbo)
    else if name == ModelName(GptImage) then Some(GptImage)
    else None
  }

  predicate IsAsciiLowerLetter(u: int) { 0x61 <= u <= 0x7A }

  /** Every model name is a non-empty run of ASCII lower-case letters, so it holds no ':'. */
  lemma ModelNameLetters(m: ImageModel)
    ensures ModelName(m) != []
    ensures forall i | 0 <= i < |ModelName(m)| :: IsAsciiLowerLetter(ModelName(m)[i])
    ensures Colon !in ModelName(m)
  {
    var name := ModelName(m);
    forall i | 0 <= i < |name|
      ensures IsAsciiLowerLetter(name[i])
    {
    }
  }

  /** Distinct models have distinct names, and ParseModel reads each name back. */
  lemma ModelNameRoundTrip(m: ImageModel)
    ensures ParseModel(ModelName(m)) == Some(m)
    ensures forall m' :: ModelName(m') == ModelName(m) ==> m' == m
  {
    assert ModelName(Flux)[0] == 0x66 && ModelName(Turbo)[0] == 0x74 && ModelName(GptImage)[0] == 0x67;
  }

  /**
   * The generation parameters. `size` and `quality` are free strings (no
   * `WxH` or enumeration constraint), `seed` an integer of either sign.
   */
  datatype ImageParams = ImageParams(
    model: ImageModel, nologo: bool, enhance: bool, size: JsStr, quality: JsStr, seed: int)

  /** The sizes the app names: "1024x1792", "1024x1024", "1792x1024". */
  const PortraitSize: JsStr := [0x31, 0x30, 0x32, 0x34, 0x78, 0x31, 0x37, 0x39, 0x32]
  const SquareSize: JsStr := [0x31, 0x30, 0x32, 0x34, 0x78, 0x31, 0x30, 0x32, 0x34]
  const LandscapeSize: JsStr := [0x31, 0x37, 0x39, 0x32, 0x78, 0x31, 0x30, 0x32, 0x34]

  /** The qualities the app names: "standard", "hd", "best". */
  const StandardQuality: JsStr := [0x73, 0x74, 0x61, 0x6E, 0x64, 0x61, 0x72, 0x64]
  const HdQuality: JsStr := [0x68, 0x64]
  const BestQuality: JsStr := [0x62, 0x65, 0x73, 0x74]

  /** A history entry: a full parameter snapshot beside id, prompt, URL and time stamp. */
  datatype ImageHistory = ImageHistory(
    id: JsStr, prompt: JsStr, imageUrl: JsStr, params: ImageParams, timestamp: JsStr)

  /** `Partial<ImageParams>`: None is an absent key. */
  datatype PartialParams = PartialParams(
    model: Option<ImageModel>, nologo: Option<bool>, enhance: Option<bool>,
    size: Option<JsStr>, quality: Option<JsStr>, seed: Option<int>)

  const NoChange := PartialParams(None, None, None, None, None, None)

  /** `{ ...prev, ...update }`: each supplied field overwrites, every other keeps its value. */
  function Merge(prev: ImageParams, update: PartialParams): ImageParams {
    ImageParams(
      if update.model.Some? then update.model.value else prev.model,
      if update.nologo.Some? then update.nologo.value else prev.nologo,
      if update.enhance.Some? then update.enhance.value else prev.enhance,
      if update.size.Some? then update.size.value else prev.size,
      if update.quality.Some? then update.quality.value else prev.quality,
      if update.seed.Some? then update.seed.value else prev.seed)
  }

  /** Merging an empty update changes nothing; merging the same update twice is merging it once. */
  lemma MergeLaws(prev: ImageParams, update: PartialParams)
    ensures Merge(prev, NoChange) == prev
    ensures Merge(Merge(prev, update), update) == Merge(prev, update)
  {
  }

  /** A later update wins over an earlier one field by field. */
  function Then(first: PartialParams, second: PartialParams): PartialParams {
    PartialParams(
      if second.model.Some? then second.model else first.model,
      if second.nologo.Some? then second.nologo else first.nologo,
      if second.enhance.Some? then second.enhance else first.enhance,
      if second.size.Some? then second.size else first.size,
      if second.quality.Some? then second.quality else first.quality,
      if second.seed.Some? then second.seed else first.seed)
  }

  /** Two successive merges are one merge of the combined update. */
  lemma MergeCompose(prev: ImageParams, first: PartialParams, second: PartialParams)
    ensures Merge(Merge(prev, first), second) == Merge(prev, Then(first, second))
  {
  }

  /** The number of fields an update supplies. */
  function Supplied(update: PartialParams): (n: nat)
    ensures n <= 6
  {
    (if update.model.Some? then 1 else 0) + (if update.nologo.Some? then 1 else 0) +
    (if update.enhance.Some? then 1 else 0) + (if update.size.Some? then 1 else 0) +
    (if update.quality.Some? then 1 else 0) + (if update.seed.Some? then 1 else 0)
  }
}
