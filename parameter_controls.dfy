/**
 * The parameter panel (components/parameter-controls.tsx). Every control
 * reports a one-field update to the parent. The size control also keeps
 * local state: whether "Custom" is selected and the two text fields, kept
 * in step with the parent's size by two effects.
 */
module ParameterControls {
  import opened Wrappers
  import opened JsString
  import opened JsNumber
  import opened ImageTypes

  const PredefinedSizes: seq<JsStr> := [PortraitSize, SquareSize, LandscapeSize]

  predicate IsPreset(size: JsStr) {
    size in PredefinedSizes
  }

  /** "custom", the size select's last item. */
  const CustomValue: JsStr := [0x63, 0x75, 0x73, 0x74, 0x6F, 0x6D]

  /** "1024", what both fields get when Custom is picked from a preset. */
  const DefaultSide: JsStr := [0x31, 0x30, 0x32, 0x34]

  /** The size control's local state; a field is None when `split("x")` had no such piece. */
  datatype ControlsState = ControlsState(isCustomMode: bool, customWidth: Option<JsStr>, customHeight: Option<JsStr>)

  /** The `useState` initialisers, from the size the panel is first given. */
  function Initial(size: JsStr): ControlsState {
    ControlsState(!IsPreset(size), SplitPart(size, LowerX, 0), SplitPart(size, LowerX, 1))
  }

  /** The first effect, when the parent's size changes: custom mode follows the size, and a custom size fills the fields. */
  function Sync(c: ControlsState, size: JsStr): ControlsState {
    if IsPreset(size) then c.(isCustomMode := false)
    else ControlsState(true, SplitPart(size, LowerX, 0), SplitPart(size, LowerX, 1))
  }

  /** `${width}x${height}` for whole numbers below 10^21, whose text is their decimal digits. */
  function SizeText(width: int, height: int): JsStr {
    ToDecimal(width) + [LowerX] + ToDecimal(height)
  }

  /** The second effect: in custom mode, the size it reports when both fields parse as positive integers. */
  function Emit(c: ControlsState): Option<JsStr> {
    if !c.isCustomMode then None
    else
      match (ParseIntOrUndefined(c.customWidth, 10), ParseIntOrUndefined(c.customHeight, 10))
      case (Some(w), Some(h)) => if w > 0 && h > 0 then Some(SizeText(w, h)) else None
      case _ => None
  }

  /** `handleSizePresetChange(value)` given the parent's size: the new local state and the size reported, if any. */
  function PresetChange(c: ControlsState, value: JsStr, size: JsStr): (ControlsState, Option<JsStr>) {
    if value == CustomValue then
      (if IsPreset(size) then ControlsState(true, Some(DefaultSide), Some(DefaultSide)) else c.(isCustomMode := true), None)
    else
      (c.(isCustomMode := false), Some(value))
  }

  /** The one-field updates the controls report. */
  function SizeUpdate(size: JsStr): PartialParams { NoChange.(size := Some(size)) }
  function ModelUpdate(m: ImageModel): PartialParams { NoChange.(model := Some(m)) }
  function QualityUpdate(q: JsStr): PartialParams { NoChange.(quality := Some(q)) }
  function NologoUpdate(checked: bool): PartialParams { NoChange.(nologo := Some(checked)) }
  function EnhanceUpdate(checked: bool): PartialParams { NoChange.(enhance := Some(checked)) }
  /** Also `handleRandomSeed`, with the random seed as the argument. */
  function SeedUpdate(seed: int): PartialParams { NoChange.(seed := Some(seed)) }

  /** `handleSeedChange`: `Number.parseInt` without a radix; nothing is reported for NaN. */
  function SeedChange(value: JsStr): Option<PartialParams> {
    match ParseInt(value, 0)
    case Some(n) => Some(SeedUpdate(n))
    case None => None
  }

  /** The model select's items: "flux", "turbo", "gptimage". */
  const ModelOptions: seq<JsStr> := [ModelName(Flux), ModelName(Turbo), ModelName(GptImage)]

  /** The quality select's items. */
  const QualityOptions: seq<JsStr> := [StandardQuality, HdQuality, BestQuality]

  /** The three quality items are distinct, and the first state's "hd" is one of them. */
  lemma QualityOptionsFacts()
    ensures |QualityOptions| == 3
    ensures QualityOptions[0] != QualityOptions[1] && QualityOptions[0] != QualityOptions[2] && QualityOptions[1] != QualityOptions[2]
    ensures HdQuality in QualityOptions
  {
    assert |StandardQuality| == 8 && |HdQuality| == 2 && |BestQuality| == 4;
  }

  /** Each control supplies exactly its own field, so merging it changes that field and no other. */
  lemma SingleFieldUpdates(p: ImageParams, m: ImageModel, q: JsStr, b: bool, size: JsStr, seed: int)
    ensures Supplied(ModelUpdate(m)) == 1 && Merge(p, ModelUpdate(m)) == p.(model := m)
    ensures Supplied(QualityUpdate(q)) == 1 && Merge(p, QualityUpdate(q)) == p.(quality := q)
    ensures Supplied(NologoUpdate(b)) == 1 && Merge(p, NologoUpdate(b)) == p.(nologo := b)
    ensures Supplied(EnhanceUpdate(b)) == 1 && Merge(p, EnhanceUpdate(b)) == p.(enhance := b)
    ensures Supplied(SizeUpdate(size)) == 1 && Merge(p, SizeUpdate(size)) == p.(size := size)
    ensures Supplied(SeedUpdate(seed)) == 1 && Merge(p, SeedUpdate(seed)) == p.(seed := seed)
  {
  }

  /** Every model item names a model, so the unchecked `value as ImageModel` is one of the three. */
  lemma ModelOptionsAreModels()
    ensures forall v | v in ModelOptions :: ParseModel(v).Some? && ModelName(ParseModel(v).value) == v
    ensures forall m: ImageModel :: ModelName(m) in ModelOptions
  {
    ModelNameRoundTrip(Flux);
    ModelNameRoundTrip(Turbo);
    ModelNameRoundTrip(GptImage);
  }

  /** Neither the custom item nor "1024" is a preset size. */
  lemma MarkersNotPresets()
    ensures !IsPreset(CustomValue) && !IsPreset(DefaultSide)
  {
    assert |CustomValue| == 6 && |DefaultSide| == 4 && |PortraitSize| == |SquareSize| == |LandscapeSize| == 9;
  }

  /** "1024" is the decimal text of 1024. */
  lemma DefaultSideIsDecimal()
    ensures ToDecimal(1024) == DefaultSide
  {
    assert Digits(1) == [0x31];
    assert Digits(10) == [0x31, 0x30];
    assert Digits(102) == [0x31, 0x30, 0x32];
  }

  /** "1792" is the decimal text of 1792. */
  lemma LongSideIsDecimal()
    ensures ToDecimal(1792) == [0x31, 0x37, 0x39, 0x32]
  {
    assert Digits(1) == [0x31];
    assert Digits(17) == [0x31, 0x37];
    assert Digits(179) == [0x31, 0x37, 0x39];
  }

  /** The three presets are the sizes 1024x1792, 1024x1024 and 1792x1024 written as the custom fields would write them. */
  lemma PresetsAreSizeTexts()
    ensures PortraitSize == SizeText(1024, 1792)
    ensures SquareSize == SizeText(1024, 1024)
    ensures LandscapeSize == SizeText(1792, 1024)
  {
    DefaultSideIsDecimal();
    LongSideIsDecimal();
  }

  /** Decimal text holds no `x`. */
  lemma NoXInDecimal(n: int)
    ensures LowerX !in ToDecimal(n)
  {
    var m: nat := if n < 0 then -n else n;
    DigitsAreDecimal(m);
    var d := ToDecimal(n);
    forall i | 0 <= i < |d|
      ensures d[i] != LowerX
    {
      if n < 0 && i > 0 {
        assert d[i] == Digits(m)[i - 1];
      }
    }
  }

  /** A reported size splits at its one `x` back into the two fields' values, which parse back as the numbers. */
  lemma SizeTextRoundTrip(width: int, height: int)
    ensures Split(SizeText(width, height), LowerX) == [ToDecimal(width), ToDecimal(height)]
    ensures ParseInt(ToDecimal(width), 10) == Some(width) && ParseInt(ToDecimal(height), 10) == Some(height)
  {
    NoXInDecimal(width);
    NoXInDecimal(height);
    SplitConcat(ToDecimal(width), LowerX, ToDecimal(height));
    SplitNoSep(ToDecimal(height), LowerX);
    ParseIntOfDecimal(width, 10);
    ParseIntOfDecimal(height, 10);
  }

  /** Different sizes are reported as different texts. */
  lemma SizeTextInjective(w1: int, h1: int, w2: int, h2: int)
    requires SizeText(w1, h1) == SizeText(w2, h2)
    ensures w1 == w2 && h1 == h2
  {
    SizeTextRoundTrip(w1, h1);
    SizeTextRoundTrip(w2, h2);
  }

  /** A reported size is a preset exactly when it is one of the three preset pairs. */
  lemma SizeTextPreset(width: int, height: int)
    ensures IsPreset(SizeText(width, height)) <==>
              (width, height) in {(1024, 1792), (1024, 1024), (1792, 1024)}
  {
    PresetsAreSizeTexts();
    if SizeText(width, height) == PortraitSize {
      SizeTextInjective(width, height, 1024, 1792);
    } else if SizeText(width, height) == SquareSize {
      SizeTextInjective(width, height, 1024, 1024);
    } else if SizeText(width, height) == LandscapeSize {
      SizeTextInjective(width, height, 1792, 1024);
    }
  }

  /** Custom mode starts, and after every size change stays, set exactly when the size is not a preset. */
  lemma CustomModeFollowsSize(c: ControlsState, size: JsStr)
    ensures Initial(size).isCustomMode <==> !IsPreset(size)
    ensures Sync(c, size).isCustomMode <==> !IsPreset(size)
    ensures !IsPreset(size) ==> Sync(c, size) == Initial(size)
    ensures IsPreset(size) ==> Sync(c, size).customWidth == c.customWidth && Sync(c, size).customHeight == c.customHeight
    ensures Sync(Sync(c, size), size) == Sync(c, size)
  {
  }

  /**
   * A size is reported exactly in custom mode with two positive integer
   * fields, and it is those two numbers: parsing the reported text's halves
   * gives them back.
   */
  lemma EmitFacts(c: ControlsState)
    ensures Emit(c).Some? <==>
              c.isCustomMode &&
              ParseIntOrUndefined(c.customWidth, 10).Some? && ParseIntOrUndefined(c.customWidth, 10).value > 0 &&
              ParseIntOrUndefined(c.customHeight, 10).Some? && ParseIntOrUndefined(c.customHeight, 10).value > 0
    ensures Emit(c).Some? ==>
              var parts := Split(Emit(c).value, LowerX);
              |parts| == 2 &&
              ParseInt(parts[0], 10) == ParseIntOrUndefined(c.customWidth, 10) &&
              ParseInt(parts[1], 10) == ParseIntOrUndefined(c.customHeight, 10)
    ensures c.customHeight.None? ==> Emit(c).None?
  {
    UndefinedIsNaN(10);
    if Emit(c).Some? {
      SizeTextRoundTrip(ParseIntOrUndefined(c.customWidth, 10).value, ParseIntOrUndefined(c.customHeight, 10).value);
    }
  }

  /**
   * The two effects settle: once a custom size is reported and comes back
   * as the parent's size, the first effect fills the fields with its
   * halves and the second reports the same size again. A reported size
   * that is a preset ends custom mode instead, and nothing more is reported.
   */
  lemma EmitSyncSettles(c: ControlsState)
    requires Emit(c).Some?
    ensures var size := Emit(c).value;
            && (!IsPreset(size) ==> Sync(c, size).isCustomMode && Emit(Sync(c, size)) == Emit(c))
            && (IsPreset(size) ==> !Sync(c, size).isCustomMode && Emit(Sync(c, size)).None?)
  {
    var w := ParseIntOrUndefined(c.customWidth, 10).value;
    var h := ParseIntOrUndefined(c.customHeight, 10).value;
    UndefinedIsNaN(10);
    SizeTextRoundTrip(w, h);
  }

  /** Picking a preset leaves custom mode and reports that preset; picking Custom reports nothing. */
  lemma PresetChangeFacts(c: ControlsState, value: JsStr, size: JsStr)
    ensures var (next, reported) := PresetChange(c, value, size);
            && (next.isCustomMode <==> value == CustomValue)
            && (reported.Some? <==> value != CustomValue)
            && (reported.Some? ==> reported.value == value && Emit(next).None?)
            && (value == CustomValue && !IsPreset(size) ==> next == c.(isCustomMode := true))
  {
  }

  /**
   * Custom picked while a preset is showing: the fields become 1024 and
   * 1024, so the second effect reports the square preset. From Square
   * itself the report equals the current size, so the size does not change
   * and the first effect does not run again. From Portrait or Landscape
   * the report is a new size, the first effect runs, is shown the square
   * preset and leaves custom mode.
   */
  lemma CustomFromPreset(c: ControlsState, size: JsStr)
    requires IsPreset(size)
    ensures var next := PresetChange(c, CustomValue, size).0;
            && next.isCustomMode
            && Emit(next) == Some(SquareSize)
            && (size == SquareSize ==> Emit(next) == Some(size))
            && (size != SquareSize ==> Emit(next) != Some(size) && !Sync(next, SquareSize).isCustomMode)
  {
    var next := PresetChange(c, CustomValue, size).0;
    DefaultSideIsDecimal();
    ParseIntOfDecimal(1024, 10);
    PresetsAreSizeTexts();
    assert Emit(next) == Some(SizeText(1024, 1024));
  }

  /**
   * The first effect as it is evidently meant to behave: a size that custom
   * mode has itself just reported does not end custom mode, even when it
   * happens to be a preset.
   */
  function SyncKeepingCustom(c: ControlsState, size: JsStr): ControlsState {
    if c.isCustomMode && Emit(c) == Some(size) then c else Sync(c, size)
  }

  /**
   * With that effect, Custom picked from any preset stays selected with
   * 1024 by 1024 reported, every reported size settles in custom mode, and
   * any other size change behaves as before.
   */
  lemma SyncKeepingCustomFacts(c: ControlsState, size: JsStr)
    ensures IsPreset(size) ==>
              var next := PresetChange(c, CustomValue, size).0;
              SyncKeepingCustom(next, SquareSize).isCustomMode && Emit(SyncKeepingCustom(next, SquareSize)) == Some(SquareSize)
    ensures Emit(c).Some? ==>
              SyncKeepingCustom(c, Emit(c).value).isCustomMode && Emit(SyncKeepingCustom(c, Emit(c).value)) == Emit(c)
    ensures !(c.isCustomMode && Emit(c) == Some(size)) ==> SyncKeepingCustom(c, size) == Sync(c, size)
  {
    if IsPreset(size) {
      CustomFromPreset(c, size);
    }
  }

  /** The seed field accepts the decimal text of any integer, negative ones included. */
  lemma SeedChangeOfDecimal(n: int)
    ensures SeedChange(ToDecimal(n)) == Some(SeedUpdate(n))
  {
    ParseIntOfDecimal(n, 0);
  }

  /** `Number.parseInt` stops at the first non-digit, so trailing text after the digits is ignored. */
  lemma SeedChangeIgnoresTrailing(n: nat, rest: JsStr)
    requires rest == [] || !IsDecimalDigit(rest[0])
    requires !IsHexPrefix(Digits(n) + rest)
    ensures SeedChange(Digits(n) + rest) == Some(SeedUpdate(n))
  {
    DigitsAreDecimal(n);
    PositiveParse(Digits(n) + rest, 0);
    ParseUnsignedOfDigits(n, rest, 0);
  }

  /** A field whose text does not start with a digit (after white space and sign) reports nothing. */
  lemma SeedChangeNaN(value: JsStr)
    requires value != [] && DigitValue(value[0]) >= 10 && !IsWhiteSpace(value[0])
    requires value[0] != Minus && value[0] != PlusSign
    ensures SeedChange(value) == None
  {
    assert TrimStart(value) == value;
  }

  /** The size control as a component: its local state, changed by the handlers and the first effect. */
  class SizeControl {
    var isCustomMode: bool
    var customWidth: Option<JsStr>
    var customHeight: Option<JsStr>

    function State(): ControlsState
      reads this
    {
      ControlsState(isCustomMode, customWidth, customHeight)
    }

    constructor(size: JsStr)
      ensures State() == Initial(size)
    {
      isCustomMode := !IsPreset(size);
      customWidth := SplitPart(size, LowerX, 0);
      customHeight := SplitPart(size, LowerX, 1);
    }

    /** The first effect, run with the parent's new size. */
    method SyncSize(size: JsStr)
      modifies this
      ensures State() == Sync(old(State()), size)
    {
      var isCustom := !IsPreset(size);
      isCustomMode := isCustom;
      if isCustom {
        var parts := Split(size, LowerX);
        customWidth := Some(parts[0]);
        customHeight := if |parts| > 1 then Some(parts[1]) else None;
      }
    }

    /** The second effect: the update passed to `onParamsChange`, if it is called. */
    method ReportCustomSize() returns (update: Option<PartialParams>)
      ensures update.Some? <==> Emit(State()).Some?
      ensures update.Some? ==> update.value == SizeUpdate(Emit(State()).value)
    {
      update := None;
      if isCustomMode {
        var width := ParseIntOrUndefined(customWidth, 10);
        var height := ParseIntOrUndefined(customHeight, 10);
        if width.Some? && height.Some? && width.value > 0 && height.value > 0 {
          update := Some(SizeUpdate(SizeText(width.value, height.value)));
        }
      }
    }

    /** The width field's `onChange`. */
    method SetCustomWidth(value: JsStr)
      modifies this
      ensures State() == old(State()).(customWidth := Some(value))
    {
      customWidth := Some(value);
    }

    /** The height field's `onChange`. */
    method SetCustomHeight(value: JsStr)
      modifies this
      ensures State() == old(State()).(customHeight := Some(value))
    {
      customHeight := Some(value);
    }

    /** `handleSizePresetChange(value)`, given the parent's size. */
    method HandleSizePresetChange(value: JsStr, size: JsStr) returns (update: Option<PartialParams>)
      modifies this
      ensures State() == PresetChange(old(State()), value, size).0
      ensures var reported := PresetChange(old(State()), value, size).1;
              update == if reported.Some? then Some(SizeUpdate(reported.value)) else None
    {
      if value == CustomValue {
        isCustomMode := true;
        if size in PredefinedSizes {
          customWidth := Some(DefaultSide);
          customHeight := Some(DefaultSide);
        }
        update := None;
      } else {
        isCustomMode := false;
        update := Some(SizeUpdate(value));
      }
    }
  }
}
