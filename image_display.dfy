/**
 * The image card (components/image-display.tsx): the size prop read as
 * width and height with their fallbacks, the flag that hides the image
 * until it has loaded, and the guards of the download and share buttons.
 * Also the props the generator renders it with.
 */
module ImageDisplay {
  import opened Wrappers
  import opened JsString
  import opened JsNumber
  import opened ImageTypes
  import ParameterControls
  import Generator

  /** What calling a method on `undefined` throws. */
  datatype TypeError = TypeError

  /**
   * `const [width, height] = size.split('x').map(Number)`. A None size is
   * `undefined`, on which `split` throws; a None height is the missing
   * second element of a one-piece split.
   */
  function ParseSize(size: Option<JsStr>): Result<(JsNumber, Option<JsNumber>), TypeError> {
    match size
    case None => Err(TypeError)
    case Some(s) =>
      var parts := Split(s, LowerX);
      Ok((StringToNumber(parts[0]), if |parts| > 1 then Some(StringToNumber(parts[1])) else None))
  }

  /** `side || fallback`: a missing, NaN or zero side gives way to the fallback. */
  function Or(side: Option<JsNumber>, fallback: real): JsNumber {
    if side.Some? && Truthy(side.value) then side.value else Finite(fallback)
  }

  /** The width and height the image is rendered with: `width || 1024`, `height || 1024`. */
  function RenderedSize(size: Option<JsStr>): Result<(JsNumber, JsNumber), TypeError> {
    match ParseSize(size)
    case Err(e) => Err(e)
    case Ok((w, h)) => Ok((Or(Some(w), 1024.0), Or(h, 1024.0)))
  }

  /** The placeholder's aspect ratio: `${width || 1}/${height || 1}`. */
  function AspectRatio(size: Option<JsStr>): Result<(JsNumber, JsNumber), TypeError> {
    match ParseSize(size)
    case Err(e) => Err(e)
    case Ok((w, h)) => Ok((Or(Some(w), 1.0), Or(h, 1.0)))
  }

  /** A fallback side is never falsy, and a side that is not falsy is kept as it is. */
  lemma OrFacts(side: Option<JsNumber>, fallback: real)
    requires fallback != 0.0
    ensures Truthy(Or(side, fallback))
    ensures side.Some? && Truthy(side.value) ==> Or(side, fallback) == side.value
    ensures side.None? || !Truthy(side.value) ==> Or(side, fallback) == Finite(fallback)
  {
  }

  /** Without a size prop the component throws before rendering anything. */
  lemma MissingSizeThrows()
    ensures ParseSize(None) == Err(TypeError)
    ensures RenderedSize(None).Err? && AspectRatio(None).Err?
  {
  }

  /**
   * A size written as the custom fields write it, `${w}x${h}` with
   * positive whole numbers, renders at exactly w by h, with aspect ratio w/h.
   */
  lemma RenderedSizeOfSizeText(width: int, height: int)
    requires width > 0 && height > 0
    ensures RenderedSize(Some(ParameterControls.SizeText(width, height))) ==
              Ok((Finite(width as real), Finite(height as real)))
    ensures AspectRatio(Some(ParameterControls.SizeText(width, height))) ==
              Ok((Finite(width as real), Finite(height as real)))
  {
    ParameterControls.SizeTextRoundTrip(width, height);
    StringToNumberOfDecimal(width);
    StringToNumberOfDecimal(height);
  }

  /** The three presets render at their own dimensions. */
  lemma RenderedSizeOfPresets()
    ensures RenderedSize(Some(PortraitSize)) == Ok((Finite(1024.0), Finite(1792.0)))
    ensures RenderedSize(Some(SquareSize)) == Ok((Finite(1024.0), Finite(1024.0)))
    ensures RenderedSize(Some(LandscapeSize)) == Ok((Finite(1792.0), Finite(1024.0)))
  {
    ParameterControls.PresetsAreSizeTexts();
    RenderedSizeOfSizeText(1024, 1792);
    RenderedSizeOfSizeText(1024, 1024);
    RenderedSizeOfSizeText(1792, 1024);
  }

  /** A size without an `x` has no height, so the height falls back: `512` renders 512 by 1024 with aspect 512/1. */
  lemma RenderedSizeWithoutSeparator(width: int)
    requires width > 0
    ensures RenderedSize(Some(ToDecimal(width))) == Ok((Finite(width as real), Finite(1024.0)))
    ensures AspectRatio(Some(ToDecimal(width))) == Ok((Finite(width as real), Finite(1.0)))
  {
    ParameterControls.NoXInDecimal(width);
    SplitNoSep(ToDecimal(width), LowerX);
    StringToNumberOfDecimal(width);
  }

  /** The empty size reads as width 0 (`Number("")`) with no height, so both sides fall back. */
  lemma RenderedSizeOfEmpty()
    ensures RenderedSize(Some([])) == Ok((Finite(1024.0), Finite(1024.0)))
    ensures AspectRatio(Some([])) == Ok((Finite(1.0), Finite(1.0)))
  {
    SplitNoSep([], LowerX);
    assert Split([], LowerX) == [[]];
  }

  /** `!imageUrl`: null and the empty string are both falsy. */
  predicate HasImage(imageUrl: Option<JsStr>) {
    imageUrl.Some? && imageUrl.value != []
  }

  /** The card's state: the URL prop and the loaded flag. */
  datatype DisplayState = DisplayState(imageUrl: Option<JsStr>, isImageLoaded: bool)

  /** First render. */
  function Mount(imageUrl: Option<JsStr>): DisplayState {
    DisplayState(imageUrl, false)
  }

  /** A render with a new URL prop: the effect clears the flag when the URL differs. */
  function UrlChange(d: DisplayState, imageUrl: Option<JsStr>): DisplayState {
    if imageUrl == d.imageUrl then d else DisplayState(imageUrl, false)
  }

  /** The image's `onLoad`; the image element exists only while there is an image URL. */
  function Load(d: DisplayState): DisplayState {
    if HasImage(d.imageUrl) then d.(isImageLoaded := true) else d
  }

  datatype DisplayEvent = NewUrl(imageUrl: Option<JsStr>) | ImageLoaded

  function Step(d: DisplayState, e: DisplayEvent): DisplayState {
    match e
    case NewUrl(u) => UrlChange(d, u)
    case ImageLoaded => Load(d)
  }

  function Run(d: DisplayState, events: seq<DisplayEvent>): DisplayState
    decreases |events|
  {
    if events == [] then d else Run(Step(d, events[0]), events[1..])
  }

  /** The flag is only ever set while an image URL is shown. */
  predicate LoadedShowsImage(d: DisplayState) {
    d.isImageLoaded ==> HasImage(d.imageUrl)
  }

  /**
   * A URL change clears the flag exactly when the URL differs; a load sets
   * it exactly when an image is shown; neither changes anything else.
   */
  lemma StepFacts(d: DisplayState, imageUrl: Option<JsStr>)
    ensures UrlChange(d, imageUrl).imageUrl == imageUrl
    ensures UrlChange(d, imageUrl).isImageLoaded <==> d.isImageLoaded && imageUrl == d.imageUrl
    ensures Load(d).imageUrl == d.imageUrl
    ensures Load(d).isImageLoaded <==> d.isImageLoaded || HasImage(d.imageUrl)
  {
  }

  /** Every run of renders and loads from mount keeps the flag tied to a shown image. */
  lemma {:induction false} RunKeepsLoadedShowsImage(d: DisplayState, events: seq<DisplayEvent>)
    requires LoadedShowsImage(d)
    ensures LoadedShowsImage(Run(d, events))
    decreases |events|
  {
    if events != [] {
      RunKeepsLoadedShowsImage(Step(d, events[0]), events[1..]);
    }
  }

  /** A run whose last event is a change to a new URL ends unloaded, however many loads came before. */
  lemma {:induction false} RunEndingInNewUrl(d: DisplayState, events: seq<DisplayEvent>, imageUrl: Option<JsStr>)
    requires Run(d, events).imageUrl != imageUrl
    ensures !Run(d, events + [NewUrl(imageUrl)]).isImageLoaded
    ensures Run(d, events + [NewUrl(imageUrl)]).imageUrl == imageUrl
    decreases |events|
  {
    if events == [] {
      assert events + [NewUrl(imageUrl)] == [NewUrl(imageUrl)];
    } else {
      assert (events + [NewUrl(imageUrl)])[1..] == events[1..] + [NewUrl(imageUrl)];
      RunEndingInNewUrl(Step(d, events[0]), events[1..], imageUrl);
    }
  }

  /** `handleDownload`: the link's href, or None when it returns early. */
  function DownloadHref(imageUrl: Option<JsStr>): (r: Option<JsStr>)
    ensures r.Some? <==> HasImage(imageUrl)
    ensures r.Some? ==> imageUrl == Some(r.value)
  {
    if imageUrl.None? || imageUrl.value == [] then None else Some(imageUrl.value)
  }

  /** What `navigator.share` is called with. */
  datatype ShareData = ShareData(title: string, text: JsStr, url: JsStr)

  /** `handleShare`, with `canShare` whether `navigator.share` exists; None when it returns early. */
  function Share(imageUrl: Option<JsStr>, prompt: JsStr, canShare: bool): (r: Option<ShareData>)
    ensures r.Some? <==> HasImage(imageUrl) && canShare
    ensures r.Some? ==> imageUrl == Some(r.value.url) && r.value.text == prompt
  {
    if imageUrl.None? || imageUrl.value == [] || !canShare then None
    else Some(ShareData("AI Generated Image", prompt, imageUrl.value))
  }

  /** Sharing is downloading's guard plus `navigator.share`, and both hand on the same URL. */
  lemma ShareNeedsDownloadGuard(imageUrl: Option<JsStr>, prompt: JsStr, canShare: bool)
    ensures Share(imageUrl, prompt, canShare).Some? ==> DownloadHref(imageUrl) == Some(Share(imageUrl, prompt, canShare).value.url)
    ensures canShare ==> (Share(imageUrl, prompt, canShare).Some? <==> DownloadHref(imageUrl).Some?)
  {
  }

  /** The size prop the generator passes: it passes none. */
  function GeneratorDisplaySize(g: Generator.GeneratorState): Option<JsStr> {
    None
  }

  /** As the generator renders the card, reading the size throws, whatever the state. */
  lemma GeneratorDisplayThrows(g: Generator.GeneratorState)
    ensures RenderedSize(GeneratorDisplaySize(g)) == Err(TypeError)
  {
  }

  /** The size prop the card expects: the current parameters' size. */
  function CorrectedDisplaySize(g: Generator.GeneratorState): Option<JsStr> {
    Some(g.currentParams.size)
  }

  /**
   * With the current size passed, the card never throws, shows the first
   * render's image at 1024 by 1792, and shows a custom size at exactly the
   * width and height entered.
   */
  lemma CorrectedDisplayRenders(g: Generator.GeneratorState, seed: int)
    ensures RenderedSize(CorrectedDisplaySize(g)).Ok?
    ensures RenderedSize(CorrectedDisplaySize(Generator.Initial(seed))) == Ok((Finite(1024.0), Finite(1792.0)))
    ensures forall w: int, h: int | w > 0 && h > 0 && g.currentParams.size == ParameterControls.SizeText(w, h) ::
              RenderedSize(CorrectedDisplaySize(g)) == Ok((Finite(w as real), Finite(h as real)))
  {
    RenderedSizeOfPresets();
    forall w: int, h: int | w > 0 && h > 0 && g.currentParams.size == ParameterControls.SizeText(w, h)
      ensures RenderedSize(CorrectedDisplaySize(g)) == Ok((Finite(w as real), Finite(h as real)))
    {
      RenderedSizeOfSizeText(w, h);
    }
  }

  /** The card as a component: its loaded flag and the URL it last rendered with. */
  class ImageCard {
    var imageUrl: Option<JsStr>
    var isImageLoaded: bool

    function State(): DisplayState
      reads this
    {
      DisplayState(imageUrl, isImageLoaded)
    }

    constructor(imageUrl: Option<JsStr>)
      ensures State() == Mount(imageUrl)
    {
      this.imageUrl := imageUrl;
      isImageLoaded := false;
    }

    /** A render with the given URL prop, and the effect that follows when it changed. */
    method Render(newUrl: Option<JsStr>)
      modifies this
      ensures State() == UrlChange(old(State()), newUrl)
    {
      if newUrl != imageUrl {
        imageUrl := newUrl;
        isImageLoaded := false;
      }
    }

    /** The image's `onLoad`. */
    method OnLoad()
      modifies this
      requires HasImage(imageUrl)
      ensures State() == Load(old(State()))
    {
      isImageLoaded := true;
    }
  }
}
