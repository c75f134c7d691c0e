# Pollinations image generator: a verified model of its component logic

This project models, in Dafny, the client-side logic of a Next.js front end for an image-generation service. The parts modelled are:

- **`generateImage`.** It guards against a blank prompt and against a generation already running, builds a parameter set, builds the request URL (a percent-encoded `model:prompt` path segment and a `URLSearchParams` query), and updates the shown image, the capped history and the deduplicated saved prompts.
- **The other handlers of the generator component.**
- **The history panel:** clear, delete by id, and the selection guard.
- **The prompt-enhancer dialog:** a working copy of the prompt that modifiers are appended to.
- **The prompt form:** the submit guard, the buttons' disabled condition, and the random enhancers.
- **The parameter panel:** preset versus custom size mode, the two effects that keep it in step with the parent, the seed field, and the single-field updates.
- **The suggestion list and its constant tables.**
- **The image card:** the size prop read as width and height with fallbacks, the loaded flag, and the download and share guards.

Each stateful component is a `class` whose fields are its state hooks. Every handler is a method whose `ensures` ties the new state to a pure step function of the old state. The properties are proved as lemmas about those step functions.

JavaScript strings are sequences of UTF-16 code units (`JsString`), so lone surrogates exist. `encodeURIComponent` throws on them, which is the generator's `catch` path. The JavaScript built-ins the components call are modelled as specified by ECMA-262 and the WHATWG URL Standard: `trim`, `includes`, `split`, `parseInt`, `Number`, `encodeURIComponent`, and `URLSearchParams` with its `append` and `toString`. Each encoder has a decoder partner, and the round trips are proved: decoding the generated URL gives back the model, the prompt and the query pairs.

Time stamps, random seeds and the user's answer to `confirm` are method parameters.

## Model

| member | source | states |
|---|---|---|
| `JsString.TrimEmptyIffBlank` | components/prompt-enhancer.tsx:31 | `trim()` gives the empty string exactly when every code unit is white space |
| `JsString.IndexOf` | components/image-generator.tsx:51 | the index found is the first occurrence of the unit, and None means it does not occur |
| `JsString.Split` | components/parameter-controls.tsx:25-26 | `split` on one unit gives at least one piece, and no piece holds the separator |
| `JsString.SplitConcat` | components/parameter-controls.tsx:33 | splitting `a + sep + b`, when `a` has no separator, gives `a` followed by the pieces of `b` |
| `Unicode.ScalarsOfUtf16` | components/image-generator.tsx:50 | decoding the UTF-16 encoding of scalar values gives them back |
| `Unicode.Utf16OfScalars` | components/image-generator.tsx:50 | a well-formed string is the UTF-16 encoding of its scalar values |
| `Unicode.Utf8RoundTrip` | components/image-generator.tsx:50 | the UTF-8 encoding of a scalar value decodes back to it, and its first byte announces its length |
| `PercentEncoding.EncodeUriComponentFails` | components/image-generator.tsx:50 | `encodeURIComponent` throws exactly when the string holds a lone surrogate |
| `PercentEncoding.UriComponentRoundTrip` | components/image-generator.tsx:50 | on a well-formed string `decodeURIComponent` inverts `encodeURIComponent`, and the output holds only unreserved units and `%XX` triplets |
| `PercentEncoding.DecodeEncodeScalars` | components/image-generator.tsx:50 | percent-decoding the encoding of any scalar values gives their UTF-16 encoding |
| `PercentEncoding.FormRoundTrip` | components/image-generator.tsx:46-48 | the form-urlencoded byte serializer is inverted by the form decoder, up to USVString conversion, and exactly on well-formed strings |
| `PercentEncoding.DelimitersNotEncoded` | components/image-generator.tsx:51 | neither encoding ever outputs `:`, `?`, `&` or `=` |
| `JsNumber.ParseIntOfDecimal` | components/parameter-controls.tsx:42-43 | `parseInt` with radix 10 or no radix reads the decimal text of any integer back as that integer |
| `JsNumber.UndefinedIsNaN` | components/parameter-controls.tsx:43 | `parseInt(undefined, r)` is NaN for radix 10 or none, so a missing height never reports a size |
| `JsNumber.StringToNumberOfDecimal` | components/image-display.tsx:21 | `Number` of the decimal text of an integer is that integer |
| `ImageTypes.ModelNameLetters` | types/image-types.ts:1 | every model name is a non-empty run of lower-case ASCII letters without `:` |
| `ImageTypes.ModelNameRoundTrip` | types/image-types.ts:1 | the three model names are distinct, and parsing a name gives back its model |
| `ImageTypes.MergeLaws` | components/image-generator.tsx:88 | merging the empty update changes nothing, and merging an update twice is the same as merging it once |
| `ImageTypes.MergeCompose` | components/image-generator.tsx:88 | two successive merges equal one merge of the combined update, with the later field winning |
| `FormUrlencoded.ParseSerialize` | components/image-generator.tsx:43-48 | parsing the serialization of any pair list gives the same pairs in the same order, after USVString conversion |
| `FormUrlencoded.ParseSerializeWellFormed` | components/image-generator.tsx:43-48 | well-formed names and values are read back exactly |
| `FormUrlencoded.SearchParams.Append` | components/image-generator.tsx:44-48 | `append` adds the pair at the end of the list |
| `FormUrlencoded.SearchParams.ToString` | components/image-generator.tsx:51 | `toString()` is a serialization that the parser reads back as the list |
| `Generator.Prepend` | components/image-generator.tsx:67 | `[x, ...xs].slice(0, cap)` has length min(\|xs\|+1, cap), starts with `x`, and continues with a prefix of `xs` |
| `Generator.KeysDistinct` | components/image-generator.tsx:44-48 | the five query names are pairwise different |
| `Generator.QueryContents` | components/image-generator.tsx:43-48 | the query names run nologo, enhance, size, quality, seed with each at most once. `nologo=true` and `enhance=true` appear exactly when their flags are set. Size, quality and the decimal seed always appear, and the seed parses back |
| `Generator.UrlRoundTrip` | components/image-generator.tsx:50-51 | a URL exists exactly when the prompt is well formed. Decoding its path and splitting at the first `:` gives back the model and the prompt, and its query parses to the query pairs |
| `Generator.GenerateBlocked` | components/image-generator.tsx:32 | a plain generate with the empty prompt, or any call made while a generation runs, changes no state at all |
| `Generator.GenerateFlag` | components/image-generator.tsx:72-76 | the busy flag ends as it began, and is false after every call that passed the guard. A prompt that makes encoding throw changes nothing |
| `Generator.GenerateUrl` | components/image-generator.tsx:36-57 | the shown URL reads back as the working parameters and prompt. A plain generate keeps the parameters, and a regenerate changes the seed and nothing else |
| `Generator.GenerateHistory` | components/image-generator.tsx:59-67 | the new entry, holding the URL, the working parameters, the id and the time stamp, is put in front. The list is cut to 50, so a full history loses its oldest entry |
| `Generator.SavePromptFacts` | components/image-generator.tsx:69-71 | the prompt is put in front exactly when it is non-empty and not yet saved, with the list capped at 100. Otherwise the list is unchanged, and a list without repeats stays that way |
| `Generator.GenerateSavedPrompts` | components/image-generator.tsx:69-71 | a successful generate updates the saved prompts as described above |
| `Generator.GenerateKeepsHistoryConsistent` | components/image-generator.tsx:59-67 | if every history entry's URL is the one its prompt and parameters build, that stays true after a generate |
| `Generator.ReplayHistory` | components/image-generator.tsx:91-95 | selecting a history entry and generating again shows exactly that entry's URL, parameters and prompt. With a non-empty prompt the generation goes through and records a new entry with that same URL and parameters |
| `Generator.ParamsChangeFacts` | components/image-generator.tsx:87-89 | a parameter change touches only the parameters, an empty one changes nothing, and the change is idempotent |
| `Generator.ImageGenerator.constructor` | components/image-generator.tsx:16-29 | the first state: an empty prompt, not busy, no image, flux with no logo and enhance on, 1024x1792, hd, the given seed, empty stores |
| `Generator.ImageGenerator.BuildQuery` | components/image-generator.tsx:43-48 | the `URLSearchParams` appends in order give the serialized query pairs, which parse back |
| `Generator.ImageGenerator.BuildUrl` | components/image-generator.tsx:50-51 | the URL is built, or the URIError is returned exactly when the prompt is ill formed |
| `Generator.ImageGenerator.GenerateImage` | components/image-generator.tsx:31-77 | the new state is the `Generate` step of the old one |
| `Generator.ImageGenerator.HandlePromptSubmit` | components/image-generator.tsx:79-81 | submit runs a plain generate, ignoring its argument |
| `Generator.ImageGenerator.HandleRegenerate` | components/image-generator.tsx:83-85 | runs a regenerate with the given fresh seed |
| `Generator.ImageGenerator.HandleParamsChange` | components/image-generator.tsx:87-89 | merges the update into the current parameters |
| `Generator.ImageGenerator.HandleSelectHistory` | components/image-generator.tsx:91-95 | sets the prompt, the parameters and the shown image from the entry |
| `Generator.ImageGenerator.HandleSelectSavedPrompt` | components/image-generator.tsx:97-99 | sets the prompt and nothing else |
| `Generator.ImageGenerator.SetPrompt` | components/image-generator.tsx:108 | typing in the prompt field sets the prompt and nothing else |
| `HistoryPanel.DeleteById` | components/history-panel.tsx:30 | the result keeps exactly the entries whose id differs, and it is no longer than the input |
| `HistoryPanel.DeleteAppend` | components/history-panel.tsx:30 | deletion distributes over concatenation, so the kept entries stay in their order |
| `HistoryPanel.DeleteCounts` | components/history-panel.tsx:30 | every entry with the id is removed, and every other entry is kept exactly as often as it occurred |
| `HistoryPanel.DeleteAbsent` | components/history-panel.tsx:30 | deleting an id no entry has leaves the list unchanged |
| `HistoryPanel.DeleteIdempotent` | components/history-panel.tsx:30 | deleting twice is deleting once |
| `HistoryPanel.ClearFacts` | components/history-panel.tsx:22-26 | a confirmed clear empties the history, and a declined one changes nothing |
| `HistoryPanel.SelectFacts` | components/history-panel.tsx:44-48 | selecting sets the selected id, and calls back with the entry exactly when the id differs from the selected one. A second click on the same entry does nothing |
| `HistoryPanel.HistoryPanel.HandleClearHistory` | components/history-panel.tsx:22-26 | the new state is `Clear` of the old one |
| `HistoryPanel.HistoryPanel.HandleDeleteItem` | components/history-panel.tsx:28-31 | the new state is `Delete` of the old one |
| `HistoryPanel.HistoryPanel.HandleSelectHistory` | components/history-panel.tsx:44-48 | the new state and the callback argument are `Select` of the old state |
| `PromptEnhancer.ApplyModifierFacts` | components/prompt-enhancer.tsx:25-34 | the result contains the modifier. It is unchanged when the modifier already occurs, exactly the modifier when the prompt is blank, and otherwise the prompt, ", " and the modifier |
| `PromptEnhancer.ApplyModifierIdempotent` | components/prompt-enhancer.tsx:25-34 | applying the same modifier twice is applying it once |
| `PromptEnhancer.StepKeepsPrefix` | components/prompt-enhancer.tsx:32 | on a non-blank prompt, a step keeps the prompt as a prefix |
| `PromptEnhancer.ContainedStays` | components/prompt-enhancer.tsx:25-34 | text in the working prompt survives every later modifier |
| `PromptEnhancer.ApplyAllPrefix` | components/prompt-enhancer.tsx:25-34 | a session of clicks on a non-blank prompt keeps it as a prefix |
| `PromptEnhancer.ApplyAllContains` | components/prompt-enhancer.tsx:25-34 | after a session every clicked modifier occurs in the working prompt |
| `PromptEnhancer.PromptEnhancer.OpenDialog` | components/prompt-enhancer.tsx:20-23 | opening copies the parent's prompt into the working copy |
| `PromptEnhancer.PromptEnhancer.ApplyModifierClick` | components/prompt-enhancer.tsx:25-34 | the working copy becomes `ApplyModifier` of the old one |
| `PromptEnhancer.PromptEnhancer.ApplyEnhancedPrompt` | components/prompt-enhancer.tsx:36-39 | the parent receives the working copy, and the dialog closes |
| `PromptEnhancer.PromptEnhancer.Cancel` | components/prompt-enhancer.tsx:98 | the dialog closes without handing anything to the parent |
| `PromptInput.Submit` | components/prompt-input.tsx:18-23 | `onSubmit` is called exactly when the prompt is not all white space and no generation runs, and it gets the prompt untrimmed |
| `PromptInput.ButtonsAgreeWithSubmit` | components/prompt-input.tsx:58-70 | the three buttons are enabled exactly when a submit would go through |
| `PromptInput.EnhancersDistinct` | components/prompt-input.tsx:27-33 | the five enhancers are distinct |
| `PromptInput.DrawTwo` | components/prompt-input.tsx:35-40 | from any reordering of a list without repeats, the new prompt is the old one, ", " and two different members of the list |
| `PromptInput.FirstTwoDiffer` | components/prompt-input.tsx:35-37 | any reordering of a list without repeats puts two different members first |
| `PromptInput.EnhancedPromptFacts` | components/prompt-input.tsx:25-41 | the result is the prompt, ", " and two different enhancers, joined by ", ". The prompt is a prefix and always grows, since nothing is checked against text already present |
| `PromptInput.EnhancersAgainstQualityModifiers` | components/prompt-input.tsx:32 | four enhancers are also quality modifiers, but "8k resolution" differs in case from the dialog's "8K resolution" |
| `ParameterControls.CustomModeFollowsSize` | components/parameter-controls.tsx:22-37 | custom mode starts, and after every size change stays, on exactly when the size is not a preset. A custom size refills the fields from its split on `x`, and a preset keeps them |
| `ParameterControls.EmitFacts` | components/parameter-controls.tsx:40-48 | a size is reported exactly in custom mode with two positive integer fields, and its halves parse back to those integers |
| `ParameterControls.EmitSyncSettles` | components/parameter-controls.tsx:29-48 | a reported size that comes back from the parent refills the fields and is reported again unchanged, unless it is a preset, which ends custom mode |
| `ParameterControls.PresetChangeFacts` | components/parameter-controls.tsx:61-73 | a preset leaves custom mode and reports that preset. Custom reports nothing and resets the fields only from a preset |
| `ParameterControls.CustomFromPreset` | components/parameter-controls.tsx:61-73 | Custom picked from any preset reports 1024x1024. From Square that is the current size, so the first effect does not run again. From Portrait or Landscape it is a new size, and the first effect sees a preset and leaves custom mode |
| `ParameterControls.SyncKeepingCustomFacts` | components/parameter-controls.tsx:29-37 | with the corrected first effect, Custom picked from any preset stays on, and every reported size settles |
| `ParameterControls.SizeTextRoundTrip` | components/parameter-controls.tsx:45 | `${w}x${h}` splits at its single `x` into the decimal texts, which parse back as w and h |
| `ParameterControls.SizeTextInjective` | components/parameter-controls.tsx:45 | different sizes are reported as different texts |
| `ParameterControls.SizeTextPreset` | components/parameter-controls.tsx:19 | a reported size is a preset exactly when it is 1024x1792, 1024x1024 or 1792x1024 |
| `ParameterControls.PresetsAreSizeTexts` | components/parameter-controls.tsx:19 | the three preset strings are those pairs written as the custom fields write them |
| `ParameterControls.NoXInDecimal` | components/parameter-controls.tsx:45 | the decimal text of a number holds no `x` |
| `ParameterControls.MarkersNotPresets` | components/parameter-controls.tsx:62-66 | neither "custom" nor "1024" is a preset |
| `ParameterControls.SeedChangeOfDecimal` | components/parameter-controls.tsx:50-55 | the seed field accepts the decimal text of any integer, negative ones included |
| `ParameterControls.SeedChangeIgnoresTrailing` | components/parameter-controls.tsx:51 | `Number.parseInt` ignores text after the digits |
| `ParameterControls.SeedChangeNaN` | components/parameter-controls.tsx:52 | text that does not start with a digit, a sign or white space reports no seed |
| `ParameterControls.SingleFieldUpdates` | components/parameter-controls.tsx:81-167 | every control supplies exactly one field, so merging it changes that field and no other |
| `ParameterControls.QualityOptionsFacts` | components/parameter-controls.tsx:141-145 | the three quality items are distinct, and the first state's "hd" is one of them |
| `ParameterControls.ModelOptionsAreModels` | components/parameter-controls.tsx:86-88 | the model items are exactly the three model names, so the unchecked cast always gives a model |
| `ParameterControls.SizeControl.constructor` | components/parameter-controls.tsx:22-26 | the initial local state comes from the first size |
| `ParameterControls.SizeControl.SyncSize` | components/parameter-controls.tsx:29-37 | the first effect moves the state by `Sync` |
| `ParameterControls.SizeControl.ReportCustomSize` | components/parameter-controls.tsx:40-48 | the second effect reports `{ size }` exactly when `Emit` gives a size |
| `ParameterControls.SizeControl.HandleSizePresetChange` | components/parameter-controls.tsx:61-73 | the new state and the update reported follow `PresetChange` |
| `ParameterControls.SizeControl.SetCustomWidth` | components/parameter-controls.tsx:117 | the width field takes the typed text |
| `ParameterControls.SizeControl.SetCustomHeight` | components/parameter-controls.tsx:128 | the height field takes the typed text |
| `PromptSuggestionsData.CategoriesDistinct` | data/prompt-suggestions.ts:1-10 | there are eight distinct categories |
| `PromptSuggestionsData.SuggestionCategoriesDistinct` | data/prompt-suggestions.ts:12-93 | there are twenty suggestions, each naming at least one category and none twice |
| `PromptSuggestionsData.SuggestionCategoriesKnown` | data/prompt-suggestions.ts:12-93 | every category a suggestion names is one of the eight |
| `PromptSuggestionsData.EveryCategoryUsed` | data/prompt-suggestions.ts:1-93 | every category is named by some suggestion |
| `PromptSuggestionsData.PromptsDistinct` | data/prompt-suggestions.ts:12-93 | the twenty prompt texts are distinct |
| `PromptSuggestionsData.StyleModifiersDistinct` | data/prompt-suggestions.ts:95-113 | there are 17 distinct style modifiers |
| `PromptSuggestionsData.QualityModifiersDistinct` | data/prompt-suggestions.ts:115-131 | there are 15 distinct quality modifiers |
| `PromptSuggestionsData.ModifierListsDisjoint` | data/prompt-suggestions.ts:95-131 | no modifier is both a style and a quality modifier |
| `PromptSuggestions.FilterByCategory` | components/prompt-suggestions.tsx:16 | the filter keeps exactly the suggestions naming the category, and is no longer than the table |
| `PromptSuggestions.FilterIsSubsequence` | components/prompt-suggestions.tsx:16 | the filtered list is a subsequence of the table, in table order |
| `PromptSuggestions.FilterAppend` | components/prompt-suggestions.tsx:16 | filtering distributes over concatenation |
| `PromptSuggestions.FilterCounts` | components/prompt-suggestions.tsx:16 | each suggestion with the category is kept as often as it occurs, and every other one is dropped |
| `PromptSuggestions.FilterIdempotent` | components/prompt-suggestions.tsx:16 | filtering twice is filtering once |
| `PromptSuggestions.FilteredFacts` | components/prompt-suggestions.tsx:15-17 | with no category selected the whole table shows. With one selected, exactly the suggestions naming it show, always as a subsequence of the table |
| `PromptSuggestions.BadgesNeverEmpty` | components/prompt-suggestions.tsx:32-37 | every category badge shows at least one suggestion |
| `PromptSuggestions.PromptSuggestionsView.SelectAll` | components/prompt-suggestions.tsx:28 | All clears the selection, and the whole table shows |
| `PromptSuggestions.PromptSuggestionsView.SelectCategory` | components/prompt-suggestions.tsx:37 | a badge selects its category |
| `PromptSuggestions.PromptSuggestionsView.ClickSuggestion` | components/prompt-suggestions.tsx:49 | the callback gets the shown suggestion's prompt unchanged, as the code units the prompt field holds. That suggestion names the selected category |
| `ImageDisplay.OrFacts` | components/image-display.tsx:75-76 | `side \|\| fallback` is never falsy. It keeps a truthy side and otherwise gives the fallback |
| `ImageDisplay.MissingSizeThrows` | components/image-display.tsx:21 | without a size, `split` throws a TypeError |
| `ImageDisplay.RenderedSizeOfSizeText` | components/image-display.tsx:21-86 | a size `${w}x${h}` with positive whole numbers renders at exactly w by h, with aspect ratio w/h |
| `ImageDisplay.RenderedSizeOfPresets` | components/image-display.tsx:75-76 | the three presets render at their own dimensions |
| `ImageDisplay.RenderedSizeWithoutSeparator` | components/image-display.tsx:75-86 | a size without `x` renders with height 1024 and aspect height 1 |
| `ImageDisplay.RenderedSizeOfEmpty` | components/image-display.tsx:75-86 | the empty size falls back to 1024 by 1024, with aspect ratio 1/1 |
| `ImageDisplay.StepFacts` | components/image-display.tsx:24-26 | a new URL clears the loaded flag exactly when it differs, and a load sets it exactly while an image is shown |
| `ImageDisplay.RunKeepsLoadedShowsImage` | components/image-display.tsx:78 | over any run of renders and loads, the flag is set only while an image URL is shown |
| `ImageDisplay.RunEndingInNewUrl` | components/image-display.tsx:24-26 | a run ending in a change to a new URL ends unloaded, whatever loads came before |
| `ImageDisplay.DownloadHref` | components/image-display.tsx:28-37 | the download link is made exactly when the URL is neither null nor empty, and it points at that URL |
| `ImageDisplay.Share` | components/image-display.tsx:39-51 | sharing happens exactly when the URL is neither null nor empty and `navigator.share` exists, and it carries the prompt and the URL |
| `ImageDisplay.ShareNeedsDownloadGuard` | components/image-display.tsx:40 | share passes download's guard and hands on the same URL |
| `ImageDisplay.GeneratorDisplayThrows` | components/image-generator.tsx:116-121 | as the generator renders the card, with no size prop, reading the size throws in every state |
| `ImageDisplay.CorrectedDisplayRenders` | components/image-display.tsx:14 | with the current size passed, the card renders the first state at 1024 by 1792 and a custom size at exactly its width and height |
| `ImageDisplay.ImageCard.constructor` | components/image-display.tsx:18 | the card mounts unloaded |
| `ImageDisplay.ImageCard.Render` | components/image-display.tsx:24-26 | a render moves the state by `UrlChange` |
| `ImageDisplay.ImageCard.OnLoad` | components/image-display.tsx:78 | a load sets the flag |

## Left out

- Persistence through `useLocalStorage` is not modelled, because the hook's source is not shown. History and saved prompts are in-memory sequences. The generator and the history panel each hold their own binding of "image-history", and how the two stay in sync depends on that unseen hook. The panel therefore works on the list it is given.
- `generateRandomSeed`, `Date.now()` and `new Date().toISOString()` are parameters. The history id is the decimal text of the `now` parameter.
- The `Math.random()` comparator sort in the prompt form is not modelled as an algorithm. Its result is taken as any reordering of the five enhancers.
- `formatDate` (`Intl.DateTimeFormat`) is left out, because it is locale formatting.
- The DOM download link, the call to `navigator.share` and its rejection, `next/image`, and the JSX markup are left out. Only the guards and the data handed on are modelled.
- React's scheduling is left out. Effects and state setters are treated as one sequential step each, and the two parameter-panel effects are separate methods that a caller runs in order.
- Numbers are exact. Double rounding is left out, as are integers above 2^53, the exponent form of numbers of 10^21 or more, and the sign of -0.
- Only `parseInt` results that are integers are modelled: NaN and the digits read.
- A `Partial<ImageParams>` key that is present but holds `undefined` is treated as absent.
- The WHATWG form parser substitutes U+FFFD for invalid percent-encoded UTF-8. The model's form parser returns None instead, and it is used only as the inverse of the serializer, whose output never contains such input.
- The image service itself is left out. The model ends at the URL string.
- The admin password endpoint, the app layout, the page and the footer are left out.
- `PromptEnhancer.PromptEnhancer.CanOpen`, the trigger's disabled condition (`!prompt`), is a predicate without a contract.
- `ImageDisplay.ImageCard.OnLoad` requires an image URL, because the image element and its `onLoad` exist only while one is shown.
- `ParameterControls.SizeControl` models the first effect as written (`Sync`). The corrected `SyncKeepingCustom` exists only as the finding's corrected half.
- `ParameterControls.SizeControl.SyncSize` stands for the first effect only when `params.size` has changed, since the effect depends on `[params.size]`. The class still lets a caller run it on an unchanged size, which React never does. The two effects' dependency lists are not modelled.

## Findings

| source | as written | input that shows it | evidently intended | confidence | as-written member | corrected member |
|---|---|---|---|---|---|---|
| components/image-generator.tsx:116-121 | `ImageDisplay` is rendered without its required `size` prop, so `size.split('x')` at components/image-display.tsx:21 runs on `undefined` and throws a TypeError | the first render: `size.split` sits at the top of the component body and runs even while `imageUrl` is null, so the page throws before any generate. A type-checked build would reject the missing required prop (components/image-display.tsx:14) before that | pass `size={currentParams.size}`, so the card renders at the chosen dimensions | high that the prop is missing; not executed | `ImageDisplay.GeneratorDisplayThrows` | `ImageDisplay.CorrectedDisplayRenders` |
| components/parameter-controls.tsx:29-37 | the first effect sets custom mode to "size is not a preset" on every size change, including the change custom mode itself reports | Portrait 1024x1792 showing, pick Custom: the fields become 1024 and 1024, then 1024x1024 is reported, which is a preset, so custom mode switches off and Square shows | Custom stays selected after being picked | medium: depends on React running the effects in this order; not executed | `ParameterControls.CustomFromPreset` | `ParameterControls.SyncKeepingCustomFacts` |
