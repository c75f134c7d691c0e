/**
 * The constant tables of data/prompt-suggestions.ts: the suggestion
 * categories, the suggested prompts with their categories, and the style
 * and quality modifiers offered by the enhancer dialog.
 */
module PromptSuggestionsData {

  /** A suggested prompt and the categories it is listed under. */
  datatype Suggestion = Suggestion(prompt: string, categories: seq<string>)

  predicate NoRepeats<T(==)>(s: seq<T>) {
    forall i, j | 0 <= i < j < |s| :: s[i] != s[j]
  }

  const PromptCategories: seq<string> :=
    ["Landscape", "Portrait", "Abstract", "Sci-Fi", "Fantasy", "Anime", "Realistic", "Artistic"]

  const PromptSuggestions: seq<Suggestion> := [
    Suggestion("A serene mountain landscape with a lake reflecting the sunset, photorealistic", ["Landscape", "Realistic"]),
    Suggestion("Cyberpunk city at night with neon lights and flying cars", ["Sci-Fi", "Landscape"]),
    Suggestion("Abstract fluid art with vibrant colors and smooth transitions", ["Abstract", "Artistic"]),
    Suggestion("Portrait of a fantasy elf warrior with detailed armor and glowing eyes", ["Fantasy", "Portrait"]),
    Suggestion("Anime style character with colorful hair in a futuristic setting", ["Anime", "Portrait", "Sci-Fi"]),
    Suggestion("Hyperrealistic portrait of an elderly person with detailed wrinkles and expressive eyes", ["Portrait", "Realistic"]),
    Suggestion("Surreal dreamscape with floating islands and impossible architecture", ["Fantasy", "Landscape", "Artistic"]),
    Suggestion("Macro photography of a dewdrop on a leaf with refraction effects", ["Realistic"]),
    Suggestion("Geometric abstract art with bold shapes and complementary colors", ["Abstract", "Artistic"]),
    Suggestion("Futuristic space station orbiting a gas giant with multiple moons", ["Sci-Fi", "Landscape"]),
    Suggestion("Fantasy castle on a floating island with waterfalls cascading into the void", ["Fantasy", "Landscape"]),
    Suggestion("Anime style magical girl transformation sequence with sparkles and energy effects", ["Anime", "Fantasy"]),
    Suggestion("Photorealistic still life with fruits and a glass of wine in renaissance style", ["Realistic", "Artistic"]),
    Suggestion("Abstract representation of human emotions using color theory and fluid shapes", ["Abstract", "Artistic"]),
    Suggestion("Sci-fi laboratory with advanced technology and holographic displays", ["Sci-Fi"]),
    Suggestion("Fantasy creature hybrid between a dragon and a wolf in a mystical forest", ["Fantasy"]),
    Suggestion("Anime style battle scene with dynamic poses and special effects", ["Anime", "Fantasy"]),
    Suggestion("Hyperrealistic underwater scene with coral reef and tropical fish", ["Realistic", "Landscape"]),
    Suggestion("Abstract digital glitch art with distortion effects and pixel sorting", ["Abstract", "Artistic"]),
    Suggestion("Sci-fi astronaut exploring an alien planet with strange vegetation", ["Sci-Fi", "Landscape"])
  ]

  const StyleModifiers: seq<string> := [
    "photorealistic", "oil painting", "watercolor", "digital art", "pencil sketch", "3D render",
    "anime style", "pixel art", "vaporwave", "cyberpunk", "steampunk", "impressionist",
    "surrealist", "minimalist", "baroque", "art nouveau", "pop art"
  ]

  const QualityModifiers: seq<string> := [
    "highly detailed", "8K resolution", "professional photography", "sharp focus", "dramatic lighting",
    "studio lighting", "cinematic", "HDR", "bokeh effect", "depth of field", "award-winning",
    "trending on artstation", "unreal engine render", "octane render", "ray tracing"
  ]

  /** The eight categories are distinct. */
  lemma CategoriesDistinct()
    ensures |PromptCategories| == 8 && NoRepeats(PromptCategories)
  {
  }

  /** There are twenty suggestions, and each names at least one category and none twice. */
  lemma SuggestionCategoriesDistinct()
    ensures |PromptSuggestions| == 20
    ensures forall k | 0 <= k < |PromptSuggestions| ::
              |PromptSuggestions[k].categories| >= 1 && NoRepeats(PromptSuggestions[k].categories)
  {
  }

  /** Every category a suggestion names is one of the eight. */
  lemma SuggestionCategoriesKnown()
    ensures forall k | 0 <= k < |PromptSuggestions| ::
              forall c | c in PromptSuggestions[k].categories :: c in PromptCategories
  {
  }

  /** Every category is named by some suggestion, so no category badge shows an empty list. */
  lemma EveryCategoryUsed()
    ensures forall c | c in PromptCategories :: exists k | 0 <= k < |PromptSuggestions| :: c in PromptSuggestions[k].categories
  {
    // A suggestion naming each category, in the order of PromptCategories.
    var namedBy := [0, 3, 2, 1, 3, 4, 0, 2];
    forall i | 0 <= i < |PromptCategories|
      ensures PromptCategories[i] in PromptSuggestions[namedBy[i]].categories
    {
    }
  }

  /** The twenty prompts are distinct. */
  lemma PromptsDistinct()
    ensures forall i, j | 0 <= i < j < |PromptSuggestions| :: PromptSuggestions[i].prompt != PromptSuggestions[j].prompt
  {
  }

  /** The 17 style modifiers are distinct. */
  lemma StyleModifiersDistinct()
    ensures |StyleModifiers| == 17 && NoRepeats(StyleModifiers)
  {
  }

  /** The 15 quality modifiers are distinct. */
  lemma QualityModifiersDistinct()
    ensures |QualityModifiers| == 15 && NoRepeats(QualityModifiers)
  {
  }

  /** No modifier is both a style and a quality modifier. */
  lemma ModifierListsDisjoint()
    ensures forall m | m in StyleModifiers :: m !in QualityModifiers
  {
    FirstStylesNotQuality();
    LastStylesNotQuality();
    assert StyleModifiers == StyleModifiers[..9] + StyleModifiers[9..];
  }

  lemma FirstStylesNotQuality()
    ensures forall m | m in StyleModifiers[..9] :: m !in QualityModifiers
  {
  }

  lemma LastStylesNotQuality()
    ensures forall m | m in StyleModifiers[9..] :: m !in QualityModifiers
  {
  }
}
