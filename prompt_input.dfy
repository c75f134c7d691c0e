/**
 * The prompt form (components/prompt-input.tsx): the submit guard, the
 * three buttons' shared disabled condition, and the Enhance button, which
 * appends two of five fixed enhancers in a random order.
 */
module PromptInput {
  import opened Wrappers
  import opened JsString
  import PromptSuggestionsData

  /**
   * `handleSubmit`: the argument `onSubmit` is called with, or None when
   * it is not called. The prompt is passed untrimmed.
   */
  function Submit(prompt: JsStr, isGenerating: bool): (r: Option<JsStr>)
    ensures r.Some? <==> !IsBlank(prompt) && !isGenerating
    ensures r.Some? ==> r.value == prompt
  {
    TrimEmptyIffBlank(prompt);
    if Trim(prompt) != [] && !isGenerating then Some(prompt) else None
  }

  /** `!prompt.trim() || isGenerating`, on Generate, Regenerate and Enhance alike. */
  predicate ButtonsDisabled(prompt: JsStr, isGenerating: bool) {
    Trim(prompt) == [] || isGenerating
  }

  /** A button is enabled exactly when a submit would go through. */
  lemma ButtonsAgreeWithSubmit(prompt: JsStr, isGenerating: bool)
    ensures !ButtonsDisabled(prompt, isGenerating) <==> Submit(prompt, isGenerating).Some?
    ensures ButtonsDisabled(prompt, isGenerating) <==> IsBlank(prompt) || isGenerating
  {
    TrimEmptyIffBlank(prompt);
  }

  /** The enhancers the Enhance button draws from. */
  const Enhancers: seq<string> :=
    ["highly detailed", "professional photography", "sharp focus", "dramatic lighting", "8k resolution"]

  lemma EnhancersDistinct()
    ensures |Enhancers| == 5
    ensures forall i, j | 0 <= i < j < |Enhancers| :: Enhancers[i] != Enhancers[j]
  {
    // The five have five different lengths.
    assert |Enhancers[0]| == 15 && |Enhancers[1]| == 24 && |Enhancers[2]| == 11;
    assert |Enhancers[3]| == 17 && |Enhancers[4]| == 13;
  }

  /** `parts.join(", ")` */
  function Join(parts: seq<JsStr>): (r: JsStr)
    ensures |parts| == 1 ==> r == parts[0]
  {
    if parts == [] then []
    else if |parts| == 1 then parts[0]
    else parts[0] + CommaSpace + Join(parts[1..])
  }

  /**
   * `handleEnhancePrompt` with `shuffled` the array after its random sort:
   * the first two, joined with ", ", after the prompt and ", ".
   */
  function EnhancedPrompt(prompt: JsStr, shuffled: seq<string>): JsStr {
    var picked := seq(Min(2, |shuffled|), k requires 0 <= k < Min(2, |shuffled|) => Js(shuffled[k]));
    prompt + CommaSpace + Join(picked)
  }

  function Min(a: int, b: int): int { if a <= b then a else b }

  /** A sequence without repeats holds each element at most once. */
  lemma {:induction false} CountWithoutRepeats<T>(s: seq<T>, x: T)
    requires forall i, j | 0 <= i < j < |s| :: s[i] != s[j]
    ensures multiset(s)[x] <= 1
  {
    if s != [] {
      CountWithoutRepeats(s[1..], x);
      assert s == [s[0]] + s[1..];
      if s[0] == x {
        assert x !in s[1..] by {
          forall k | 0 <= k < |s[1..]| ensures s[1..][k] != x {
            assert s[1..][k] == s[k + 1];
          }
        }
      }
    }
  }

  /** Any reordering of a pool without repeats puts two different members first. */
  lemma FirstTwoDiffer(pool: seq<string>, shuffled: seq<string>)
    requires |pool| >= 2 && forall i, j | 0 <= i < j < |pool| :: pool[i] != pool[j]
    requires multiset(shuffled) == multiset(pool)
    ensures |shuffled| == |pool|
    ensures shuffled[0] in pool && shuffled[1] in pool && shuffled[0] != shuffled[1]
  {
    assert |shuffled| == |pool| by {
      assert |multiset(shuffled)| == |multiset(pool)|;
    }
    var a := shuffled[0];
    assert a in multiset(shuffled) && shuffled[1] in multiset(shuffled);
    if a == shuffled[1] {
      assert shuffled == [a, a] + shuffled[2..];
      CountWithoutRepeats(pool, a);
    }
  }

  lemma EnhancedPromptOfTwo(prompt: JsStr, shuffled: seq<string>)
    requires |shuffled| >= 2
    ensures EnhancedPrompt(prompt, shuffled) == prompt + CommaSpace + Js(shuffled[0]) + CommaSpace + Js(shuffled[1])
  {
    var picked := seq(2, k requires 0 <= k < 2 => Js(shuffled[k]));
    assert Join(picked[1..]) == Js(shuffled[1]);
  }

  /** Drawing from any reordering of a pool without repeats appends two different members of the pool. */
  lemma DrawTwo(prompt: JsStr, pool: seq<string>, shuffled: seq<string>)
    requires |pool| >= 2 && forall i, j | 0 <= i < j < |pool| :: pool[i] != pool[j]
    requires multiset(shuffled) == multiset(pool)
    ensures exists i, j | 0 <= i < |pool| && 0 <= j < |pool| && i != j ::
              EnhancedPrompt(prompt, shuffled) == prompt + CommaSpace + Js(pool[i]) + CommaSpace + Js(pool[j])
    ensures |EnhancedPrompt(prompt, shuffled)| > |prompt|
    ensures EnhancedPrompt(prompt, shuffled)[..|prompt|] == prompt
  {
    FirstTwoDiffer(pool, shuffled);
    EnhancedPromptOfTwo(prompt, shuffled);
    var i :| 0 <= i < |pool| && pool[i] == shuffled[0];
    var j :| 0 <= j < |pool| && pool[j] == shuffled[1];
    var r := EnhancedPrompt(prompt, shuffled);
    assert r[..|prompt|] == prompt;
  }

  /**
   * Whatever order the sort leaves, the new prompt is the old one, ", ", one
   * enhancer, ", " and a different enhancer. Nothing checks whether the
   * prompt already holds them, so every press makes the prompt longer.
   */
  lemma EnhancedPromptFacts(prompt: JsStr, shuffled: seq<string>)
    requires multiset(shuffled) == multiset(Enhancers)
    ensures exists i, j | 0 <= i < |Enhancers| && 0 <= j < |Enhancers| && i != j ::
              EnhancedPrompt(prompt, shuffled) ==
                prompt + CommaSpace + Js(Enhancers[i]) + CommaSpace + Js(Enhancers[j])
    ensures |EnhancedPrompt(prompt, shuffled)| > |prompt|
    ensures EnhancedPrompt(prompt, shuffled)[..|prompt|] == prompt
  {
    EnhancersDistinct();
    DrawTwo(prompt, Enhancers, shuffled);
  }

  /**
   * Four of the enhancers are also quality modifiers of the enhancer
   * dialog, but "8k resolution" differs from the dialog's "8K resolution"
   * in case, so the substring check there does not see it.
   */
  lemma EnhancersAgainstQualityModifiers()
    ensures forall i | 0 <= i < 4 :: Enhancers[i] in PromptSuggestionsData.QualityModifiers
    ensures Enhancers[4] !in PromptSuggestionsData.QualityModifiers
    ensures "8K resolution" in PromptSuggestionsData.QualityModifiers
  {
    assert PromptSuggestionsData.QualityModifiers[1] == "8K resolution";
  }
}
