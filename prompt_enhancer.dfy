/**
 * The prompt enhancer dialog (components/prompt-enhancer.tsx): a working
 * copy of the prompt that style and quality modifiers are appended to,
 * handed back to the parent only on Apply.
 */
module PromptEnhancer {
  import opened JsString

  /** The updater passed to setWorkingPrompt: a blank prompt becomes the modifier, any other gains ", " and it. */
  function WithModifier(prev: JsStr, modifier: JsStr): JsStr {
    if Trim(prev) == [] then modifier else prev + CommaSpace + modifier
  }

  /** `applyModifier(modifier)` on the working prompt: nothing when the modifier already occurs in it. */
  function ApplyModifier(working: JsStr, modifier: JsStr): JsStr {
    if Contains(working, modifier) then working else WithModifier(working, modifier)
  }

  lemma ContainsItself(s: JsStr)
    ensures Contains(s, s)
  {
    assert OccursAt(s, s, 0);
  }

  lemma ContainsAtEnd(a: JsStr, sub: JsStr)
    ensures Contains(a + sub, sub)
  {
    assert (a + sub)[|a|..|a| + |sub|] == sub;
    assert OccursAt(a + sub, sub, |a|);
  }

  /** An occurrence survives appending. */
  lemma ContainsExtend(a: JsStr, b: JsStr, sub: JsStr)
    requires Contains(a, sub)
    ensures Contains(a + b, sub)
  {
    var i :| 0 <= i <= |a| - |sub| && OccursAt(a, sub, i);
    assert (a + b)[i..i + |sub|] == a[i..i + |sub|];
    assert OccursAt(a + b, sub, i);
  }

  /**
   * After applyModifier the working prompt contains the modifier; it is
   * unchanged when the modifier already occurred, exactly the modifier when
   * it was blank, and otherwise the old prompt, ", " and the modifier, so the
   * old prompt is a prefix.
   */
  lemma ApplyModifierFacts(working: JsStr, modifier: JsStr)
    ensures Contains(ApplyModifier(working, modifier), modifier)
    ensures Contains(working, modifier) ==> ApplyModifier(working, modifier) == working
    ensures !Contains(working, modifier) && IsBlank(working) ==> ApplyModifier(working, modifier) == modifier
    ensures !Contains(working, modifier) && !IsBlank(working) ==>
              ApplyModifier(working, modifier) == working + CommaSpace + modifier
  {
    TrimEmptyIffBlank(working);
    if !Contains(working, modifier) {
      if IsBlank(working) {
        ContainsItself(modifier);
      } else {
        ContainsAtEnd(working + CommaSpace, modifier);
      }
    }
  }

  /** Applying the same modifier twice is applying it once. */
  lemma ApplyModifierIdempotent(working: JsStr, modifier: JsStr)
    ensures ApplyModifier(ApplyModifier(working, modifier), modifier) == ApplyModifier(working, modifier)
  {
    ApplyModifierFacts(working, modifier);
  }

  /** A dialog session: the modifiers clicked, in order. */
  function ApplyAll(working: JsStr, modifiers: seq<JsStr>): JsStr
    decreases |modifiers|
  {
    if modifiers == [] then working
    else ApplyAll(ApplyModifier(working, modifiers[0]), modifiers[1..])
  }

  /** On a non-blank prompt one step keeps the prompt as a prefix, so the result is non-blank too. */
  lemma StepKeepsPrefix(working: JsStr, modifier: JsStr)
    requires !IsBlank(working)
    ensures var next := ApplyModifier(working, modifier);
            && |working| <= |next| && next[..|working|] == working && !IsBlank(next)
  {
    var next := ApplyModifier(working, modifier);
    ApplyModifierFacts(working, modifier);
    assert next[..|working|] == working;
    var i :| 0 <= i < |working| && !IsWhiteSpace(working[i]);
    assert next[i] == working[i];
  }

  /** A session never loses an occurrence: every step keeps its input as a prefix. */
  lemma {:induction false} ContainedStays(working: JsStr, modifiers: seq<JsStr>, sub: JsStr)
    requires !IsBlank(working) && Contains(working, sub)
    ensures Contains(ApplyAll(working, modifiers), sub)
    decreases |modifiers|
  {
    if modifiers != [] {
      var next := ApplyModifier(working, modifiers[0]);
      StepKeepsPrefix(working, modifiers[0]);
      assert next == working + next[|working|..];
      ContainsExtend(working, next[|working|..], sub);
      ContainedStays(next, modifiers[1..], sub);
    }
  }

  /** Starting from a non-blank prompt, a session keeps the prompt as a prefix. */
  lemma {:induction false} ApplyAllPrefix(working: JsStr, modifiers: seq<JsStr>)
    requires !IsBlank(working)
    ensures |working| <= |ApplyAll(working, modifiers)|
    ensures ApplyAll(working, modifiers)[..|working|] == working
    decreases |modifiers|
  {
    if modifiers != [] {
      var next := ApplyModifier(working, modifiers[0]);
      StepKeepsPrefix(working, modifiers[0]);
      ApplyAllPrefix(next, modifiers[1..]);
      var r := ApplyAll(next, modifiers[1..]);
      assert r[..|working|] == r[..|next|][..|working|];
    }
  }

  /** A session ends with every clicked modifier somewhere in the result. */
  lemma {:induction false} ApplyAllContains(working: JsStr, modifiers: seq<JsStr>)
    requires !IsBlank(working)
    ensures forall k | 0 <= k < |modifiers| :: Contains(ApplyAll(working, modifiers), modifiers[k])
    decreases |modifiers|
  {
    if modifiers != [] {
      var next := ApplyModifier(working, modifiers[0]);
      StepKeepsPrefix(working, modifiers[0]);
      ApplyModifierFacts(working, modifiers[0]);
      ApplyAllContains(next, modifiers[1..]);
      ContainedStays(next, modifiers[1..], modifiers[0]);
      forall k | 1 <= k < |modifiers|
        ensures Contains(ApplyAll(working, modifiers), modifiers[k])
      {
        assert modifiers[k] == modifiers[1..][k - 1];
      }
    }
  }

  /** The dialog's state. */
  class PromptEnhancer {
    var open: bool
    var workingPrompt: JsStr

    constructor()
      ensures !open && workingPrompt == []
    {
      open := false;
      workingPrompt := [];
    }

    /** The trigger button is disabled while the parent's prompt is empty. */
    static predicate CanOpen(prompt: JsStr) {
      prompt != []
    }

    /** `openDialog()`: the working copy starts as the parent's prompt. */
    method OpenDialog(prompt: JsStr)
      modifies this
      ensures open && workingPrompt == prompt
    {
      workingPrompt := prompt;
      open := true;
    }

    /** `applyModifier(modifier)` */
    method ApplyModifierClick(modifier: JsStr)
      modifies this
      ensures workingPrompt == ApplyModifier(old(workingPrompt), modifier)
      ensures open == old(open)
    {
      if Contains(workingPrompt, modifier) {
        return;
      }
      workingPrompt := WithModifier(workingPrompt, modifier);
    }

    /** `applyEnhancedPrompt()`: returns the value passed to `onPromptChange`, the working copy. */
    method ApplyEnhancedPrompt() returns (newPrompt: JsStr)
      modifies this
      ensures newPrompt == workingPrompt == old(workingPrompt)
      ensures !open
    {
      newPrompt := workingPrompt;
      open := false;
    }

    /** The Cancel button: closes the dialog; `onPromptChange` is not called. */
    method Cancel()
      modifies this
      ensures !open && workingPrompt == old(workingPrompt)
    {
      open := false;
    }
  }
}
