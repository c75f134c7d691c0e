/**
 * The suggestion list (components/prompt-suggestions.tsx): a category
 * selection and the suggestions it shows, filtered in table order.
 */
module PromptSuggestions {
  import opened Wrappers
  import opened JsString
  import opened PromptSuggestionsData

  /** `table.filter((s) => s.categories.includes(category))` */
  function FilterByCategory(table: seq<Suggestion>, category: string): (r: seq<Suggestion>)
    ensures |r| <= |table|
    ensures forall s :: s in r <==> s in table && category in s.categories
  {
    if table == [] then []
    else if category in table[0].categories then [table[0]] + FilterByCategory(table[1..], category)
    else FilterByCategory(table[1..], category)
  }

  /** `filteredSuggestions`: the whole table when no category (or the falsy empty string) is selected. */
  function Filtered(table: seq<Suggestion>, selected: Option<string>): seq<Suggestion> {
    if selected.None? || selected.value == "" then table else FilterByCategory(table, selected.value)
  }

  /** `a` is `b` with some elements left out, the rest in their order. */
  predicate IsSubsequence<T(==)>(a: seq<T>, b: seq<T>)
    decreases |b|
  {
    if a == [] then true
    else if b == [] then false
    else if a[0] == b[0] then IsSubsequence(a[1..], b[1..])
    else IsSubsequence(a, b[1..])
  }

  /** The filtered list keeps the table's order: it is a subsequence of it. */
  lemma {:induction false} FilterIsSubsequence(table: seq<Suggestion>, category: string)
    ensures IsSubsequence(FilterByCategory(table, category), table)
  {
    if table != [] {
      FilterIsSubsequence(table[1..], category);
      var r := FilterByCategory(table, category);
      if category !in table[0].categories {
        SkipHead(r, table);
      }
    }
  }

  /** A subsequence of the tail is a subsequence of the whole. */
  lemma {:induction false} SkipHead<T>(a: seq<T>, b: seq<T>)
    requires b != [] && IsSubsequence(a, b[1..])
    ensures IsSubsequence(a, b)
    decreases |b|, 0
  {
    if a != [] && a[0] == b[0] {
      SubsequenceOfTail(a, b[1..]);
    }
  }

  /** Dropping the first element of a subsequence keeps it a subsequence. */
  lemma {:induction false} SubsequenceOfTail<T>(a: seq<T>, b: seq<T>)
    requires a != [] && IsSubsequence(a, b)
    ensures IsSubsequence(a[1..], b)
    decreases |b|, 1
  {
    if a[0] == b[0] {
      SkipHead(a[1..], b);
    } else {
      SubsequenceOfTail(a, b[1..]);
      SkipHead(a[1..], b);
    }
  }

  /** Filtering distributes over concatenation. */
  lemma {:induction false} FilterAppend(a: seq<Suggestion>, b: seq<Suggestion>, category: string)
    ensures FilterByCategory(a + b, category) == FilterByCategory(a, category) + FilterByCategory(b, category)
  {
    if a == [] {
      assert a + b == b;
    } else {
      assert (a + b)[1..] == a[1..] + b;
      FilterAppend(a[1..], b, category);
    }
  }

  /** Each suggestion with the category is kept as often as it occurs, every other one is dropped. */
  lemma {:induction false} FilterCounts(table: seq<Suggestion>, category: string, s: Suggestion)
    ensures multiset(FilterByCategory(table, category))[s] == if category in s.categories then multiset(table)[s] else 0
  {
    if table != [] {
      FilterCounts(table[1..], category, s);
      assert table == [table[0]] + table[1..];
    }
  }

  /** When every suggestion has the category the filter keeps them all, so filtering twice is filtering once. */
  lemma {:induction false} FilterKeepsAll(table: seq<Suggestion>, category: string)
    requires forall k | 0 <= k < |table| :: category in table[k].categories
    ensures FilterByCategory(table, category) == table
  {
    if table != [] {
      FilterKeepsAll(table[1..], category);
    }
  }

  lemma FilterIdempotent(table: seq<Suggestion>, category: string)
    ensures FilterByCategory(FilterByCategory(table, category), category) == FilterByCategory(table, category)
  {
    var r := FilterByCategory(table, category);
    forall k | 0 <= k < |r|
      ensures category in r[k].categories
    {
      assert r[k] in r;
    }
    FilterKeepsAll(r, category);
  }

  /**
   * With no category selected the whole table shows, in order; with one
   * selected, exactly the suggestions naming it show, in table order.
   */
  lemma FilteredFacts(table: seq<Suggestion>, selected: Option<string>)
    ensures selected.None? ==> Filtered(table, selected) == table
    ensures IsSubsequence(Filtered(table, selected), table)
    ensures selected.Some? && selected.value != "" ==>
              forall s :: s in Filtered(table, selected) <==> s in table && selected.value in s.categories
  {
    if selected.None? || selected.value == "" {
      SubsequenceOfItself(table);
    } else {
      FilterIsSubsequence(table, selected.value);
    }
  }

  lemma {:induction false} SubsequenceOfItself<T>(s: seq<T>)
    ensures IsSubsequence(s, s)
  {
    if s != [] {
      SubsequenceOfItself(s[1..]);
    }
  }

  /** Every category badge shows at least one suggestion. */
  lemma BadgesNeverEmpty(category: string)
    requires category in PromptCategories
    ensures Filtered(PromptSuggestions, Some(category)) != []
  {
    EveryCategoryUsed();
    var k :| 0 <= k < |PromptSuggestions| && category in PromptSuggestions[k].categories;
    assert PromptSuggestions[k] in PromptSuggestions;
    assert category != "" by {
      CategoriesNonEmpty();
    }
  }

  lemma CategoriesNonEmpty()
    ensures forall c | c in PromptCategories :: c != ""
  {
  }

  /** The component's state: the selected category, null for All. */
  class PromptSuggestionsView {
    var selectedCategory: Option<string>

    constructor()
      ensures selectedCategory.None?
    {
      selectedCategory := None;
    }

    function Visible(): seq<Suggestion>
      reads this
    {
      Filtered(PromptSuggestions, selectedCategory)
    }

    /** The All badge. */
    method SelectAll()
      modifies this
      ensures selectedCategory.None? && Visible() == PromptSuggestions
    {
      selectedCategory := None;
    }

    /** A category badge. */
    method SelectCategory(category: string)
      modifies this
      ensures selectedCategory == Some(category)
    {
      selectedCategory := Some(category);
    }

    /**
     * Clicking the `index`-th shown suggestion: the text passed to
     * `onSelectSuggestion`, as the JavaScript string the prompt field holds.
     */
    method ClickSuggestion(index: nat) returns (prompt: JsStr)
      requires index < |Visible()|
      ensures prompt == Js(Visible()[index].prompt)
      ensures exists k | 0 <= k < |PromptSuggestions| :: Js(PromptSuggestions[k].prompt) == prompt
      ensures selectedCategory.Some? && selectedCategory.value != "" ==>
                selectedCategory.value in Visible()[index].categories
    {
      FilteredFacts(PromptSuggestions, selectedCategory);
      var shown := Visible();
      prompt := Js(shown[index].prompt);
      assert shown[index] in shown;
    }
  }
}
