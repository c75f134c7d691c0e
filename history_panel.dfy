/**
 * The history panel (components/history-panel.tsx): clearing the stored
 * history after confirmation, deleting the entries with a given id, and
 * the guard that forwards a selection only when it changes.
 */
module HistoryPanel {
  import opened Wrappers
  import opened JsString
  import opened ImageTypes

  /** `history.filter((item) => item.id !== id)` */
  function DeleteById(history: seq<ImageHistory>, id: JsStr): (r: seq<ImageHistory>)
    ensures |r| <= |history|
    ensures forall e :: e in r <==> e in history && e.id != id
  {
    if history == [] then []
    else if history[0].id == id then DeleteById(history[1..], id)
    else [history[0]] + DeleteById(history[1..], id)
  }

  /** Deleting distributes over concatenation, so the kept entries keep their order. */
  lemma {:induction false} DeleteAppend(a: seq<ImageHistory>, b: seq<ImageHistory>, id: JsStr)
    ensures DeleteById(a + b, id) == DeleteById(a, id) + DeleteById(b, id)
  {
    if a == [] {
      assert a + b == b;
    } else {
      assert (a + b)[1..] == a[1..] + b;
      DeleteAppend(a[1..], b, id);
    }
  }

  /** Every entry with the id is removed and every other entry kept as often as it occurred. */
  lemma {:induction false} DeleteCounts(history: seq<ImageHistory>, id: JsStr, e: ImageHistory)
    ensures multiset(DeleteById(history, id))[e] == if e.id == id then 0 else multiset(history)[e]
  {
    if history != [] {
      DeleteCounts(history[1..], id, e);
      assert history == [history[0]] + history[1..];
    }
  }

  /** When no entry has the id the list is unchanged, so deleting twice is deleting once. */
  lemma {:induction false} DeleteAbsent(history: seq<ImageHistory>, id: JsStr)
    requires forall i | 0 <= i < |history| :: history[i].id != id
    ensures DeleteById(history, id) == history
  {
    if history != [] {
      DeleteAbsent(history[1..], id);
    }
  }

  lemma DeleteIdempotent(history: seq<ImageHistory>, id: JsStr)
    ensures DeleteById(DeleteById(history, id), id) == DeleteById(history, id)
  {
    var r := DeleteById(history, id);
    forall i | 0 <= i < |r|
      ensures r[i].id != id
    {
      assert r[i] in r;
    }
    DeleteAbsent(r, id);
  }

  /** The panel's state: its view of the stored history and the selected id. */
  datatype PanelState = PanelState(history: seq<ImageHistory>, selectedId: Option<JsStr>)

  /** `handleClearHistory`, with `confirmed` the answer to the confirmation prompt. */
  function Clear(s: PanelState, confirmed: bool): PanelState {
    if confirmed then s.(history := []) else s
  }

  /** `handleDeleteItem(id)` */
  function Delete(s: PanelState, id: JsStr): PanelState {
    s.(history := DeleteById(s.history, id))
  }

  /** `handleSelectHistory(item)`: the new state and the entry passed to the callback, if it is called. */
  function Select(s: PanelState, item: ImageHistory): (PanelState, Option<ImageHistory>) {
    if s.selectedId == Some(item.id) then (s, None)
    else (s.(selectedId := Some(item.id)), Some(item))
  }

  /** A confirmed clear empties the history, a declined one changes nothing; the selection stays. */
  lemma ClearFacts(s: PanelState, confirmed: bool)
    ensures Clear(s, confirmed).history == (if confirmed then [] else s.history)
    ensures Clear(s, confirmed).selectedId == s.selectedId
    ensures !confirmed ==> Clear(s, confirmed) == s
    ensures Clear(Clear(s, confirmed), confirmed) == Clear(s, confirmed)
  {
  }

  /**
   * Selecting sets the selected id and calls back exactly when the id
   * differs from the selected one; selecting the same entry again neither
   * changes the state nor calls back, so two clicks call back once.
   */
  lemma SelectFacts(s: PanelState, item: ImageHistory)
    ensures var (t, callback) := Select(s, item);
            && t.selectedId == Some(item.id) && t.history == s.history
            && (callback.Some? <==> s.selectedId != Some(item.id))
            && (callback.Some? ==> callback.value == item)
            && Select(t, item) == (t, None)
  {
  }

  /** The panel component. */
  class HistoryPanel {
    var history: seq<ImageHistory>
    var selectedId: Option<JsStr>

    function State(): PanelState
      reads this
    {
      PanelState(history, selectedId)
    }

    constructor(history: seq<ImageHistory>)
      ensures State() == PanelState(history, None)
    {
      this.history := history;
      selectedId := None;
    }

    method HandleClearHistory(confirmed: bool)
      modifies this
      ensures State() == Clear(old(State()), confirmed)
    {
      if confirmed {
        history := [];
      }
    }

    method HandleDeleteItem(id: JsStr)
      modifies this
      ensures State() == Delete(old(State()), id)
    {
      history := DeleteById(history, id);
    }

    /** Returns the entry passed to `onSelectHistory`, or None when it is not called. */
    method HandleSelectHistory(item: ImageHistory) returns (callback: Option<ImageHistory>)
      modifies this
      ensures (State(), callback) == Select(old(State()), item)
    {
      if selectedId == Some(item.id) {
        return None;
      }
      selectedId := Some(item.id);
      callback := Some(item);
    }
  }
}
