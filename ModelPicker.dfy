// The model picker of the chat toolbar
// (src/components/chat/input/toolbar/model-popover.tsx): hiding and
// reordering models, the search filter, and the keyboard state machine that
// moves the highlight and selects a model. The visible and ordered model
// lists come from the models hook and are parameters here.

module ModelPicker {
  import opened Strings
  import opened Seqs
  import opened PathSets

  datatype Model = Model(modelName: string, modelLabel: string)

  /** The stored preferences: the user's order of model names and the hidden names. */
  datatype ModelPreferences = ModelPreferences(order: seq<string>, hidden: seq<string>)

  /** `handleToggleVisibility`: a hidden name is shown again (every copy goes), any other is hidden. */
  function ToggleVisibility(prefs: ModelPreferences, modelName: string): (r: ModelPreferences)
    ensures r.order == prefs.order
    ensures modelName in r.hidden <==> modelName !in prefs.hidden
    ensures forall x :: x != modelName ==> (x in r.hidden <==> x in prefs.hidden)
  {
    if modelName in prefs.hidden then
      WithoutMembers(prefs.hidden, {modelName}, modelName);
      forall x ensures x in Without(prefs.hidden, {modelName}) <==> x in prefs.hidden && x != modelName {
        WithoutMembers(prefs.hidden, {modelName}, x);
      }
      prefs.(hidden := Without(prefs.hidden, {modelName}))
    else prefs.(hidden := prefs.hidden + [modelName])
  }

  /** Two toggles of one name leave every name hidden or shown as before. */
  lemma ToggleVisibilityTwice(prefs: ModelPreferences, modelName: string, x: string)
    ensures x in ToggleVisibility(ToggleVisibility(prefs, modelName), modelName).hidden <==> x in prefs.hidden
  {
  }

  /** The index `findIndex` gives, or -1 when no model has the name. */
  function IndexOfName(names: seq<string>, name: string): (r: int)
    ensures -1 <= r < |names|
    ensures r >= 0 ==> names[r] == name && forall j :: 0 <= j < r ==> names[j] != name
    ensures r == -1 <==> name !in names
  {
    if names == [] then -1
    else if names[0] == name then 0
    else
      var k := IndexOfName(names[1..], name);
      if k == -1 then -1 else k + 1
  }

  /**
   * Where `arrayMove` puts the dragged model: the index of the model it is
   * dropped on, or, with no listed model under the cursor (`findIndex`
   * gives -1), the last index: `arrayMove` reads `length + to` before it
   * takes the item out.
   */
  function DropIndex(names: seq<string>, overId: Option<string>): (r: nat)
    requires names != []
    ensures r < |names|
    ensures overId.Some? && overId.value in names ==> r == IndexOfName(names, overId.value)
    ensures overId.None? || overId.value !in names ==> r == |names| - 1
  {
    var newIndex := if overId.Some? then IndexOfName(names, overId.value) else -1;
    if newIndex >= 0 then newIndex else |names| - 1
  }

  /**
   * `handleDragEnd`: nothing when the drag ends over the item it started
   * from; otherwise the dragged model stands at the drop index and the
   * others keep their order.
   */
  function DragEnd(names: seq<string>, activeId: string, overId: Option<string>): (r: Option<seq<string>>)
    requires activeId in names
    ensures r.None? <==> overId == Some(activeId)
    ensures r.Some? ==> multiset(r.value) == multiset(names)
    ensures r.Some? ==> |r.value| == |names| && r.value[DropIndex(names, overId)] == activeId
                        && RemoveAt(r.value, DropIndex(names, overId)) == RemoveAt(names, IndexOfName(names, activeId))
  {
    if overId == Some(activeId) then None
    else Some(Move(names, IndexOfName(names, activeId), DropIndex(names, overId)))
  }

  /** Dropping on another listed model puts the dragged model at that model's old index, the others in order. */
  lemma DragEndOverItem(names: seq<string>, activeId: string, overId: string)
    requires activeId in names && overId in names && activeId != overId
    ensures var r := DragEnd(names, activeId, Some(overId));
            var to := IndexOfName(names, overId);
            r.Some? && r.value[to] == activeId
            && RemoveAt(r.value, to) == RemoveAt(names, IndexOfName(names, activeId))
  {
  }

  /** Dropping where no listed model is puts the dragged model last, the others in order. */
  lemma DragEndOverNothing(names: seq<string>, activeId: string, overId: Option<string>)
    requires activeId in names && (overId.None? || overId.value !in names)
    ensures DragEnd(names, activeId, overId) == Some(RemoveAt(names, IndexOfName(names, activeId)) + [activeId])
  {
    var r := DragEnd(names, activeId, overId).value;
    var rest := RemoveAt(names, IndexOfName(names, activeId));
    assert RemoveAt(r, |names| - 1) == r[..|names| - 1];
    assert r == r[..|names| - 1] + [r[|names| - 1]];
  }

  predicate Distinct(names: seq<string>) {
    forall i, j :: 0 <= i < j < |names| ==> names[i] != names[j]
  }

  lemma IndexOfDistinct(names: seq<string>, i: nat)
    requires Distinct(names) && i < |names|
    ensures IndexOfName(names, names[i]) == i
  {
  }

  /**
   * With distinct names, dragging the model back over the model now at its
   * old index restores the old order.
   */
  lemma DragBackRestores(names: seq<string>, activeId: string, overId: string)
    requires Distinct(names) && activeId in names && overId in names && activeId != overId
    ensures var from := IndexOfName(names, activeId);
            var moved := DragEnd(names, activeId, Some(overId)).value;
            DragEnd(moved, activeId, Some(moved[from])) == Some(names)
  {
    var from := IndexOfName(names, activeId);
    var to := IndexOfName(names, overId);
    var moved := DragEnd(names, activeId, Some(overId)).value;
    DragForward(names, activeId, overId, from, to, moved);
    DragBackStep(moved, activeId, from, to);
    MoveInverse(names, from, to);
  }

  lemma DragForward(names: seq<string>, activeId: string, overId: string, from: nat, to: nat, moved: seq<string>)
    requires Distinct(names) && activeId in names && overId in names && activeId != overId
    requires from == IndexOfName(names, activeId) && to == IndexOfName(names, overId)
    requires moved == DragEnd(names, activeId, Some(overId)).value
    ensures moved == Move(names, from, to) && Distinct(moved)
    ensures from < |moved| && to < |moved| && from != to && moved[to] == activeId
  {
    MovedDistinct(names, from, to);
  }

  lemma MovedDistinct(names: seq<string>, from: nat, to: nat)
    requires Distinct(names) && from < |names| && to < |names|
    ensures Distinct(Move(names, from, to))
  {
    RemoveAtDistinct(names, from);
    InsertAtDistinct(RemoveAt(names, from), to, names[from]);
  }

  lemma DragBackStep(moved: seq<string>, activeId: string, from: nat, to: nat)
    requires Distinct(moved) && from < |moved| && to < |moved| && from != to && moved[to] == activeId
    ensures DragEnd(moved, activeId, Some(moved[from])) == Some(Move(moved, to, from))
  {
    IndexOfDistinct(moved, to);
    IndexOfDistinct(moved, from);
  }

  lemma RemoveAtDistinct(names: seq<string>, i: nat)
    requires Distinct(names) && i < |names|
    ensures Distinct(RemoveAt(names, i)) && names[i] !in RemoveAt(names, i)
  {
    var r := RemoveAt(names, i);
    forall a, b | 0 <= a < b < |r| ensures r[a] != r[b] {
      assert r[a] == names[if a < i then a else a + 1];
      assert r[b] == names[if b < i then b else b + 1];
    }
    forall a | 0 <= a < |r| ensures r[a] != names[i] {
      assert r[a] == names[if a < i then a else a + 1];
    }
  }

  lemma InsertAtDistinct(names: seq<string>, i: nat, x: string)
    requires Distinct(names) && i <= |names| && x !in names
    ensures Distinct(InsertAt(names, i, x))
  {
    var r := InsertAt(names, i, x);
    forall a, b | 0 <= a < b < |r| ensures r[a] != r[b] {
      if a != i && b != i {
        assert r[a] == names[if a < i then a else a - 1];
        assert r[b] == names[if b < i then b else b - 1];
      } else if a == i {
        assert r[b] == names[b - 1];
      } else {
        assert r[a] == names[a];
      }
    }
  }

  /** A model matches when its name or label contains the query, ignoring case. */
  predicate MatchesQuery(m: Model, query: string) {
    Contains(ToLower(m.modelName), ToLower(query)) || Contains(ToLower(m.modelLabel), ToLower(query))
  }

  /** `filteredModels`: the visible models matching the search, in order. */
  function FilteredModels(models: seq<Model>, query: string): (r: seq<Model>)
    ensures |r| <= |models|
    ensures forall m :: m in r <==> m in models && MatchesQuery(m, query)
  {
    if models == [] then []
    else (if MatchesQuery(models[0], query) then [models[0]] else []) + FilteredModels(models[1..], query)
  }

  /**
   * Filtering keeps the order: the models of a list made of two parts are
   * the first part's matches followed by the second's.
   */
  lemma {:induction false} FilteredModelsAppend(a: seq<Model>, b: seq<Model>, query: string)
    ensures FilteredModels(a + b, query) == FilteredModels(a, query) + FilteredModels(b, query)
    decreases |a|
  {
    if a != [] {
      var x := a[0];
      var keep := if MatchesQuery(x, query) then [x] else [];
      assert (a + b)[0] == x && (a + b)[1..] == a[1..] + b;
      FilteredModelsAppend(a[1..], b, query);
      assert FilteredModels(a + b, query) == keep + FilteredModels(a[1..] + b, query);
      assert FilteredModels(a, query) == keep + FilteredModels(a[1..], query);
    } else {
      assert a + b == b;
    }
  }

  /** A single model is shown exactly when it matches. */
  lemma FilteredModelsSingle(m: Model, query: string)
    ensures FilteredModels([m], query) == if MatchesQuery(m, query) then [m] else []
  {
    assert [m][1..] == [];
  }

  /** An empty search shows every visible model. */
  lemma {:induction false} EmptyQueryShowsAll(models: seq<Model>)
    ensures FilteredModels(models, "") == models
  {
    if models != [] {
      assert OccursAt(ToLower(models[0].modelName), ToLower(""), 0);
      EmptyQueryShowsAll(models[1..]);
      assert models == [models[0]] + models[1..];
    }
  }

  /** ArrowDown: the next index, wrapping from the last (or beyond) to 0. */
  function NextIndex(highlighted: int, count: nat): (r: int)
    ensures count > 0 && -1 <= highlighted ==> 0 <= r < count
    ensures 0 <= highlighted < count - 1 ==> r == highlighted + 1
  {
    if highlighted < count - 1 then highlighted + 1 else 0
  }

  /** ArrowUp: the previous index, wrapping from 0 or -1 to the last. */
  function PrevIndex(highlighted: int, count: nat): (r: int)
    ensures count > 0 && highlighted < count ==> 0 <= r < count
    ensures 0 < highlighted ==> r == highlighted - 1
  {
    if highlighted > 0 then highlighted - 1 else count - 1
  }

  /** Over a non-empty list ArrowUp undoes ArrowDown and the other way round. */
  lemma ArrowKeysAreInverse(highlighted: int, count: nat)
    requires 0 <= highlighted < count
    ensures PrevIndex(NextIndex(highlighted, count), count) == highlighted
    ensures NextIndex(PrevIndex(highlighted, count), count) == highlighted
  {
  }

  /** From nothing highlighted, ArrowDown highlights the first model and ArrowUp the last. */
  lemma ArrowKeysFromNothing(count: nat)
    requires count > 0
    ensures NextIndex(-1, count) == 0 && PrevIndex(-1, count) == count - 1
  {
  }

  /** A key press: Ctrl+M, Alt with the number `parseInt` reads from the key, or a plain key. */
  datatype Key =
    | CtrlM
    | AltKey(digit: Option<int>, repeat: bool)
    | ArrowDown | ArrowUp | Enter | Escape
    | OtherKey

  class ModelPopover {
    const visibleModels: seq<Model>
    var preferences: ModelPreferences
    var searchModel: string
    var popoverOpen: bool
    var highlightedIndex: int
    /** The models chosen, oldest first (set on a new chat or sent to the chat update). */
    var chosen: seq<string>

    constructor (visibleModels: seq<Model>, preferences: ModelPreferences)
      ensures this.visibleModels == visibleModels && this.preferences == preferences
      ensures searchModel == "" && !popoverOpen && highlightedIndex == -1 && chosen == []
      ensures Valid()
    {
      this.visibleModels := visibleModels;
      this.preferences := preferences;
      searchModel := "";
      popoverOpen := false;
      highlightedIndex := -1;
      chosen := [];
    }

    function Filtered(): seq<Model>
      reads this
    {
      FilteredModels(visibleModels, searchModel)
    }

    /** While open, the highlight is -1 or an index of the list (or 0 of an empty one). */
    predicate Valid()
      reads this
    {
      popoverOpen ==> -1 <= highlightedIndex < (if |Filtered()| == 0 then 1 else |Filtered()|)
    }

    /** `handleModelSelect`: the model is chosen, the popover closes and the highlight is cleared. */
    method HandleModelSelect(modelName: string)
      modifies this
      ensures chosen == old(chosen) + [modelName]
      ensures !popoverOpen && highlightedIndex == -1
      ensures searchModel == old(searchModel) && preferences == old(preferences)
      ensures Valid()
    {
      chosen := chosen + [modelName];
      popoverOpen := false;
      highlightedIndex := -1;
    }

    /** `selectModelByIndex`: an index past the filtered list does nothing. */
    method SelectModelByIndex(index: nat)
      modifies this
      ensures index >= |old(Filtered())| ==> chosen == old(chosen) && popoverOpen == old(popoverOpen)
                                               && highlightedIndex == old(highlightedIndex)
      ensures index < |old(Filtered())| ==> chosen == old(chosen) + [old(Filtered())[index].modelName]
                                              && !popoverOpen && highlightedIndex == -1
      ensures searchModel == old(searchModel) && preferences == old(preferences)
    {
      var filtered := Filtered();
      if index >= |filtered| {
        return;
      }
      HandleModelSelect(filtered[index].modelName);
    }

    /** The popover opens or closes; opening clears the highlight. */
    method SetPopoverOpen(open: bool)
      modifies this
      ensures popoverOpen == open && searchModel == old(searchModel) && chosen == old(chosen)
      ensures preferences == old(preferences)
      ensures open && !old(popoverOpen) ==> highlightedIndex == -1
      ensures !(open && !old(popoverOpen)) ==> highlightedIndex == old(highlightedIndex)
      ensures old(Valid()) ==> Valid()
    {
      var changed := popoverOpen != open;
      popoverOpen := open;
      if changed && popoverOpen {
        highlightedIndex := -1;
      }
    }

    /** The search text changes; while open, a change clears the highlight. */
    method SetSearch(text: string)
      modifies this
      ensures searchModel == text && popoverOpen == old(popoverOpen) && chosen == old(chosen)
      ensures preferences == old(preferences)
      ensures popoverOpen && text != old(searchModel) ==> highlightedIndex == -1
      ensures !(popoverOpen && text != old(searchModel)) ==> highlightedIndex == old(highlightedIndex)
      ensures old(Valid()) ==> Valid()
    {
      var changed := searchModel != text;
      searchModel := text;
      if changed && popoverOpen {
        highlightedIndex := -1;
      }
    }

    /** `handleKeyDown` */
    method HandleKeyDown(key: Key)
      requires Valid()
      modifies this
      ensures Valid()
      ensures searchModel == old(searchModel) && preferences == old(preferences)
      ensures key == CtrlM ==> popoverOpen == !old(popoverOpen) && chosen == old(chosen)
      ensures key.AltKey? && !key.repeat && key.digit.Some? && key.digit.value >= 1
              && key.digit.value - 1 < |old(Filtered())| ==>
                chosen == old(chosen) + [old(Filtered())[key.digit.value - 1].modelName] && !popoverOpen
      ensures (key == ArrowDown || key == ArrowUp || key == Escape) ==> chosen == old(chosen)
      ensures old(popoverOpen) && key == ArrowDown ==> highlightedIndex == NextIndex(old(highlightedIndex), |old(Filtered())|)
      ensures old(popoverOpen) && key == ArrowUp ==> highlightedIndex == PrevIndex(old(highlightedIndex), |old(Filtered())|)
      ensures key == Enter && old(popoverOpen) && 0 <= old(highlightedIndex) < |old(Filtered())| ==>
                chosen == old(chosen) + [old(Filtered())[old(highlightedIndex)].modelName]
      ensures key == Enter && !(old(popoverOpen) && 0 <= old(highlightedIndex) < |old(Filtered())|) ==>
                chosen == old(chosen)
      ensures old(popoverOpen) && key == Escape ==> !popoverOpen && highlightedIndex == -1
      ensures !old(popoverOpen) && !key.CtrlM? && !key.AltKey? ==>
                popoverOpen == old(popoverOpen) && highlightedIndex == old(highlightedIndex) && chosen == old(chosen)
    {
      if key == CtrlM {
        SetPopoverOpen(!popoverOpen);
      } else if key.AltKey? {
        if !key.repeat && key.digit.Some? && key.digit.value >= 1 {
          SelectModelByIndex(key.digit.value - 1);
        }
      } else if !popoverOpen {
        return;
      } else if key == ArrowDown {
        highlightedIndex := NextIndex(highlightedIndex, |Filtered()|);
      } else if key == ArrowUp {
        highlightedIndex := PrevIndex(highlightedIndex, |Filtered()|);
      } else if key == Enter {
        if highlightedIndex >= 0 && highlightedIndex < |Filtered()| {
          HandleModelSelect(Filtered()[highlightedIndex].modelName);
        }
      } else if key == Escape {
        popoverOpen := false;
        highlightedIndex := -1;
      }
    }

    /** `handleToggleVisibility` on the stored preferences. */
    method HandleToggleVisibility(modelName: string)
      modifies this
      ensures preferences == ToggleVisibility(old(preferences), modelName)
      ensures searchModel == old(searchModel) && popoverOpen == old(popoverOpen)
      ensures highlightedIndex == old(highlightedIndex) && chosen == old(chosen)
    {
      preferences := ToggleVisibility(preferences, modelName);
    }

    /** `handleDragEnd` followed by `handleReorderModels`: the stored order becomes the moved names. */
    method HandleDragEnd(orderedNames: seq<string>, activeId: string, overId: Option<string>)
      requires activeId in orderedNames
      modifies this
      ensures DragEnd(orderedNames, activeId, overId).None? ==> preferences == old(preferences)
      ensures DragEnd(orderedNames, activeId, overId).Some? ==>
                preferences == old(preferences).(order := DragEnd(orderedNames, activeId, overId).value)
      ensures searchModel == old(searchModel) && popoverOpen == old(popoverOpen)
      ensures highlightedIndex == old(highlightedIndex) && chosen == old(chosen)
    {
      var newOrder := DragEnd(orderedNames, activeId, overId);
      if newOrder.Some? {
        preferences := preferences.(order := newOrder.value);
      }
    }
  }
}
