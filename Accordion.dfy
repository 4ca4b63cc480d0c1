// The accordion's open-item state (src/components/ui/accordion.tsx): the
// initial value, the set of expanded items, and `toggleItem` in single and
// multiple mode, controlled by the parent or holding its own state.

module Accordion {
  import opened Strings
  import opened PathSets

  datatype AccordionType = SingleType | MultipleType

  /** `string | string[]`: one open item (the empty text for none) or a list of them. */
  datatype AccordionValue = One(item: string) | Many(items: seq<string>)

  /** The `useState` initialiser: the controlled value, else the default, else nothing open. */
  function InitialValue(kind: AccordionType, value: Option<AccordionValue>, defaultValue: Option<AccordionValue>): (r: AccordionValue)
    ensures value.Some? ==> r == value.value
    ensures value.None? && defaultValue.Some? ==> r == defaultValue.value
    ensures value.None? && defaultValue.None? ==> Expanded(r) == {} && (r.Many? <==> kind == MultipleType)
  {
    if value.Some? then value.value
    else if defaultValue.Some? then defaultValue.value
    else if kind == MultipleType then Many([]) else One("")
  }

  /** `expandedItems`: the items of a list, or the single item unless it is the empty text. */
  function Expanded(v: AccordionValue): (r: set<string>)
    ensures v.Many? ==> forall x :: x in r <==> x in v.items
    ensures v.One? ==> r == if v.item == [] then {} else {v.item}
  {
    match v
    case Many(items) => AsSet(items)
    case One(item) => if item == [] then {} else {item}
  }

  /**
   * The value `toggleItem` computes. Multiple mode removes every copy of an
   * open item or appends a closed one (a single value counts as no list);
   * single mode closes the open item when collapsible, and otherwise opens
   * the item given.
   */
  function Toggled(kind: AccordionType, collapsible: bool, current: AccordionValue, itemValue: string): (r: AccordionValue)
    ensures kind == MultipleType <==> r.Many?
  {
    if kind == MultipleType then
      var currentArray := if current.Many? then current.items else [];
      if itemValue in currentArray then Many(Without(currentArray, {itemValue}))
      else Many(currentArray + [itemValue])
    else if current == One(itemValue) && collapsible then One("")
    else One(itemValue)
  }

  /** In multiple mode a toggle flips the item's membership and leaves every other item as it was. */
  lemma MultipleToggleFlips(items: seq<string>, itemValue: string, x: string, collapsible: bool)
    ensures var after := Expanded(Toggled(MultipleType, collapsible, Many(items), itemValue));
            x in after <==> (if x == itemValue then x !in Expanded(Many(items)) else x in Expanded(Many(items)))
  {
    WithoutMembers(items, {itemValue}, x);
  }

  /** In multiple mode two toggles of one item restore the expanded set, and the list itself when the item was closed. */
  lemma MultipleToggleTwice(items: seq<string>, itemValue: string, collapsible: bool)
    ensures var twice := Toggled(MultipleType, collapsible, Toggled(MultipleType, collapsible, Many(items), itemValue), itemValue);
            && Expanded(twice) == Expanded(Many(items))
            && (itemValue !in items ==> twice == Many(items))
  {
    var once := Toggled(MultipleType, collapsible, Many(items), itemValue);
    var twice := Toggled(MultipleType, collapsible, once, itemValue);
    if itemValue in items {
      WithoutMembers(items, {itemValue}, itemValue);
      forall x ensures x in Expanded(twice) <==> x in Expanded(Many(items)) {
        WithoutMembers(items, {itemValue}, x);
      }
    } else {
      var appended := items + [itemValue];
      assert appended[|items|] == itemValue;
      assert forall i :: 0 <= i < |items| ==> items[i] !in {itemValue};
      WithoutNothing(items, {itemValue});
      assert Without(appended, {itemValue}) == items by {
        WithoutAppendGone(items, itemValue);
      }
    }
  }

  lemma {:induction false} WithoutAppendGone(items: seq<string>, itemValue: string)
    requires itemValue !in items
    ensures Without(items + [itemValue], {itemValue}) == items
  {
    if items == [] {
      assert [itemValue][1..] == [];
    } else {
      assert (items + [itemValue])[1..] == items[1..] + [itemValue];
      WithoutAppendGone(items[1..], itemValue);
      assert items == [items[0]] + items[1..];
    }
  }

  /**
   * In single mode toggling the open item closes it when collapsible and
   * keeps it open otherwise; toggling any other item opens that item alone.
   */
  lemma SingleToggle(current: AccordionValue, itemValue: string, collapsible: bool)
    requires itemValue != []
    ensures var after := Expanded(Toggled(SingleType, collapsible, current, itemValue));
            && (current == One(itemValue) && collapsible ==> after == {})
            && (current == One(itemValue) && !collapsible ==> after == {itemValue})
            && (current != One(itemValue) ==> after == {itemValue})
  {
  }

  class AccordionState {
    const kind: AccordionType
    const collapsible: bool
    /** The `value` prop: present when the parent controls the accordion. */
    var value: Option<AccordionValue>
    var internalValue: AccordionValue
    /** The values passed to `onValueChange`, oldest first. */
    var reported: seq<AccordionValue>

    constructor (kind: AccordionType, collapsible: bool, value: Option<AccordionValue>, defaultValue: Option<AccordionValue>)
      ensures this.kind == kind && this.collapsible == collapsible && this.value == value
      ensures internalValue == InitialValue(kind, value, defaultValue) && reported == []
    {
      this.kind := kind;
      this.collapsible := collapsible;
      this.value := value;
      internalValue := InitialValue(kind, value, defaultValue);
      reported := [];
    }

    /** `currentValue`: the controlled value when there is one, else the internal state. */
    function CurrentValue(): AccordionValue
      reads this
    {
      if value.Some? then value.value else internalValue
    }

    function ExpandedItems(): set<string>
      reads this
    {
      Expanded(CurrentValue())
    }

    /** The parent renders the accordion with another `value` prop. */
    method SetValueProp(v: Option<AccordionValue>)
      modifies this
      ensures value == v && internalValue == old(internalValue) && reported == old(reported)
    {
      value := v;
    }

    /**
     * `toggleItem`: the new value is always reported, but written to the
     * internal state only when the parent does not control the accordion.
     */
    method ToggleItem(itemValue: string)
      modifies this
      ensures value == old(value)
      ensures reported == old(reported) + [Toggled(kind, collapsible, old(CurrentValue()), itemValue)]
      ensures old(value).Some? ==> internalValue == old(internalValue) && CurrentValue() == old(CurrentValue())
      ensures old(value).None? ==> internalValue == Toggled(kind, collapsible, old(CurrentValue()), itemValue)
    {
      var newValue := Toggled(kind, collapsible, CurrentValue(), itemValue);
      if value.None? {
        internalValue := newValue;
      }
      reported := reported + [newValue];
    }
  }

  /** An uncontrolled multiple-mode accordion toggled twice on a closed item is back to its list. */
  method ToggleTwiceUncontrolled(a: AccordionState, itemValue: string)
    requires a.value.None? && a.kind == MultipleType && a.internalValue.Many? && itemValue !in a.internalValue.items
    modifies a
    ensures a.internalValue == old(a.internalValue)
  {
    MultipleToggleTwice(a.internalValue.items, itemValue, a.collapsible);
    a.ToggleItem(itemValue);
    a.ToggleItem(itemValue);
  }
}
