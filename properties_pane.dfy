/**
 * The properties pane: every edit sends the selected content's property
 * record back with exactly one key replaced. Array-valued properties (table
 * rows, tabs, accordion items, sidebar menu items) are edited by copying the
 * stored array and then removing, appending, or assigning one element.
 */
module Properties {
  import opened Wrappers
  import opened JsText
  import opened JsValue

  /** A call of `onUpdateContent(contentId, { properties })`. */
  datatype PropertiesUpdate = PropertiesUpdate(contentId: string, properties: Props)

  /** `handlePropertyChange`: the old record with `property` set to `value`, for the selected id. */
  function PropertyChange(contentId: string, props: Props, property: string, value: Value): (u: PropertiesUpdate)
    ensures u.contentId == contentId
    ensures Get(u.properties, property) == Some(value)
    ensures forall k :: k != property ==> Get(u.properties, k) == Get(props, k)
    ensures DistinctKeys(props) ==> DistinctKeys(u.properties)
  {
    var u := PropertiesUpdate(contentId, Set(props, property, value));
    assert DistinctKeys(props) ==> DistinctKeys(u.properties) by {
      if DistinctKeys(props) {
        SetKeepsDistinct(props, property, value);
      }
    }
    u
  }

  /**
   * `getArrayProp`: the array stored under `name`, or `[]` when nothing
   * (or a falsy value) is stored there.
   */
  function GetArrayProp(props: Props, name: string): (r: seq<Value>)
    ensures Get(props, name).Some? && Get(props, name).value.Arr? ==> r == Get(props, name).value.items
    ensures Get(props, name).None? || !Truthy(Get(props, name).value) ==> r == []
  {
    match Get(props, name)
    case Some(Arr(items)) => items
    case _ => []
  }

  /** The list an editor shows: the stored array, or the defaults when it is empty. */
  function Displayed(stored: seq<Value>, defaults: seq<Value>): (r: seq<Value>)
    ensures |stored| > 0 ==> r == stored
    ensures |stored| == 0 ==> r == defaults
  {
    if |stored| > 0 then stored else defaults
  }

  function Record3(k1: string, v1: string, k2: string, v2: string, k3: string, v3: string): Value
  {
    Obj([Field(k1, Str(v1)), Field(k2, Str(v2)), Field(k3, Str(v3))])
  }

  lemma Record3Fields(k1: string, v1: string, k2: string, v2: string, k3: string, v3: string)
    requires k1 != k2 && k1 != k3 && k2 != k3
    ensures var r := Record3(k1, v1, k2, v2, k3, v3).fields;
      Get(r, k1) == Some(Str(v1)) && Get(r, k2) == Some(Str(v2)) && Get(r, k3) == Some(Str(v3))
  {
    var r := Record3(k1, v1, k2, v2, k3, v3).fields;
    var tail := [Field(k3, Str(v3))];
    assert Get(tail, k3) == Some(Str(v3));
    assert r[1..][1..] == tail;
    assert Get(r[1..], k3) == Get(tail, k3);
  }

  const DefaultRows: seq<Value> :=
    [ Record3("name", "John Doe", "status", "Active", "date", "2024-01-15"),
      Record3("name", "Jane Smith", "status", "Inactive", "date", "2024-01-14") ]

  const DefaultTabs: seq<Value> :=
    [ Record3("id", "tab1", "label", "Tab 1", "content", "Content for Tab 1"),
      Record3("id", "tab2", "label", "Tab 2", "content", "Content for Tab 2"),
      Record3("id", "tab3", "label", "Tab 3", "content", "Content for Tab 3") ]

  const DefaultItems: seq<Value> :=
    [ Record3("id", "item-1", "title", "Section 1", "content", "This is the content for section 1. It can contain any type of content."),
      Record3("id", "item-2", "title", "Section 2", "content", "This is the content for section 2. You can add more sections as needed.") ]

  const DefaultMenuItems: seq<Value> := [Str("Dashboard"), Str("Projects"), Str("Settings")]

  // ------------------------------------------------------------ remove

  /** Reading an array slot: a hole reads as `undefined`. */
  function SlotValue(v: Value): (r: Value)
    ensures !r.Hole?
    ensures !v.Hole? ==> r == v
  {
    if v.Hole? then Undefined else v
  }

  predicate NoHoles(xs: seq<Value>)
  {
    forall i :: 0 <= i < |xs| ==> !xs[i].Hole?
  }

  /** The elements `filter` visits: every slot that is not a hole, in order. */
  function Present(xs: seq<Value>): seq<Value>
  {
    if |xs| == 0 then [] else (if xs[0].Hole? then [] else [xs[0]]) + Present(xs[1..])
  }

  lemma {:induction false} PresentHasNoHoles(xs: seq<Value>)
    ensures |Present(xs)| <= |xs| && NoHoles(Present(xs))
  {
    if |xs| > 0 {
      PresentHasNoHoles(xs[1..]);
      var rest := Present(xs[1..]);
      var r := Present(xs);
      if !xs[0].Hole? {
        assert forall i :: 1 <= i < |r| ==> r[i] == rest[i - 1];
      }
    }
  }

  /** Without holes, `filter` visits every element. */
  lemma {:induction false} PresentOfNoHoles(xs: seq<Value>)
    requires NoHoles(xs)
    ensures Present(xs) == xs
  {
    if |xs| > 0 {
      assert NoHoles(xs[1..]) by {
        assert forall i :: 0 <= i < |xs[1..]| ==> xs[1..][i] == xs[i + 1];
      }
      PresentOfNoHoles(xs[1..]);
      assert xs == [xs[0]] + xs[1..];
    }
  }

  /** `xs.filter((_, i) => i !== index)`; `from` is the position of `xs[0]` in the whole array. */
  function FilterIndex(xs: seq<Value>, index: int, from: int): (r: seq<Value>)
    ensures |r| <= |xs|
  {
    if |xs| == 0 then []
    else (if xs[0].Hole? || from == index then [] else [xs[0]]) + FilterIndex(xs[1..], index, from + 1)
  }

  /** `xs.filter((_, i) => i !== index)`: holes are never visited, so they are dropped too. */
  function RemoveAt(xs: seq<Value>, index: int): (r: seq<Value>)
    ensures |r| <= |xs|
  {
    FilterIndex(xs, index, 0)
  }

  /** Filtering from a position past `index` drops only the holes. */
  lemma {:induction false} FilterIndexPast(xs: seq<Value>, index: int, from: int)
    requires from > index
    ensures FilterIndex(xs, index, from) == Present(xs)
  {
    if |xs| > 0 {
      FilterIndexPast(xs[1..], index, from + 1);
    }
  }

  /** Filtering from a position more than `|xs|` before `index` drops only the holes. */
  lemma {:induction false} FilterIndexBefore(xs: seq<Value>, index: int, from: int)
    requires from + |xs| <= index
    ensures FilterIndex(xs, index, from) == Present(xs)
  {
    if |xs| > 0 {
      FilterIndexBefore(xs[1..], index, from + 1);
    }
  }

  /** The element at position `index` is dropped; the elements before and after keep their order. */
  lemma {:induction false} FilterIndexSplit(xs: seq<Value>, index: int, from: int)
    requires from <= index < from + |xs|
    ensures FilterIndex(xs, index, from) == Present(xs[..index - from]) + Present(xs[index - from + 1..])
  {
    var k := index - from;
    if k == 0 {
      FilterIndexPast(xs[1..], index, from + 1);
      assert xs[..0] == [];
    } else {
      FilterIndexSplit(xs[1..], index, from + 1);
      var p := xs[..k];
      assert p[0] == xs[0] && p[1..] == xs[1..][..k - 1];
      assert xs[1..][k - 1 + 1..] == xs[k + 1..];
      var kept := if xs[0].Hole? then [] else [xs[0]];
      var before := Present(xs[1..][..k - 1]);
      var after := Present(xs[k + 1..]);
      assert kept + (before + after) == (kept + before) + after;
    }
  }

  /**
   * Removal keeps the elements that are not holes, in order, except element
   * `index`; an index outside the array removes only the holes.
   */
  lemma RemoveAtPresent(xs: seq<Value>, index: int)
    ensures 0 <= index < |xs| ==> RemoveAt(xs, index) == Present(xs[..index]) + Present(xs[index + 1..])
    ensures !(0 <= index < |xs|) ==> RemoveAt(xs, index) == Present(xs)
  {
    if 0 <= index < |xs| {
      FilterIndexSplit(xs, index, 0);
    } else if index < 0 {
      FilterIndexPast(xs, index, 0);
    } else {
      FilterIndexBefore(xs, index, 0);
    }
  }

  /** A removal never stores a hole. */
  lemma RemoveAtHasNoHoles(xs: seq<Value>, index: int)
    ensures NoHoles(RemoveAt(xs, index))
  {
    RemoveAtPresent(xs, index);
    if 0 <= index < |xs| {
      PresentHasNoHoles(xs[..index]);
      PresentHasNoHoles(xs[index + 1..]);
      var a := Present(xs[..index]);
      var b := Present(xs[index + 1..]);
      assert forall i :: |a| <= i < |a + b| ==> (a + b)[i] == b[i - |a|];
    } else {
      PresentHasNoHoles(xs);
    }
  }

  /** Removal shortens a hole-free array by one and keeps the others in order. */
  lemma RemoveAtShape(xs: seq<Value>, index: int)
    requires NoHoles(xs)
    requires 0 <= index < |xs|
    ensures RemoveAt(xs, index) == xs[..index] + xs[index + 1..]
    ensures |RemoveAt(xs, index)| == |xs| - 1
    ensures forall j :: 0 <= j < index ==> RemoveAt(xs, index)[j] == xs[j]
    ensures forall j :: index <= j < |xs| - 1 ==> RemoveAt(xs, index)[j] == xs[j + 1]
  {
    RemoveAtPresent(xs, index);
    assert NoHoles(xs[..index]) && NoHoles(xs[index + 1..]);
    PresentOfNoHoles(xs[..index]);
    PresentOfNoHoles(xs[index + 1..]);
  }

  /**
   * Removal acts on the stored array: with nothing stored the defaults are
   * shown, but removing any of them leaves the property `[]`.
   */
  lemma RemoveFromDefaults(props: Props, name: string, defaults: seq<Value>, index: int)
    requires GetArrayProp(props, name) == []
    ensures Displayed(GetArrayProp(props, name), defaults) == defaults
    ensures Get(PropertyChange("", props, name, Arr(RemoveAt(GetArrayProp(props, name), index))).properties, name)
      == Some(Arr([]))
  {
  }

  // ------------------------------------------------------------ append

  function NewRow(): Value
  {
    Record3("name", "New Row", "status", "Active", "date", "2024-01-01")
  }

  /** The appended tab; `stamp` is the text of `Date.now()`. */
  function NewTab(count: int, stamp: string): Value
  {
    Record3("id", "tab" + stamp, "label", "Tab " + IntToString(count + 1),
            "content", "Content for Tab " + IntToString(count + 1))
  }

  /** The appended accordion section; `stamp` is the text of `Date.now()`. */
  function NewSection(count: int, stamp: string): Value
  {
    Record3("id", "item-" + stamp, "title", "Section " + IntToString(count + 1),
            "content", "This is the content for section " + IntToString(count + 1) + ".")
  }

  function NewMenuItem(count: int): Value
  {
    Str("New Item " + IntToString(count + 1))
  }

  /** `[...xs]`: a copy of the array in which every hole has become `undefined`. */
  function SpreadArray(xs: seq<Value>): (r: seq<Value>)
    ensures |r| == |xs| && NoHoles(r)
    ensures forall j :: 0 <= j < |xs| ==> r[j] == SlotValue(xs[j])
  {
    seq(|xs|, j requires 0 <= j < |xs| => SlotValue(xs[j]))
  }

  /** Spreading an array without holes copies it unchanged. */
  lemma SpreadOfNoHoles(xs: seq<Value>)
    requires NoHoles(xs)
    ensures SpreadArray(xs) == xs
  {
  }

  /** `[...stored, element]`: the spread copy, with holes read as `undefined`, then the new element. */
  function Appended(stored: seq<Value>, element: Value): (r: seq<Value>)
    ensures |r| == |stored| + 1 && r[|stored|] == element
    ensures forall j :: 0 <= j < |stored| ==> r[j] == SlotValue(stored[j])
    ensures NoHoles(stored) ==> r == stored + [element]
  {
    assert NoHoles(stored) ==> SpreadArray(stored) == stored by {
      if NoHoles(stored) {
        SpreadOfNoHoles(stored);
      }
    }
    SpreadArray(stored) + [element]
  }

  /**
   * Appending after a past-the-end edit turns the two holes into `undefined`
   * elements, which a later `filter` visits: removing the appended element
   * keeps three elements, the first two of them `undefined`.
   */
  lemma AppendAfterPastEndEdit(key: string, value: Value, element: Value)
    requires !element.Hole?
    ensures var r := Appended(EditedAsWritten([], 2, key, value), element);
      r == [Undefined, Undefined, WithField(Undefined, key, value), element] &&
      RemoveAt(r, 3) == [Undefined, Undefined, WithField(Undefined, key, value)]
  {
    var stored := EditedAsWritten([], 2, key, value);
    assert stored == [Hole, Hole, WithField(Undefined, key, value)];
    var r := Appended(stored, element);
    assert r == [Undefined, Undefined, WithField(Undefined, key, value), element];
    RemoveAtPresent(r, 3);
    assert r[..3] == [Undefined, Undefined, WithField(Undefined, key, value)] && r[4..] == [];
    PresentOfNoHoles(r[..3]);
  }

  /** A new tab is labelled with its own 1-based position in the new array. */
  lemma AppendedTabNumbered(stored: seq<Value>, stamp: string)
    ensures var r := Appended(stored, NewTab(|stored|, stamp));
      r[|r| - 1].Obj? &&
      Get(r[|r| - 1].fields, "label") == Some(Str("Tab " + IntToString(|r|))) &&
      Get(r[|r| - 1].fields, "content") == Some(Str("Content for Tab " + IntToString(|r|)))
  {
    Record3Fields("id", "tab" + stamp, "label", "Tab " + IntToString(|stored| + 1),
                  "content", "Content for Tab " + IntToString(|stored| + 1));
  }

  /** A new section is titled with its own 1-based position in the new array. */
  lemma AppendedSectionNumbered(stored: seq<Value>, stamp: string)
    ensures var r := Appended(stored, NewSection(|stored|, stamp));
      r[|r| - 1].Obj? &&
      Get(r[|r| - 1].fields, "title") == Some(Str("Section " + IntToString(|r|)))
  {
  }

  /** A new menu item is named with its own 1-based position in the new array. */
  lemma AppendedMenuItemNumbered(stored: seq<Value>)
    ensures var r := Appended(stored, NewMenuItem(|stored|));
      r[|r| - 1] == Str("New Item " + IntToString(|r|))
  {
  }

  // ------------------------------------------------------------ field edits

  /** `{ ...element }`: the own fields of a record; nothing for `undefined`. */
  function Spread(element: Value): Props
  {
    if element.Obj? then element.fields else []
  }

  /** `{ ...element, [key]: value }`. */
  function WithField(element: Value, key: string, value: Value): (r: Value)
    ensures r.Obj? && Get(r.fields, key) == Some(value)
    ensures forall k :: k != key ==> Get(r.fields, k) == Get(Spread(element), k)
  {
    Obj(Set(Spread(element), key, value))
  }

  /** `copy[index]` on a copy `[...stored]`: `undefined` for a hole and past the end. */
  function ElementAt(stored: seq<Value>, index: nat): (r: Value)
    ensures !r.Hole?
  {
    if index < |stored| then SlotValue(stored[index]) else Undefined
  }

  /**
   * Slot `j` of the copy `[...stored]` once an assignment has grown it:
   * the spread turned the old holes into `undefined`, and the slots between
   * the old end and the assigned index are new holes.
   */
  function CopySlot(stored: seq<Value>, j: nat): (r: Value)
    ensures j < |stored| ==> r == SlotValue(stored[j])
    ensures j >= |stored| ==> r == Hole
  {
    if j < |stored| then SlotValue(stored[j]) else Hole
  }

  /**
   * `const copy = [...stored]; copy[index] = element`: assigning past the
   * end grows the array and leaves holes in the skipped slots.
   */
  method AssignAt(stored: seq<Value>, index: nat, element: Value) returns (r: seq<Value>)
    ensures |r| == if index < |stored| then |stored| else index + 1
    ensures r[index] == element
    ensures forall j :: 0 <= j < |r| && j != index ==> r[j] == CopySlot(stored, j)
  {
    var length := if index < |stored| then |stored| else index + 1;
    var copy := new Value[length](_ => Hole);
    var i := 0;
    while i < |stored|
      invariant 0 <= i <= |stored|
      invariant forall j :: 0 <= j < i ==> copy[j] == SlotValue(stored[j])
      invariant forall j :: i <= j < length ==> copy[j] == Hole
    {
      copy[i] := SlotValue(stored[i]);
      i := i + 1;
    }
    copy[index] := element;
    r := copy[..];
  }

  /**
   * A record field edit on the stored array: element `index` gets `key` set
   * to `value` (keeping its other fields), every other element is kept, and
   * an index past the end grows the array with holes.
   */
  function EditedAsWritten(stored: seq<Value>, index: nat, key: string, value: Value): (r: seq<Value>)
    ensures |r| == if index < |stored| then |stored| else index + 1
    ensures r[index] == WithField(ElementAt(stored, index), key, value)
    ensures forall j :: 0 <= j < |r| && j != index ==> r[j] == CopySlot(stored, j)
  {
    var length := if index < |stored| then |stored| else index + 1;
    seq(length, j requires 0 <= j < length =>
      if j == index then WithField(ElementAt(stored, index), key, value) else CopySlot(stored, j))
  }

  /**
   * The record editors' `onChange`: element `index` of the stored array
   * gets `key` set to `value`; every other element is kept.
   */
  method EditField(stored: seq<Value>, index: nat, key: string, value: Value) returns (r: seq<Value>)
    ensures r == EditedAsWritten(stored, index, key, value)
  {
    var element := ElementAt(stored, index);
    r := AssignAt(stored, index, WithField(element, key, value));
    var expected := EditedAsWritten(stored, index, key, value);
    assert |r| == |expected|;
    assert forall j :: 0 <= j < |r| ==> r[j] == expected[j];
  }

  /** The menu item editor's `onChange`: element `index` becomes the typed text. */
  method EditMenuItem(stored: seq<Value>, index: nat, text: string) returns (r: seq<Value>)
    ensures |r| == if index < |stored| then |stored| else index + 1
    ensures r[index] == Str(text)
    ensures forall j :: 0 <= j < |r| && j != index ==> r[j] == CopySlot(stored, j)
  {
    r := AssignAt(stored, index, Str(text));
  }

  /**
   * With nothing stored the editor shows the three default tabs, but an edit
   * of the first one's label stores a one-element array: the other two tabs
   * disappear and the edited tab loses its id and content.
   */
  lemma EditOfDefaultDropsRows()
    ensures var r := EditedAsWritten([], 0, "label", Str("Renamed"));
      |Displayed([], DefaultTabs)| == 3 && Displayed(r, DefaultTabs) == r && |r| == 1 &&
      Get(r[0].fields, "id") == None && Get(r[0].fields, "content") == None
  {
  }

  /**
   * An edit past the end of an empty stored array leaves two holes before
   * the edited tab; the `filter` of a later removal skips them, so removing
   * that tab stores `[]` and the editor shows the defaults again.
   */
  lemma RemoveAfterPastEndEdit(key: string, value: Value)
    ensures var stored := EditedAsWritten([], 2, key, value);
      stored == [Hole, Hole, WithField(Undefined, key, value)] &&
      RemoveAt(stored, 2) == [] &&
      Displayed(RemoveAt(stored, 2), DefaultTabs) == DefaultTabs
  {
    var stored := EditedAsWritten([], 2, key, value);
    RemoveAtPresent(stored, 2);
    assert stored[..2] == [Hole, Hole] && stored[3..] == [];
    assert [Hole, Hole][1..] == [Hole];
  }

  /** An edit of the shown list: row `index` of what the user sees gets `key` set. */
  function EditedShown(stored: seq<Value>, defaults: seq<Value>, index: nat, key: string, value: Value): (r: seq<Value>)
    requires index < |Displayed(stored, defaults)|
    ensures |r| == |Displayed(stored, defaults)|
    ensures r[index] == WithField(Displayed(stored, defaults)[index], key, value)
    ensures forall j :: 0 <= j < |r| && j != index ==> r[j] == Displayed(stored, defaults)[j]
  {
    var shown := Displayed(stored, defaults);
    shown[index := WithField(shown[index], key, value)]
  }

  /**
   * Editing the shown list keeps every other shown row on screen: the list
   * shown afterwards is the old one with only row `index` changed.
   */
  lemma {:induction false} EditedShownKeepsOtherRows(stored: seq<Value>, defaults: seq<Value>, index: nat, key: string, value: Value)
    requires index < |Displayed(stored, defaults)|
    ensures var r := EditedShown(stored, defaults, index, key, value);
      Displayed(r, defaults) == r &&
      forall j :: 0 <= j < |r| && j != index ==> Displayed(r, defaults)[j] == Displayed(stored, defaults)[j]
  {
    var r := EditedShown(stored, defaults, index, key, value);
    assert |r| > 0;
  }
}
