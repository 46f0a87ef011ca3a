/**
 * The component palette: two categories of draggable component types, a
 * case-insensitive label search, collapsible categories, and a property
 * editor for the selected component.
 */
module Sidebar {
  import opened Wrappers
  import opened JsText
  import opened JsValue
  import opened Grid
  import opened Properties

  datatype PaletteItem = PaletteItem(kind: string, caption: string)
  datatype Category = Category(name: string, components: seq<PaletteItem>)

  const ComponentCategories: seq<Category> :=
    [ Category("Components", [
        PaletteItem("button", "Button"), PaletteItem("input", "Input"),
        PaletteItem("textarea", "Textarea"), PaletteItem("select", "Select"),
        PaletteItem("checkbox", "Checkbox"), PaletteItem("radio", "Radio"),
        PaletteItem("switch", "Switch"), PaletteItem("slider", "Slider"),
        PaletteItem("card", "Card"), PaletteItem("table", "Table"),
        PaletteItem("badge", "Badge"), PaletteItem("avatar", "Avatar"),
        PaletteItem("tabs", "Tabs"), PaletteItem("dropdown", "Dropdown"),
        PaletteItem("sidebar", "Sidebar"), PaletteItem("alert", "Alert"),
        PaletteItem("progress", "Progress"), PaletteItem("skeleton", "Skeleton"),
        PaletteItem("tooltip", "Tooltip"), PaletteItem("popover", "Popover"),
        PaletteItem("accordion", "Accordion"), PaletteItem("separator", "Separator"),
        PaletteItem("calendar", "Calendar"), PaletteItem("datepicker", "Date Picker") ]),
      Category("Data Viz", [
        PaletteItem("barchart", "Bar Chart"), PaletteItem("linechart", "Line Chart"),
        PaletteItem("areachart", "Area Chart"), PaletteItem("piechart", "Pie Chart") ]) ]

  // ------------------------------------------------------------ flatten

  /** `x` is a component of one of `cats`. */
  predicate InCategory(cats: seq<Category>, x: PaletteItem)
  {
    exists i :: 0 <= i < |cats| && x in cats[i].components
  }

  lemma InCategoryCons(cats: seq<Category>, x: PaletteItem)
    requires |cats| > 0
    ensures InCategory(cats, x) <==> x in cats[0].components || InCategory(cats[1..], x)
  {
    if InCategory(cats, x) && x !in cats[0].components {
      var i :| 0 <= i < |cats| && x in cats[i].components;
      assert x in cats[1..][i - 1].components;
    }
    if InCategory(cats[1..], x) {
      var i :| 0 <= i < |cats[1..]| && x in cats[1..][i].components;
      assert x in cats[i + 1].components;
    }
  }

  /** `categories.flatMap(cat => cat.components)`. */
  function Flatten(cats: seq<Category>): (r: seq<PaletteItem>)
    ensures forall x :: x in r <==> InCategory(cats, x)
  {
    if |cats| == 0 then []
    else
      var rest := Flatten(cats[1..]);
      assert forall x :: InCategory(cats, x) <==> x in cats[0].components || InCategory(cats[1..], x) by {
        forall x ensures InCategory(cats, x) <==> x in cats[0].components || InCategory(cats[1..], x) {
          InCategoryCons(cats, x);
        }
      }
      cats[0].components + rest
  }

  /** The flat list of every palette component. */
  function Components(): seq<PaletteItem>
  {
    Flatten(ComponentCategories)
  }

  predicate DistinctKinds(items: seq<PaletteItem>)
  {
    forall i, j :: 0 <= i < j < |items| ==> items[i].kind != items[j].kind
  }

  /** The flat list is the two category lists back to back: 28 entries. */
  lemma ComponentsShape()
    ensures Components() == ComponentCategories[0].components + ComponentCategories[1].components
    ensures |Components()| == 28
  {
    assert Flatten(ComponentCategories[1..][1..]) == [];
  }

  /** The types of `items`, in order. */
  function Kinds(items: seq<PaletteItem>): (r: seq<string>)
    ensures |r| == |items| && forall i :: 0 <= i < |items| ==> r[i] == items[i].kind
  {
    seq(|items|, i requires 0 <= i < |items| => items[i].kind)
  }

  /** The palette's component types, in palette order. */
  const PaletteKinds: seq<string> :=
    ["button", "input", "textarea", "select", "checkbox", "radio", "switch", "slider",
     "card", "table", "badge", "avatar", "tabs", "dropdown", "sidebar", "alert",
     "progress", "skeleton", "tooltip", "popover", "accordion", "separator", "calendar", "datepicker",
     "barchart", "linechart", "areachart", "piechart"]

  /** The types of the two categories' components, back to back. */
  lemma KindsOfPalette()
    ensures Kinds(ComponentCategories[0].components + ComponentCategories[1].components) == PaletteKinds
  {
  }

  /** The palette's types are pairwise distinct. */
  lemma PaletteKindsDistinct()
    ensures forall i, j :: 0 <= i < j < |PaletteKinds| ==> PaletteKinds[i] != PaletteKinds[j]
  {
  }

  /** No component type is offered twice. */
  lemma ComponentKindsDistinct()
    ensures DistinctKinds(Components())
  {
    ComponentsShape();
    KindsOfPalette();
    PaletteKindsDistinct();
    assert Kinds(Components()) == PaletteKinds;
  }

  // ------------------------------------------------------------ search

  /** `label.toLowerCase().includes(query.toLowerCase())`. */
  predicate Matches(item: PaletteItem, query: string)
  {
    Includes(ToLower(item.caption), ToLower(query))
  }

  /** `components.filter(component => Matches(component, query))`. */
  function FilterItems(items: seq<PaletteItem>, query: string): (r: seq<PaletteItem>)
    ensures |r| <= |items|
    ensures forall x :: x in r <==> x in items && Matches(x, query)
  {
    if |items| == 0 then []
    else
      var rest := FilterItems(items[1..], query);
      assert forall x :: x in items <==> x == items[0] || x in items[1..];
      if Matches(items[0], query) then [items[0]] + rest else rest
  }

  /** Filtering distributes over concatenation, so the kept items stay in list order. */
  lemma {:induction false} FilterItemsAppend(a: seq<PaletteItem>, b: seq<PaletteItem>, query: string)
    ensures FilterItems(a + b, query) == FilterItems(a, query) + FilterItems(b, query)
  {
    if |a| > 0 {
      var ab := a + b;
      assert ab[0] == a[0] && ab[1..] == a[1..] + b;
      FilterItemsAppend(a[1..], b, query);
      var tail := FilterItems(a[1..], query) + FilterItems(b, query);
      assert FilterItems(ab, query) == if Matches(a[0], query) then [a[0]] + tail else tail;
      assert FilterItems(a, query) == if Matches(a[0], query) then [a[0]] + FilterItems(a[1..], query) else FilterItems(a[1..], query);
      if Matches(a[0], query) {
        assert [a[0]] + tail == [a[0]] + FilterItems(a[1..], query) + FilterItems(b, query);
      }
    } else {
      assert a + b == b;
    }
  }

  /** `x` is one of `cats` with its components filtered by `query`. */
  predicate FilteredFrom(x: Category, cats: seq<Category>, query: string)
  {
    exists j :: 0 <= j < |cats| && x == Category(cats[j].name, FilterItems(cats[j].components, query))
  }

  /** Each category with its components filtered; categories left empty are dropped. */
  function FilterCategories(cats: seq<Category>, query: string): (r: seq<Category>)
    ensures |r| <= |cats|
    ensures forall i :: 0 <= i < |r| ==> |r[i].components| > 0
    ensures forall i :: 0 <= i < |r| ==> FilteredFrom(r[i], cats, query)
  {
    if |cats| == 0 then []
    else
      var rest := FilterCategories(cats[1..], query);
      var kept := Category(cats[0].name, FilterItems(cats[0].components, query));
      assert FilteredFrom(kept, cats, query);
      assert forall i :: 0 <= i < |rest| ==> FilteredFrom(rest[i], cats, query) by {
        forall i | 0 <= i < |rest| ensures FilteredFrom(rest[i], cats, query) {
          assert FilteredFrom(rest[i], cats[1..], query);
          var j :| 0 <= j < |cats[1..]| && rest[i] == Category(cats[1..][j].name, FilterItems(cats[1..][j].components, query));
          assert cats[1..][j] == cats[j + 1];
        }
      }
      if |kept.components| > 0 then [kept] + rest else rest
  }

  /** A category survives the search iff one of its components matches. */
  lemma FilterCategoriesOne(c: Category, query: string)
    ensures |FilterCategories([c], query)| == 1 <==> exists x :: x in c.components && Matches(x, query)
    ensures FilterCategories([c], query) == [] || FilterCategories([c], query) == [Category(c.name, FilterItems(c.components, query))]
  {
    var f := FilterItems(c.components, query);
    if exists x :: x in c.components && Matches(x, query) {
      var x :| x in c.components && Matches(x, query);
      assert x in f;
    }
    if |f| > 0 {
      assert f[0] in f;
    }
    assert [c][1..] == [];
  }

  /** Category filtering distributes over concatenation, so categories keep their order. */
  lemma {:induction false} FilterCategoriesAppend(a: seq<Category>, b: seq<Category>, query: string)
    ensures FilterCategories(a + b, query) == FilterCategories(a, query) + FilterCategories(b, query)
  {
    if |a| > 0 {
      assert (a + b)[1..] == a[1..] + b;
      FilterCategoriesAppend(a[1..], b, query);
    } else {
      assert a + b == b;
    }
  }

  /** `filteredCategories`: the categories unchanged for an empty query. */
  function Filtered(cats: seq<Category>, query: string): (r: seq<Category>)
    ensures query == "" ==> r == cats
    ensures query != "" ==> r == FilterCategories(cats, query)
  {
    if query != "" then FilterCategories(cats, query) else cats
  }

  /** The empty query is matched by every label, but it shows the categories as they are. */
  lemma EmptyQueryMatchesAll(item: PaletteItem)
    ensures Matches(item, "")
  {
    assert OccursAt(ToLower(item.caption), ToLower(""), 0);
  }

  // ------------------------------------------------------------ expand / collapse

  /** `toggleCategory`: `name` leaves the set if present and joins it otherwise. */
  function Toggled(expanded: set<string>, name: string): (r: set<string>)
    ensures name in r <==> name !in expanded
    ensures forall n :: n != name ==> (n in r <==> n in expanded)
  {
    if name in expanded then expanded - {name} else expanded + {name}
  }

  lemma {:induction false} ToggleTwice(expanded: set<string>, name: string)
    ensures Toggled(Toggled(expanded, name), name) == expanded
  {
    var once := Toggled(expanded, name);
    var twice := Toggled(once, name);
    assert forall n :: n in twice <==> n in expanded;
  }

  // ------------------------------------------------------------ properties

  /** The sidebar's `handlePropertyChange`: nothing without a selection. */
  function SidebarPropertyChange(selected: Option<Content>, key: string, value: Value): (u: Option<PropertiesUpdate>)
    ensures u.None? <==> selected.None?
    ensures u.Some? ==> u.value.contentId == selected.value.id
    ensures u.Some? ==> Get(u.value.properties, key) == Some(value)
    ensures u.Some? ==> forall k :: k != key ==> Get(u.value.properties, k) == Get(selected.value.properties, k)
  {
    match selected
    case None => None
    case Some(c) => Some(PropertyChange(c.id, c.properties, key, value))
  }

  class ComponentSidebar {
    var searchQuery: string
    var expandedCategories: set<string>

    constructor()
      ensures searchQuery == "" && expandedCategories == {"Components", "Data Viz"}
    {
      searchQuery := "";
      expandedCategories := {"Components", "Data Viz"};
    }

    method ToggleCategory(name: string)
      modifies this`expandedCategories
      ensures expandedCategories == Toggled(old(expandedCategories), name)
    {
      if name in expandedCategories {
        expandedCategories := expandedCategories - {name};
      } else {
        expandedCategories := expandedCategories + {name};
      }
    }

    method SetSearchQuery(query: string)
      modifies this`searchQuery
      ensures searchQuery == query
    {
      searchQuery := query;
    }

    /** The categories the palette lists for the current query. */
    function Visible(): (r: seq<Category>)
      reads this
      ensures searchQuery == "" ==> r == ComponentCategories
      ensures forall i :: 0 <= i < |r| ==> |r[i].components| > 0
    {
      Filtered(ComponentCategories, searchQuery)
    }
  }
}
