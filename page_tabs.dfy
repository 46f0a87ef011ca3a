/**
 * The page tab bar: renaming a page in place, and the grid-size inputs,
 * which keep their own text and report a new dimension only when that text
 * parses as a positive integer.
 */
module Tabs {
  import opened Wrappers
  import opened JsText

  datatype Page = Page(id: string, name: string)

  /** A call of `onPageRename(pageId, name)`. */
  datatype Rename = Rename(pageId: string, name: string)

  /**
   * The rename a blur commits: `editName.trim()` when that is non-empty (a
   * truthy string), and none otherwise.
   */
  function CommitRename(pageId: string, editName: string): (r: Option<Rename>)
    ensures r.Some? <==> exists i :: 0 <= i < |editName| && !IsSpace(editName[i])
    ensures r.Some? ==> r.value.pageId == pageId && r.value.name == Trim(editName)
    ensures r.Some? ==> !IsSpace(r.value.name[0]) && !IsSpace(r.value.name[|r.value.name| - 1])
  {
    var name := Trim(editName);
    TrimNonEmptyIff(editName);
    TrimEnds(editName);
    if |name| > 0 then
      assert !IsSpace(name[0]) && !IsSpace(name[|name| - 1]);
      Some(Rename(pageId, name))
    else None
  }

  /** `val = parseInt(text)`, kept only when `!isNaN(val) && val > 0`. */
  function PositiveValue(text: string): (r: Option<int>)
    ensures r.Some? <==> ParseInt(text).Some? && ParseInt(text).value > 0
    ensures r.Some? ==> r.value > 0 && ParseInt(text) == Some(r.value)
  {
    match ParseInt(text)
    case Some(v) => if v > 0 then Some(v) else None
    case None => None
  }

  /** The text a dimension prop is shown as reads back as that dimension. */
  lemma PositiveValueOfDimension(n: int)
    ensures PositiveValue(IntToString(n)) == (if n > 0 then Some(n) else None)
  {
    ParseIntOfIntToString(n);
  }

  /**
   * The text left in a dimension input after blur: unchanged when it holds
   * a positive number, otherwise the current dimension printed.
   */
  function BlurredInput(text: string, current: int): (r: string)
    ensures PositiveValue(text).Some? ==> r == text
    ensures PositiveValue(text).None? ==> r == IntToString(current)
    ensures current > 0 ==> PositiveValue(r).Some?
  {
    if PositiveValue(text).None? then
      PositiveValueOfDimension(current);
      IntToString(current)
    else text
  }

  /** Blurring twice is blurring once. */
  lemma BlurIdempotent(text: string, current: int)
    requires current > 0
    ensures BlurredInput(BlurredInput(text, current), current) == BlurredInput(text, current)
  {
  }

  /** What the bar offers: the page ids with a delete control, and the two disabled flags. */
  datatype Controls = Controls(deletable: set<string>, clearDisabled: bool, previewDisabled: bool)

  function ControlsOf(pages: seq<Page>, contentCount: int): (c: Controls)
    ensures forall i :: 0 <= i < |pages| ==> (pages[i].id in c.deletable <==> |pages| > 1)
    ensures forall id :: id in c.deletable ==> exists i :: 0 <= i < |pages| && pages[i].id == id
    ensures c.clearDisabled <==> contentCount == 0
    ensures c.previewDisabled <==> contentCount == 0
  {
    Controls(if |pages| > 1 then set i | 0 <= i < |pages| :: pages[i].id else {},
             contentCount == 0, contentCount == 0)
  }

  class PageTabs {
    var editingPage: Option<string>
    var editName: string
    var colsInput: string
    var rowsInput: string

    constructor(rows: int, cols: int)
      ensures editingPage == None && editName == ""
      ensures colsInput == IntToString(cols) && rowsInput == IntToString(rows)
    {
      editingPage := None;
      editName := "";
      colsInput := IntToString(cols);
      rowsInput := IntToString(rows);
    }

    /** The `cols` prop changed: the input shows the new value. */
    method SyncCols(cols: int)
      modifies this`colsInput
      ensures colsInput == IntToString(cols)
    {
      colsInput := IntToString(cols);
    }

    /** The `rows` prop changed: the input shows the new value. */
    method SyncRows(rows: int)
      modifies this`rowsInput
      ensures rowsInput == IntToString(rows)
    {
      rowsInput := IntToString(rows);
    }

    /** Start editing `page`, beginning from its current name. */
    method HandleDoubleClick(page: Page)
      modifies this`editingPage, this`editName
      ensures editingPage == Some(page.id) && editName == page.name
    {
      editingPage := Some(page.id);
      editName := page.name;
    }

    /** The rename input's `onChange`. */
    method HandleEditChange(value: string)
      modifies this`editName
      ensures editName == value
    {
      editName := value;
    }

    /** Commit the rename if the trimmed name is non-empty; editing always ends. */
    method HandleBlur(pageId: string) returns (rename: Option<Rename>)
      modifies this`editingPage
      ensures rename == CommitRename(pageId, editName)
      ensures editingPage == None
    {
      rename := CommitRename(pageId, editName);
      editingPage := None;
    }

    /** Enter commits as blur does, Escape cancels, any other key does nothing. */
    method HandleKeyDown(key: string, pageId: string) returns (rename: Option<Rename>)
      modifies this`editingPage
      ensures key == "Enter" ==> rename == CommitRename(pageId, editName) && editingPage == None
      ensures key == "Escape" ==> rename == None && editingPage == None
      ensures key != "Enter" && key != "Escape" ==> rename == None && editingPage == old(editingPage)
    {
      rename := None;
      if key == "Enter" {
        rename := HandleBlur(pageId);
      } else if key == "Escape" {
        editingPage := None;
      }
    }

    /** The columns input's `onChange`: the text always updates; a positive value is reported. */
    method HandleColsChange(value: string) returns (colsChange: Option<int>)
      modifies this`colsInput
      ensures colsInput == value
      ensures colsChange == PositiveValue(value)
    {
      colsInput := value;
      colsChange := PositiveValue(value);
    }

    /** The columns input's `onBlur`: invalid text is reset to the current value. */
    method HandleColsBlur(cols: int)
      modifies this`colsInput
      ensures colsInput == BlurredInput(old(colsInput), cols)
    {
      var value := PositiveValue(colsInput);
      if value.None? {
        colsInput := IntToString(cols);
      }
    }

    /** The rows input's `onChange`. */
    method HandleRowsChange(value: string) returns (rowsChange: Option<int>)
      modifies this`rowsInput
      ensures rowsInput == value
      ensures rowsChange == PositiveValue(value)
    {
      rowsInput := value;
      rowsChange := PositiveValue(value);
    }

    /** The rows input's `onBlur`. */
    method HandleRowsBlur(rows: int)
      modifies this`rowsInput
      ensures rowsInput == BlurredInput(old(rowsInput), rows)
    {
      var value := PositiveValue(rowsInput);
      if value.None? {
        rowsInput := IntToString(rows);
      }
    }
  }
}
