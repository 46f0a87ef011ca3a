/**
 * The grid placement store of the layout editor: placed components with a
 * top-left position and a span, the grid dimensions, the three occupancy
 * queries, and the handlers that add, move, resize, update and delete.
 * Content lists are replaced copy-on-write, so every update is a function
 * on `seq<Content>` and the handlers of `WireframeGrid` assign its result.
 */
module Grid {
  import opened Wrappers
  import opened JsValue

  datatype Position = Position(row: int, col: int)
  datatype Span = Span(rows: int, cols: int)

  /** A placed component; `kind` is the component type (`button`, `card`, ...). */
  datatype Content = Content(id: string, kind: string, span: Span, position: Position, properties: Props)

  /** The partial record merged by `{ ...content, ...updates }`; `None` is an absent field. */
  datatype Updates = Updates(
    id: Option<string>,
    kind: Option<string>,
    span: Option<Span>,
    position: Option<Position>,
    properties: Option<Props>)

  function Max(a: int, b: int): int { if a >= b then a else b }
  function Min(a: int, b: int): int { if a <= b then a else b }

  // ---------------------------------------------------------------- occupancy

  /** The footprint `[row, row + rows) x [col, col + cols)` of `c` contains the cell. */
  predicate Covers(c: Content, row: int, col: int)
  {
    c.position.row <= row < c.position.row + c.span.rows &&
    c.position.col <= col < c.position.col + c.span.cols
  }

  /** Entry `i` covers the cell and no earlier entry does. */
  predicate IsFirstCovering(cs: seq<Content>, i: int, row: int, col: int)
  {
    0 <= i < |cs| && Covers(cs[i], row, col) &&
    forall j :: 0 <= j < i ==> !Covers(cs[j], row, col)
  }

  /** `isCellOccupied`: some footprint covers the cell. */
  function IsCellOccupied(cs: seq<Content>, row: int, col: int): (b: bool)
    ensures b <==> exists i :: 0 <= i < |cs| && Covers(cs[i], row, col)
  {
    if |cs| == 0 then false
    else if Covers(cs[0], row, col) then true
    else
      var b := IsCellOccupied(cs[1..], row, col);
      assert (exists i :: 0 <= i < |cs| && Covers(cs[i], row, col)) ==> b by {
        if exists i :: 0 <= i < |cs| && Covers(cs[i], row, col) {
          var i :| 0 <= i < |cs| && Covers(cs[i], row, col);
          assert cs[1..][i - 1] == cs[i];
        }
      }
      b
  }

  /**
   * `getContentForCell`: the first content, in list order, whose footprint
   * covers the cell; found exactly when the cell is occupied.
   */
  function ContentForCell(cs: seq<Content>, row: int, col: int): (r: Option<Content>)
    ensures r.Some? <==> IsCellOccupied(cs, row, col)
    ensures r.Some? ==> exists i :: IsFirstCovering(cs, i, row, col) && cs[i] == r.value
  {
    if |cs| == 0 then None
    else if Covers(cs[0], row, col) then
      assert IsFirstCovering(cs, 0, row, col);
      Some(cs[0])
    else
      var r := ContentForCell(cs[1..], row, col);
      assert r.Some? ==> exists i :: IsFirstCovering(cs, i, row, col) && cs[i] == r.value by {
        if r.Some? {
          var i :| IsFirstCovering(cs[1..], i, row, col) && cs[1..][i] == r.value;
          assert IsFirstCovering(cs, i + 1, row, col) by {
            forall j | 0 <= j < i + 1 ensures !Covers(cs[j], row, col) {
              if j > 0 { assert cs[j] == cs[1..][j - 1]; }
            }
          }
        }
      }
      r
  }

  /** `isCellMainContent`: the cell is the anchor (top-left cell) of some content. */
  function IsCellMainContent(cs: seq<Content>, row: int, col: int): (b: bool)
    ensures b <==> exists i :: 0 <= i < |cs| && cs[i].position == Position(row, col)
  {
    if |cs| == 0 then false
    else if cs[0].position == Position(row, col) then true
    else
      var b := IsCellMainContent(cs[1..], row, col);
      assert (exists i :: 0 <= i < |cs| && cs[i].position == Position(row, col)) ==> b by {
        if exists i :: 0 <= i < |cs| && cs[i].position == Position(row, col) {
          var i :| 0 <= i < |cs| && cs[i].position == Position(row, col);
          assert cs[1..][i - 1] == cs[i];
        }
      }
      b
  }

  predicate SpansPositive(cs: seq<Content>)
  {
    forall i :: 0 <= i < |cs| ==> cs[i].span.rows >= 1 && cs[i].span.cols >= 1
  }

  /** When every span is at least 1x1, an anchor cell is an occupied cell. */
  lemma MainContentIsOccupied(cs: seq<Content>, row: int, col: int)
    requires SpansPositive(cs)
    requires IsCellMainContent(cs, row, col)
    ensures IsCellOccupied(cs, row, col)
  {
    var i :| 0 <= i < |cs| && cs[i].position == Position(row, col);
    assert Covers(cs[i], row, col);
  }

  /** The footprints of `a` and `b` share a cell. */
  predicate Overlap(a: Content, b: Content)
  {
    a.position.row < b.position.row + b.span.rows && b.position.row < a.position.row + a.span.rows &&
    a.position.col < b.position.col + b.span.cols && b.position.col < a.position.col + a.span.cols
  }

  /** No two placed components share a cell. */
  predicate Disjoint(cs: seq<Content>)
  {
    forall i, j :: 0 <= i < j < |cs| ==> !Overlap(cs[i], cs[j])
  }

  /** Under disjoint footprints the cell's covering content is unique. */
  lemma DisjointCoverUnique(cs: seq<Content>, i: int, j: int, row: int, col: int)
    requires Disjoint(cs)
    requires 0 <= i < |cs| && 0 <= j < |cs|
    requires Covers(cs[i], row, col) && Covers(cs[j], row, col)
    ensures i == j
  {
    if i < j {
      assert Overlap(cs[i], cs[j]);
    } else if j < i {
      assert Overlap(cs[j], cs[i]);
    }
  }

  // -------------------------------------------------------------- add / drop

  /** The record `handleAddContent` creates: span 1x1 and empty properties. */
  function NewContent(id: string, kind: string, pos: Position): (c: Content)
    ensures c.span == Span(1, 1) && c.position == pos && c.properties == []
    ensures forall row, col :: Covers(c, row, col) <==> Position(row, col) == pos
  {
    Content(id, kind, Span(1, 1), pos, [])
  }

  /** A 1x1 content on an uncovered cell keeps pairwise-disjoint footprints disjoint. */
  lemma AddKeepsDisjoint(cs: seq<Content>, id: string, kind: string, row: int, col: int)
    requires Disjoint(cs)
    requires !IsCellOccupied(cs, row, col)
    ensures Disjoint(cs + [NewContent(id, kind, Position(row, col))])
  {
    var c := NewContent(id, kind, Position(row, col));
    var cs' := cs + [c];
    forall i, j | 0 <= i < j < |cs'| ensures !Overlap(cs'[i], cs'[j]) {
      if j == |cs| {
        assert !Covers(cs[i], row, col);
      } else {
        assert cs'[i] == cs[i] && cs'[j] == cs[j];
      }
    }
  }

  /** `contents.find(c => c.id === id)`. */
  /** `cs[i]` is the first content with the id. */
  predicate FirstWithId(cs: seq<Content>, id: string, i: int)
  {
    0 <= i < |cs| && cs[i].id == id && forall j :: 0 <= j < i ==> cs[j].id != id
  }

  function FindById(cs: seq<Content>, id: string): (r: Option<Content>)
    ensures r.None? <==> forall i :: 0 <= i < |cs| ==> cs[i].id != id
    ensures r.Some? ==> r.value.id == id && r.value in cs
    ensures r.Some? ==> exists i :: FirstWithId(cs, id, i) && cs[i] == r.value
  {
    if |cs| == 0 then None
    else if cs[0].id == id then
      assert FirstWithId(cs, id, 0);
      Some(cs[0])
    else
      var r := FindById(cs[1..], id);
      assert r.Some? ==> exists i :: FirstWithId(cs, id, i) && cs[i] == r.value by {
        if r.Some? {
          var i :| FirstWithId(cs[1..], id, i) && cs[1..][i] == r.value;
          assert cs[i + 1] == cs[1..][i];
          assert FirstWithId(cs, id, i + 1);
        }
      }
      assert (forall i :: 0 <= i < |cs[1..]| ==> cs[1..][i].id != id) ==>
             (forall i :: 0 <= i < |cs| ==> cs[i].id != id) by {
        if forall i :: 0 <= i < |cs[1..]| ==> cs[1..][i].id != id {
          forall i | 0 <= i < |cs| ensures cs[i].id != id {
            if i > 0 { assert cs[i] == cs[1..][i - 1]; }
          }
        }
      }
      r
  }

  /** The drag-drop move: every entry with that id gets the new position. */
  function MoveTo(cs: seq<Content>, id: string, pos: Position): (r: seq<Content>)
    ensures |r| == |cs|
    ensures forall i :: 0 <= i < |cs| ==>
      r[i] == if cs[i].id == id then cs[i].(position := pos) else cs[i]
  {
    if |cs| == 0 then []
    else [if cs[0].id == id then cs[0].(position := pos) else cs[0]] + MoveTo(cs[1..], id, pos)
  }

  /** A move changes only the position of the moved content. */
  lemma MoveKeepsEverythingElse(cs: seq<Content>, id: string, pos: Position, i: int)
    requires 0 <= i < |cs|
    ensures MoveTo(cs, id, pos)[i].id == cs[i].id
    ensures MoveTo(cs, id, pos)[i].kind == cs[i].kind
    ensures MoveTo(cs, id, pos)[i].span == cs[i].span
    ensures MoveTo(cs, id, pos)[i].properties == cs[i].properties
    ensures MoveTo(cs, id, pos)[i].position == if cs[i].id == id then pos else cs[i].position
  {
  }

  // ------------------------------------------------------------------- resize

  /**
   * `handleResizeContent`'s clamp: each dimension is the request cut down to
   * what fits between the anchor and the grid edge, and never below 1.
   */
  function ClampSpan(req: Span, pos: Position, rows: int, cols: int): (s: Span)
  {
    Span(Max(1, Min(req.rows, rows - pos.row)), Max(1, Min(req.cols, cols - pos.col)))
  }

  lemma ClampSpanBounds(req: Span, pos: Position, rows: int, cols: int)
    ensures ClampSpan(req, pos, rows, cols).rows >= 1 && ClampSpan(req, pos, rows, cols).cols >= 1
    ensures pos.row < rows ==> pos.row + ClampSpan(req, pos, rows, cols).rows <= rows
    ensures pos.col < cols ==> pos.col + ClampSpan(req, pos, rows, cols).cols <= cols
    ensures 1 <= req.rows <= rows - pos.row ==> ClampSpan(req, pos, rows, cols).rows == req.rows
    ensures 1 <= req.cols <= cols - pos.col ==> ClampSpan(req, pos, rows, cols).cols == req.cols
    ensures ClampSpan(ClampSpan(req, pos, rows, cols), pos, rows, cols) == ClampSpan(req, pos, rows, cols)
  {
  }

  /** The resize map: every entry with that id gets the clamped span. */
  function Resized(cs: seq<Content>, id: string, req: Span, rows: int, cols: int): (r: seq<Content>)
    ensures |r| == |cs|
    ensures forall i :: 0 <= i < |cs| ==>
      r[i] == if cs[i].id == id then cs[i].(span := ClampSpan(req, cs[i].position, rows, cols)) else cs[i]
  {
    if |cs| == 0 then []
    else
      [if cs[0].id == id then cs[0].(span := ClampSpan(req, cs[0].position, rows, cols)) else cs[0]]
      + Resized(cs[1..], id, req, rows, cols)
  }

  /** The resized content fits inside the grid when its anchor does. */
  lemma ResizedWithinGrid(cs: seq<Content>, id: string, req: Span, rows: int, cols: int, i: int)
    requires 0 <= i < |cs| && cs[i].id == id
    requires 0 <= cs[i].position.row < rows && 0 <= cs[i].position.col < cols
    ensures var c := Resized(cs, id, req, rows, cols)[i];
      c.span.rows >= 1 && c.span.cols >= 1 &&
      c.position.row + c.span.rows <= rows && c.position.col + c.span.cols <= cols
  {
    ClampSpanBounds(req, cs[i].position, rows, cols);
  }

  /** Repeating the same resize request changes nothing. */
  lemma ResizeIdempotent(cs: seq<Content>, id: string, req: Span, rows: int, cols: int)
    ensures Resized(Resized(cs, id, req, rows, cols), id, req, rows, cols) == Resized(cs, id, req, rows, cols)
  {
    var once := Resized(cs, id, req, rows, cols);
    var twice := Resized(once, id, req, rows, cols);
    assert forall i :: 0 <= i < |cs| ==> twice[i] == once[i];
  }

  // ------------------------------------------------------- update and delete

  /** `{ ...c, ...u }`: each field given in `u` replaces the content's own. */
  function Merge(c: Content, u: Updates): (r: Content)
  {
    Content(
      if u.id.Some? then u.id.value else c.id,
      if u.kind.Some? then u.kind.value else c.kind,
      if u.span.Some? then u.span.value else c.span,
      if u.position.Some? then u.position.value else c.position,
      if u.properties.Some? then u.properties.value else c.properties)
  }

  /** Merging no fields is the identity, and merging twice is merging once. */
  lemma MergeLaws(c: Content, u: Updates)
    ensures Merge(c, Updates(None, None, None, None, None)) == c
    ensures Merge(Merge(c, u), u) == Merge(c, u)
    ensures u.properties.Some? ==> Merge(c, u).properties == u.properties.value
    ensures u.properties.None? ==> Merge(c, u).properties == c.properties
  {
  }

  /** The update map of `handleUpdateContent`. */
  function Updated(cs: seq<Content>, id: string, u: Updates): (r: seq<Content>)
    ensures |r| == |cs|
    ensures forall i :: 0 <= i < |cs| ==> r[i] == if cs[i].id == id then Merge(cs[i], u) else cs[i]
  {
    if |cs| == 0 then []
    else [if cs[0].id == id then Merge(cs[0], u) else cs[0]] + Updated(cs[1..], id, u)
  }

  /** Every content's properties form a JavaScript object: no key appears twice. */
  predicate KeysDistinct(cs: seq<Content>)
  {
    forall i :: 0 <= i < |cs| ==> DistinctKeys(cs[i].properties)
  }

  /** An update that replaces the properties brings an object with distinct keys. */
  predicate UpdatesDistinct(u: Updates)
  {
    u.properties.Some? ==> DistinctKeys(u.properties.value)
  }

  /** The filter of `handleDeleteContent`: the entries whose id differs, in order. */
  function Deleted(cs: seq<Content>, id: string): (r: seq<Content>)
    ensures |r| <= |cs|
    ensures forall c :: c in r ==> c in cs && c.id != id
    ensures forall c :: c in cs && c.id != id ==> c in r
  {
    if |cs| == 0 then []
    else if cs[0].id == id then Deleted(cs[1..], id)
    else [cs[0]] + Deleted(cs[1..], id)
  }

  /** Deleting an id nobody has leaves the list unchanged. */
  lemma {:induction false} DeleteAbsent(cs: seq<Content>, id: string)
    requires forall i :: 0 <= i < |cs| ==> cs[i].id != id
    ensures Deleted(cs, id) == cs
  {
    if |cs| > 0 {
      DeleteAbsent(cs[1..], id);
    }
  }

  /** Deletion works piecewise, so the survivors keep their relative order. */
  lemma {:induction false} DeleteDistributes(a: seq<Content>, b: seq<Content>, id: string)
    ensures Deleted(a + b, id) == Deleted(a, id) + Deleted(b, id)
  {
    if |a| > 0 {
      assert (a + b)[1..] == a[1..] + b;
      DeleteDistributes(a[1..], b, id);
    } else {
      assert a + b == b;
    }
  }

  /** Deletion keeps the multiplicity of every survivor and drops every copy of the id. */
  lemma {:induction false} DeleteCounts(cs: seq<Content>, id: string, c: Content)
    ensures multiset(Deleted(cs, id))[c] == if c.id == id then 0 else multiset(cs)[c]
  {
    if |cs| > 0 {
      DeleteCounts(cs[1..], id, c);
      assert cs == [cs[0]] + cs[1..];
      var rest := Deleted(cs[1..], id);
      if cs[0].id == id {
        assert Deleted(cs, id) == rest;
      } else {
        assert Deleted(cs, id) == [cs[0]] + rest;
        assert multiset(Deleted(cs, id)) == multiset([cs[0]]) + multiset(rest);
      }
      assert multiset(cs) == multiset([cs[0]]) + multiset(cs[1..]);
    }
  }

  // ------------------------------------------------------- cell enumeration

  /** The row-major index of cell `(r, c)`. */
  function CellIndex(r: int, c: int, cols: int): int { r * cols + c }

  /** The cells rendered row-major: index `i` is cell `(i / cols, i % cols)`. */
  function Cells(rows: int, cols: int): (r: seq<Position>)
    requires rows >= 1 && cols >= 1
    ensures |r| == rows * cols
  {
    seq(rows * cols, i requires 0 <= i < rows * cols => Position(i / cols, i % cols))
  }

  lemma MulAtLeast(d: int, cols: int)
    requires d >= 1 && cols >= 1
    ensures d * cols >= cols
  {
    assert d * cols == (d - 1) * cols + cols;
  }

  lemma DivModUnique(i: int, cols: int, r: int, c: int)
    requires cols >= 1 && 0 <= c < cols && i == r * cols + c
    ensures i / cols == r && i % cols == c
  {
    var q, m := i / cols, i % cols;
    assert i == q * cols + m;
    assert (q - r) * cols == q * cols - r * cols;
    assert (q - r) * cols == c - m;
    if q > r {
      MulAtLeast(q - r, cols);
    } else if q < r {
      MulAtLeast(r - q, cols);
    }
  }

  lemma CellInRange(rows: int, cols: int, i: int)
    requires rows >= 1 && cols >= 1 && 0 <= i < rows * cols
    ensures 0 <= i / cols < rows && 0 <= i % cols < cols
    ensures (i / cols) * cols + i % cols == i
  {
    var q := i / cols;
  }

  lemma CellIndexInRange(rows: int, cols: int, r: int, c: int)
    requires rows >= 1 && cols >= 1 && 0 <= r < rows && 0 <= c < cols
    ensures 0 <= r * cols + c < rows * cols
  {
    assert rows * cols == (rows - 1 - r) * cols + r * cols + cols;
    if rows - 1 - r > 0 {
      MulAtLeast(rows - 1 - r, cols);
    }
    if r > 0 {
      MulAtLeast(r, cols);
    }
  }

  /** Every index of the enumeration lands on a cell of the grid, and back. */
  lemma CellsInGrid(rows: int, cols: int)
    requires rows >= 1 && cols >= 1
    ensures forall i :: 0 <= i < rows * cols ==>
      0 <= Cells(rows, cols)[i].row < rows && 0 <= Cells(rows, cols)[i].col < cols &&
      CellIndex(Cells(rows, cols)[i].row, Cells(rows, cols)[i].col, cols) == i
  {
    var cells := Cells(rows, cols);
    forall i | 0 <= i < rows * cols
      ensures 0 <= cells[i].row < rows && 0 <= cells[i].col < cols
      ensures CellIndex(cells[i].row, cells[i].col, cols) == i
    {
      CellInRange(rows, cols, i);
    }
  }

  lemma CellAtIndex(rows: int, cols: int, r: int, c: int)
    requires rows >= 1 && cols >= 1 && 0 <= r < rows && 0 <= c < cols
    ensures 0 <= CellIndex(r, c, cols) < rows * cols && Cells(rows, cols)[CellIndex(r, c, cols)] == Position(r, c)
  {
    var i := r * cols + c;
    CellIndexInRange(rows, cols, r, c);
    DivModUnique(i, cols, r, c);
    assert Cells(rows, cols)[i] == Position(i / cols, i % cols);
  }

  /** Every cell `(r, c)` of the grid is enumerated, at index `r * cols + c`. */
  lemma CellsCoverGrid(rows: int, cols: int)
    requires rows >= 1 && cols >= 1
    ensures forall r, c :: 0 <= r < rows && 0 <= c < cols ==>
      0 <= CellIndex(r, c, cols) < rows * cols && Cells(rows, cols)[CellIndex(r, c, cols)] == Position(r, c)
  {
    forall r, c | 0 <= r < rows && 0 <= c < cols
      ensures 0 <= CellIndex(r, c, cols) < rows * cols && Cells(rows, cols)[CellIndex(r, c, cols)] == Position(r, c)
    {
      CellAtIndex(rows, cols, r, c);
    }
  }

  /** What the grid renders in one cell: the anchored content, or a hidden covered cell. */
  datatype CellView = CellView(content: Option<Content>, isOccupied: bool)

  function ViewOfCell(cs: seq<Content>, row: int, col: int): CellView
  {
    var content := ContentForCell(cs, row, col);
    var main := IsCellMainContent(cs, row, col);
    CellView(if main then content else None, IsCellOccupied(cs, row, col) && !main)
  }

  /**
   * With disjoint 1x1-or-larger footprints, an anchor cell shows exactly the
   * content anchored there, a covered non-anchor cell is hidden, and a free
   * cell shows nothing.
   */
  lemma ViewOfCellCorrect(cs: seq<Content>, row: int, col: int)
    requires Disjoint(cs) && SpansPositive(cs)
    ensures var v := ViewOfCell(cs, row, col);
      (v.content.Some? <==> IsCellMainContent(cs, row, col)) &&
      (v.content.Some? ==> v.content.value in cs && v.content.value.position == Position(row, col)) &&
      (v.isOccupied <==> IsCellOccupied(cs, row, col) && !IsCellMainContent(cs, row, col)) &&
      !(v.content.Some? && v.isOccupied)
  {
    if IsCellMainContent(cs, row, col) {
      MainContentIsOccupied(cs, row, col);
      var k :| 0 <= k < |cs| && cs[k].position == Position(row, col);
      var found := ContentForCell(cs, row, col);
      assert found.Some?;
      var i :| IsFirstCovering(cs, i, row, col) && cs[i] == found.value;
      assert 0 <= i < |cs| && Covers(cs[i], row, col);
      assert Covers(cs[k], row, col);
      DisjointCoverUnique(cs, i, k, row, col);
    }
  }

  // ------------------------------------------------------------- ordering

  /** The comparator `(a, b) => a.row - b.row || a.col - b.col` does not put `b` before `a`. */
  predicate PosLeq(a: Content, b: Content)
  {
    a.position.row < b.position.row || (a.position.row == b.position.row && a.position.col <= b.position.col)
  }

  predicate SortedByPosition(s: seq<Content>)
  {
    forall i, j :: 0 <= i < j < |s| ==> PosLeq(s[i], s[j])
  }

  /** Prepending an entry that precedes the head keeps a list sorted. */
  lemma SortedCons(x: Content, t: seq<Content>)
    requires SortedByPosition(t)
    requires |t| > 0 ==> PosLeq(x, t[0])
    ensures SortedByPosition([x] + t)
  {
    var r := [x] + t;
    forall i, j | 0 <= i < j < |r| ensures PosLeq(r[i], r[j]) {
      if i == 0 {
        assert r[j] == t[j - 1];
        if j > 1 { assert PosLeq(t[0], t[j - 1]); }
      } else {
        assert r[i] == t[i - 1] && r[j] == t[j - 1];
      }
    }
  }

  lemma SortedTail(s: seq<Content>)
    requires SortedByPosition(s) && |s| > 0
    ensures SortedByPosition(s[1..])
  {
    forall i, j | 0 <= i < j < |s[1..]| ensures PosLeq(s[1..][i], s[1..][j]) {
      assert s[1..][i] == s[i + 1] && s[1..][j] == s[j + 1];
    }
  }

  /** Insert `c` before the first entry it does not follow, keeping ties in input order. */
  function InsertByPosition(c: Content, s: seq<Content>): (r: seq<Content>)
    requires SortedByPosition(s)
    ensures SortedByPosition(r)
    ensures multiset(r) == multiset(s) + multiset{c}
    ensures |r| == |s| + 1 && (r[0] == c || (|s| > 0 && r[0] == s[0]))
  {
    if |s| == 0 || PosLeq(c, s[0]) then
      SortedCons(c, s);
      [c] + s
    else
      SortedTail(s);
      var rest := InsertByPosition(c, s[1..]);
      assert |s| > 1 ==> PosLeq(s[0], s[1]);
      SortedCons(s[0], rest);
      assert s == [s[0]] + s[1..];
      assert multiset([s[0]] + rest) == multiset([s[0]]) + multiset(rest);
      assert multiset(s) == multiset([s[0]]) + multiset(s[1..]);
      [s[0]] + rest
  }

  /**
   * `[...contents].sort(byPosition)`: a stable insertion sort; the result is
   * in ascending (row, col) order and is a permutation of the input.
   */
  function SortByPosition(s: seq<Content>): (r: seq<Content>)
    ensures SortedByPosition(r)
    ensures multiset(r) == multiset(s)
    ensures |r| == |s|
  {
    if |s| == 0 then []
    else
      assert s == [s[0]] + s[1..];
      InsertByPosition(s[0], SortByPosition(s[1..]))
  }

  // ---------------------------------------------------------- the component

  /** The state of the `WireframeGrid` component and its handlers. */
  class WireframeGrid {
    var rows: int
    var cols: int
    var contents: seq<Content>
    var selectedCell: Option<Position>
    var selectedContent: Option<Content>
    var pendingComponentType: Option<string>

    /** The dimensions start at 8 and the +/- buttons never take them below 1. */
    ghost predicate Valid()
      reads this
    {
      rows >= 1 && cols >= 1
    }

    constructor ()
      ensures Valid()
      ensures rows == 8 && cols == 8 && contents == []
      ensures selectedCell == None && selectedContent == None && pendingComponentType == None
    {
      rows, cols := 8, 8;
      contents := [];
      selectedCell, selectedContent, pendingComponentType := None, None, None;
    }

    method AddRow()
      requires Valid()
      modifies this`rows
      ensures Valid() && rows == old(rows) + 1
    {
      rows := rows + 1;
    }

    method RemoveRow()
      requires Valid()
      modifies this`rows
      ensures Valid() && rows == Max(1, old(rows) - 1)
    {
      rows := Max(1, rows - 1);
    }

    method AddCol()
      requires Valid()
      modifies this`cols
      ensures Valid() && cols == old(cols) + 1
    {
      cols := cols + 1;
    }

    method RemoveCol()
      requires Valid()
      modifies this`cols
      ensures Valid() && cols == Max(1, old(cols) - 1)
    {
      cols := Max(1, cols - 1);
    }

    /** `handleComponentSelect`: arm a palette type for the next click. */
    method HandleComponentSelect(kind: string)
      modifies this`pendingComponentType, this`selectedContent
      ensures pendingComponentType == Some(kind) && selectedContent == None
    {
      pendingComponentType := Some(kind);
      selectedContent := None;
    }

    /**
     * `handleAddContent`: place a new 1x1 content at the explicit cell, or at
     * the selected cell when none is given; with neither, nothing happens.
     * `freshId` stands for the id built from the current time.
     */
    method HandleAddContent(kind: string, row: Option<int>, col: Option<int>, freshId: string)
      modifies this`contents, this`selectedCell
      ensures var pos := if row.Some? && col.Some? then Some(Position(row.value, col.value)) else old(selectedCell);
        if pos.None? then contents == old(contents) && selectedCell == old(selectedCell)
        else contents == old(contents) + [NewContent(freshId, kind, pos.value)] && selectedCell == None
    {
      var pos := if row.Some? && col.Some? then Some(Position(row.value, col.value)) else selectedCell;
      if pos.None? {
        return;
      }
      contents := contents + [NewContent(freshId, kind, pos.value)];
      selectedCell := None;
    }

    /**
     * `handleCellClick`: select the covering content; or place the pending
     * type on the free cell and disarm it; or select the free cell. A pending
     * `""` is falsy and counts as no pending type.
     */
    method HandleCellClick(row: int, col: int, freshId: string)
      modifies this`contents, this`selectedCell, this`selectedContent, this`pendingComponentType
      ensures var hit := ContentForCell(old(contents), row, col);
        if hit.Some? then
          contents == old(contents) && selectedContent == hit && selectedCell == None && pendingComponentType == None
        else if old(pendingComponentType).Some? && old(pendingComponentType).value != "" then
          contents == old(contents) + [NewContent(freshId, old(pendingComponentType).value, Position(row, col))] &&
          selectedCell == None && pendingComponentType == None && selectedContent == old(selectedContent)
        else
          contents == old(contents) && selectedCell == Some(Position(row, col)) && selectedContent == None &&
          pendingComponentType == old(pendingComponentType)
      ensures Disjoint(old(contents)) ==> Disjoint(contents)
    {
      var content := ContentForCell(contents, row, col);
      if content.Some? {
        selectedContent := content;
        selectedCell := None;
        pendingComponentType := None;
      } else if pendingComponentType.Some? && pendingComponentType.value != "" {
        if Disjoint(contents) {
          AddKeepsDisjoint(contents, freshId, pendingComponentType.value, row, col);
        }
        HandleAddContent(pendingComponentType.value, Some(row), Some(col), freshId);
        pendingComponentType := None;
      } else {
        selectedCell := Some(Position(row, col));
        selectedContent := None;
      }
    }

    /**
     * `handleCellDrop`: a drop on any covered cell (the dragged content's own
     * included) is ignored; an existing id moves there; any other payload is a
     * palette type and is added there.
     */
    method HandleCellDrop(row: int, col: int, data: string, freshId: string)
      modifies this`contents, this`selectedCell, this`pendingComponentType
      ensures IsCellOccupied(old(contents), row, col) ==>
        contents == old(contents) && selectedCell == old(selectedCell) &&
        pendingComponentType == old(pendingComponentType)
      ensures !IsCellOccupied(old(contents), row, col) && FindById(old(contents), data).Some? ==>
        contents == MoveTo(old(contents), data, Position(row, col)) &&
        selectedCell == old(selectedCell) && pendingComponentType == old(pendingComponentType)
      ensures !IsCellOccupied(old(contents), row, col) && FindById(old(contents), data).None? ==>
        contents == old(contents) + [NewContent(freshId, data, Position(row, col))] &&
        selectedCell == None && pendingComponentType == None &&
        (Disjoint(old(contents)) ==> Disjoint(contents))
    {
      var existing := ContentForCell(contents, row, col);
      if existing.Some? {
        return;
      }
      var moving := FindById(contents, data);
      if moving.Some? {
        contents := MoveTo(contents, data, Position(row, col));
      } else {
        if Disjoint(contents) {
          AddKeepsDisjoint(contents, freshId, data, row, col);
        }
        HandleAddContent(data, Some(row), Some(col), freshId);
        pendingComponentType := None;
      }
    }

    /** `handleUpdateContent`: merge into every matching entry, and into the selection. */
    method HandleUpdateContent(contentId: string, updates: Updates)
      modifies this`contents, this`selectedContent
      ensures contents == Updated(old(contents), contentId, updates)
      ensures KeysDistinct(old(contents)) && UpdatesDistinct(updates) ==> KeysDistinct(contents)
      ensures selectedContent ==
        if old(selectedContent).Some? && old(selectedContent).value.id == contentId
        then Some(Merge(old(selectedContent).value, updates)) else old(selectedContent)
    {
      contents := Updated(contents, contentId, updates);
      if selectedContent.Some? && selectedContent.value.id == contentId {
        selectedContent := Some(Merge(selectedContent.value, updates));
      }
    }

    /** `handleResizeContent`: clamp the requested span to the grid edge. */
    method HandleResizeContent(contentId: string, newSpan: Span)
      modifies this`contents
      ensures contents == Resized(old(contents), contentId, newSpan, rows, cols)
    {
      contents := Resized(contents, contentId, newSpan, rows, cols);
    }

    method HandleDeleteContent(contentId: string)
      modifies this`contents
      ensures contents == Deleted(old(contents), contentId)
    {
      contents := Deleted(contents, contentId);
    }

    method HandleClearAll()
      modifies this`contents
      ensures contents == []
    {
      contents := [];
    }
  }
}
