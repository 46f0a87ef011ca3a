/**
 * The resize gesture of a placed component: a cursor displacement in
 * pixels becomes a change of span by rounding to whole cells of 108 pixels
 * (100-pixel minimum cell plus 8-pixel gap), clamped between 1 and the grid
 * edge, and emitted only when it differs from the span at the gesture start.
 * Pixel coordinates are integers here.
 */
module Resizer {
  import opened Wrappers
  import opened Grid

  /** Which handle was grabbed: the corner, the right edge or the bottom edge. */
  datatype Direction = SE | E | S

  /** A displacement `(deltaX, deltaY)` from the cursor position at mouse-down. */
  datatype Delta = Delta(dx: int, dy: int)

  const MinCellSize: int := 100
  const Gap: int := 8
  const CellPitch: int := MinCellSize + Gap

  /**
   * `Math.round(delta / 108)`, which is `floor(delta / 108 + 1/2)`: the
   * integer nearest to `delta / 108`, halves rounded up.
   */
  function RoundedCells(delta: int): (k: int)
    ensures 2 * CellPitch * k - CellPitch <= 2 * delta < 2 * CellPitch * k + CellPitch
  {
    (2 * delta + CellPitch) / (2 * CellPitch)
  }

  /** The rounding band determines the result: there is exactly one nearest integer. */
  lemma RoundedCellsUnique(delta: int, k: int)
    requires 2 * CellPitch * k - CellPitch <= 2 * delta < 2 * CellPitch * k + CellPitch
    ensures k == RoundedCells(delta)
  {
    var q := RoundedCells(delta);
  }

  /** The span computed on a mouse move, from the values captured at mouse-down. */
  function NewSpan(dir: Direction, start: Span, pos: Position, maxRows: int, maxCols: int, d: Delta): (s: Span)
    ensures dir == E ==> s.rows == start.rows
    ensures dir == S ==> s.cols == start.cols
    ensures dir != E ==> s.rows >= 1 && (pos.row < maxRows ==> pos.row + s.rows <= maxRows)
    ensures dir != S ==> s.cols >= 1 && (pos.col < maxCols ==> pos.col + s.cols <= maxCols)
    // the rounded row change, clamped to at least 1 and to the grid edge
    ensures dir != E && 1 <= start.rows + RoundedCells(d.dy) <= maxRows - pos.row ==> s.rows == start.rows + RoundedCells(d.dy)
    ensures dir != E && start.rows + RoundedCells(d.dy) > maxRows - pos.row >= 1 ==> s.rows == maxRows - pos.row
    ensures dir != E && start.rows + RoundedCells(d.dy) < 1 ==> s.rows == 1
    ensures dir != E && maxRows - pos.row < 1 ==> s.rows == 1
    // the same for the columns
    ensures dir != S && 1 <= start.cols + RoundedCells(d.dx) <= maxCols - pos.col ==> s.cols == start.cols + RoundedCells(d.dx)
    ensures dir != S && start.cols + RoundedCells(d.dx) > maxCols - pos.col >= 1 ==> s.cols == maxCols - pos.col
    ensures dir != S && start.cols + RoundedCells(d.dx) < 1 ==> s.cols == 1
    ensures dir != S && maxCols - pos.col < 1 ==> s.cols == 1
  {
    var newRows := if dir.E? then start.rows else Max(1, Min(maxRows - pos.row, start.rows + RoundedCells(d.dy)));
    var newCols := if dir.S? then start.cols else Max(1, Min(maxCols - pos.col, start.cols + RoundedCells(d.dx)));
    Span(newRows, newCols)
  }

  /** The span passed to `onResize`, or `None` when it equals the span at mouse-down. */
  function Emitted(dir: Direction, start: Span, pos: Position, maxRows: int, maxCols: int, d: Delta): (r: Option<Span>)
    ensures r.Some? <==> NewSpan(dir, start, pos, maxRows, maxCols, d) != start
    ensures r.Some? ==> r.value == NewSpan(dir, start, pos, maxRows, maxCols, d)
  {
    var s := NewSpan(dir, start, pos, maxRows, maxCols, d);
    if s != start then Some(s) else None
  }

  /** The start span lies between 1x1 and the grid edge. */
  predicate StartFits(start: Span, pos: Position, maxRows: int, maxCols: int)
  {
    1 <= start.rows <= maxRows - pos.row && 1 <= start.cols <= maxCols - pos.col
  }

  /** A displacement of less than half a cell emits nothing when the start span fits. */
  lemma SmallMoveEmitsNothing(dir: Direction, start: Span, pos: Position, maxRows: int, maxCols: int, d: Delta)
    requires StartFits(start, pos, maxRows, maxCols)
    requires -CellPitch / 2 <= d.dx < CellPitch / 2 && -CellPitch / 2 <= d.dy < CellPitch / 2
    ensures Emitted(dir, start, pos, maxRows, maxCols, d) == None
  {
    RoundedCellsUnique(d.dx, 0);
    RoundedCellsUnique(d.dy, 0);
  }

  /**
   * After the grid has shrunk below a component, even a zero displacement
   * emits: the start span is clamped to the new edge.
   */
  lemma ZeroMoveClampsOversized(dir: Direction, start: Span, pos: Position, maxRows: int, maxCols: int)
    requires dir == S && 1 <= maxRows - pos.row < start.rows
    ensures Emitted(dir, start, pos, maxRows, maxCols, Delta(0, 0)) == Some(start.(rows := maxRows - pos.row))
  {
    RoundedCellsUnique(0, 0);
  }

  // ------------------------------------------------ a gesture of several moves

  /**
   * The component's span after a gesture, as written: each move emits
   * `NewSpan` when it differs from the START span, and the store applies it
   * through its own clamp; a move back to the start span emits nothing.
   */
  function GestureAsWritten(dir: Direction, start: Span, pos: Position, maxRows: int, maxCols: int,
                            moves: seq<Delta>, current: Span): Span
    decreases |moves|
  {
    if |moves| == 0 then current
    else
      var e := Emitted(dir, start, pos, maxRows, maxCols, moves[0]);
      GestureAsWritten(dir, start, pos, maxRows, maxCols, moves[1..],
                       if e.Some? then ClampSpan(e.value, pos, maxRows, maxCols) else current)
  }

  /**
   * Dragging one row down and back again leaves the component two rows
   * tall, although the cursor is back where it started.
   */
  lemma GestureAsWrittenKeepsStaleSpan()
    ensures NewSpan(S, Span(1, 1), Position(0, 0), 8, 8, Delta(0, 0)) == Span(1, 1)
    ensures GestureAsWritten(S, Span(1, 1), Position(0, 0), 8, 8, [Delta(0, 108), Delta(0, 0)], Span(1, 1)) == Span(2, 1)
  {
    RoundedCellsUnique(108, 1);
    RoundedCellsUnique(0, 0);
    assert [Delta(0, 108), Delta(0, 0)][1..] == [Delta(0, 0)];
  }

  /**
   * The corrected gesture: emit when the new span differs from the span
   * last applied (the component's current span).
   */
  function GestureCorrected(dir: Direction, start: Span, pos: Position, maxRows: int, maxCols: int,
                            moves: seq<Delta>, current: Span): Span
    decreases |moves|
  {
    if |moves| == 0 then current
    else
      var s := NewSpan(dir, start, pos, maxRows, maxCols, moves[0]);
      GestureCorrected(dir, start, pos, maxRows, maxCols, moves[1..],
                       if s != current then ClampSpan(s, pos, maxRows, maxCols) else current)
  }

  /** `NewSpan` of a fitting start never needs the store's clamp. */
  lemma NewSpanIsClamped(dir: Direction, start: Span, pos: Position, maxRows: int, maxCols: int, d: Delta)
    requires StartFits(start, pos, maxRows, maxCols)
    ensures ClampSpan(NewSpan(dir, start, pos, maxRows, maxCols, d), pos, maxRows, maxCols)
            == NewSpan(dir, start, pos, maxRows, maxCols, d)
  {
  }

  /**
   * With the correction, the span after a gesture is the span computed from
   * the final displacement alone, whatever the intermediate moves were.
   */
  lemma {:induction false} GestureCorrectedFollowsLastMove(dir: Direction, start: Span, pos: Position,
                                                           maxRows: int, maxCols: int, moves: seq<Delta>, current: Span)
    requires StartFits(start, pos, maxRows, maxCols)
    requires |moves| > 0
    ensures GestureCorrected(dir, start, pos, maxRows, maxCols, moves, current)
            == NewSpan(dir, start, pos, maxRows, maxCols, moves[|moves| - 1])
    decreases |moves|
  {
    var s := NewSpan(dir, start, pos, maxRows, maxCols, moves[0]);
    NewSpanIsClamped(dir, start, pos, maxRows, maxCols, moves[0]);
    var next := if s != current then ClampSpan(s, pos, maxRows, maxCols) else current;
    assert next == s;
    if |moves| > 1 {
      GestureCorrectedFollowsLastMove(dir, start, pos, maxRows, maxCols, moves[1..], next);
      assert moves[1..][|moves[1..]| - 1] == moves[|moves| - 1];
    }
  }
}
