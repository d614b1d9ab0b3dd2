/**
 * The framebuffer in place: rows and drawing state updated step by step
 * (alfalfa/src/terminal/terminalframebuffer.cc, terminal.cc), each method against the
 * function on screens that says what it does.
 */
module Framebuffers {
  import opened Screens
  import opened ControlFunctions

  class Framebuffer {
    var rows: seq<Row>
    var ds: DrawState
    var icon: seq<Char>
    var title: seq<Char>
    var bells: nat

    ghost function Value(): Screen
      reads this
    {
      Screen(rows, ds, icon, title, bells)
    }

    constructor (width: int, height: int)
      requires 0 < width && 0 < height
      ensures Shaped(Value()) && Value() == InitialScreen(width, height)
    {
      rows := BlankRows(width, height, 0);
      ds := InitialState(width, height);
      icon, title, bells := [], [], 0;
    }

    method ResetCell(row: int, col: int)
      requires 0 <= row < |rows| && 0 <= col < |rows[row]|
      modifies this`rows
      ensures rows == old(rows)[row := old(rows)[row][col := Blank(ds.renditions.background)]]
    {
      rows := rows[row := rows[row][col := Blank(ds.renditions.background)]];
    }

    /** Reset the cells of a row from start to end, one by one. */
    method ClearCells(row: int, start: int, end: int)
      requires Shaped(Value()) && 0 <= row < ds.height && 0 <= start && end < ds.width
      modifies this`rows
      ensures Value() == ClearLine(old(Value()), row, start, end)
    {
      ghost var cells, bg := rows[row], ds.renditions.background;
      var col := start;
      ClearedNone(cells, start, bg);
      assert rows[row := cells] == rows;
      while col <= end
        invariant start <= col && (if start <= end then col <= end + 1 else col == start) && |rows| == |old(rows)|
        invariant rows == old(rows)[row := Cleared(cells, start, col - 1, bg)]
      {
        ClearedMore(cells, start, col, bg);
        ResetCell(row, col);
        col := col + 1;
      }
      ClearedBeyond(cells, start, col - 1, end, bg);
    }

    method ResetRows(from: int, to: int)
      requires Shaped(Value()) && 0 <= from && to <= ds.height
      modifies this`rows
      ensures Value() == ClearRows(old(Value()), from, to)
    {
      ghost var s := Value();
      var y := from;
      RowsClearedNone(s, from);
      while y < to
        invariant from <= y && (if from <= to then y <= to else y == from)
        invariant rows == ClearRows(s, from, y).rows
      {
        RowsClearedMore(s, from, y);
        rows := rows[y := BlankRow(ds.width, ds.renditions.background)];
        y := y + 1;
      }
      RowsClearedBeyond(s, from, y, to);
    }

    method RemoveLine(row: int)
      requires Shaped(Value())
      modifies this`rows
      ensures Value() == DeleteLine(old(Value()), row)
    {
      if row < ds.top || row > ds.bottom {
        return;
      }
      var before := ds.bottom + 1;
      rows := rows[..before] + [BlankRow(ds.width, ds.renditions.background)] + rows[before..];
      rows := rows[..row] + rows[row + 1..];
    }

    method AddLine(before: int)
      requires Shaped(Value())
      modifies this`rows
      ensures Value() == InsertLine(old(Value()), before)
    {
      if before < ds.top || before > ds.bottom + 1 {
        return;
      }
      rows := rows[..before] + [BlankRow(ds.width, ds.renditions.background)] + rows[before..];
      rows := rows[..ds.bottom + 1] + rows[ds.bottom + 2..];
    }

    method ScrollBy(n: int)
      requires Shaped(Value())
      modifies this`rows, this`ds
      ensures Value() == Scroll(old(Value()), n)
    {
      hide Shaped, DeleteLine, InsertLine, MoveRow;
      ghost var s := Value();
      if n >= 0 {
        var i := 0;
        while i < n
          invariant 0 <= i <= n
          invariant Value() == ScrollUp(s, i)
        {
          StateIsOk(Value());
          RemoveLine(ds.top);
          StateIsOk(Value());
          ds := MoveRow(ds, -1, true);
          i := i + 1;
        }
      } else {
        var i := 0;
        while i < -n
          invariant 0 <= i <= -n
          invariant Value() == ScrollDown(s, i)
        {
          StateIsOk(Value());
          AddLine(ds.top);
          StateIsOk(Value());
          ds := MoveRow(ds, 1, true);
          i := i + 1;
        }
      }
    }

    method MoveRowsAutoscroll(n: int)
      requires Shaped(Value())
      modifies this`rows, this`ds
      ensures Value() == AutoScroll(old(Value()), n)
    {
      hide Shaped, Scroll, MoveRow;
      StateIsOk(Value());
      if ds.row < ds.top || ds.row > ds.bottom {
        ds := MoveRow(ds, n, true);
        return;
      }
      if ds.row + n > ds.bottom {
        ScrollBy(ds.row + n - ds.bottom);
      } else if ds.row + n < ds.top {
        ScrollBy(ds.row + n - ds.top);
      }
      StateIsOk(Value());
      ds := MoveRow(ds, n, true);
    }

    method GetNextTab() returns (col: int)
      requires Shaped(Value())
      ensures col == NextTab(ds.tabs, ds.col + 1)
    {
      var i := ds.col + 1;
      while i < ds.width
        invariant ds.col < i <= ds.width
        invariant NextTab(ds.tabs, ds.col + 1) == NextTab(ds.tabs, i)
      {
        if ds.tabs[i] {
          return i;
        }
        i := i + 1;
      }
      return -1;
    }

    /** Rows are added or dropped at the bottom, then each is brought to the new width. */
    method ResizeTo(width: int, height: int)
      requires Shaped(Value()) && 0 < width && 0 < height
      modifies this`rows, this`ds
      ensures Value() == Resize(old(Value()), width, height)
    {
      hide ResizedState, ResizedRow;
      ghost var s := Value();
      var bg := ds.renditions.background;
      var blank := BlankRow(ds.width, bg);
      rows := if height <= |rows| then rows[..height] else rows + seq(height - |rows|, _ => blank);
      assert forall r | 0 <= r < height :: rows[r] == RowForResize(s, r);
      var i := 0;
      while i < height
        invariant 0 <= i <= height == |rows| && ds == s.ds
        invariant forall r | 0 <= r < i :: rows[r] == ResizedRow(RowForResize(s, r), width, bg)
        invariant forall r | i <= r < height :: rows[r] == RowForResize(s, r)
      {
        rows := rows[i := ResizedRow(rows[i], width, bg)];
        i := i + 1;
      }
      assert rows == ResizedRows(s, width, height);
      ds := ResizedState(ds, width, height);
    }

    /** A character of one or two columns. */
    method PrintSpacing(ch: Char, w: int)
      requires Shaped(Value()) && 1 <= w <= 2
      modifies this`rows, this`ds
      ensures Value() == PrintWide(old(Value()), ch, w)
    {
      hide Shaped, AutoScroll, MoveCol, Advance, InsertCell, SetWrap, WrapForPrint;
      ghost var s := Value();
      WrapIfNeeded(w);
      ghost var s1 := Value();
      if ds.insert {
        var i := 0;
        while i < w
          invariant 0 <= i <= w && Value() == InsertForPrint(s1, i)
        {
          StateIsOk(Value());
          InsertAt(ds.row, ds.col);
          i := i + 1;
        }
      }
      StateIsOk(Value());
      rows := rows[ds.row := rows[ds.row][ds.col := Cell([ch], false, w, ds.renditions, false)]];
      if w == 2 && ds.col + 1 < ds.width {
        ResetCell(ds.row, ds.col + 1);
      }
      ds := Advance(ds, w);
    }

    method InsertAt(row: int, col: int)
      requires Shaped(Value()) && 0 <= row < ds.height && 0 <= col < ds.width
      modifies this`rows
      ensures Value() == InsertCell(old(Value()), row, col)
    {
      var cells := rows[row][..col] + [Blank(ds.renditions.background)] + rows[row][col..];
      rows := rows[row := cells[..|cells| - 1]];
    }

    method WrapIfNeeded(w: int)
      requires Shaped(Value())
      modifies this`rows, this`ds
      ensures Value() == WrapForPrint(old(Value()), w)
    {
      hide Shaped, AutoScroll, MoveCol;
      StateIsOk(Value());
      if ds.autoWrap && ds.wrapNext {
        MarkWrap(true);
        ToFirstColumn();
        MoveRowsAutoscroll(1);
      } else if ds.autoWrap && w == 2 && ds.col == ds.width - 1 {
        ResetCell(ds.row, ds.col);
        assert Value() == SetCell(old(Value()), ds.row, ds.col, Blank(ds.renditions.background));
        MarkWrap(false);
        ToFirstColumn();
        MoveRowsAutoscroll(1);
      }
    }

    method ToFirstColumn()
      requires Shaped(Value())
      modifies this`ds
      ensures Shaped(Value()) && Value() == WithState(old(Value()), MoveCol(old(ds), 0, false))
    {
      hide MoveCol;
      ds := MoveCol(ds, 0, false);
    }

    method MarkWrap(wrap: bool)
      requires Shaped(Value())
      modifies this`rows
      ensures Value() == SetWrap(old(Value()), ds.row, wrap)
    {
      var last := ds.width - 1;
      rows := rows[ds.row := rows[ds.row][last := rows[ds.row][last].(wrap := wrap)]];
    }
  }

  lemma StateIsOk(s: Screen)
    requires Shaped(s)
    ensures StateOk(s.ds) && RowsOk(s.rows, s.ds.width, s.ds.height)
  {
  }

  lemma ClearedNone(row: Row, start: int, bg: int)
    ensures Cleared(row, start, start - 1, bg) == row
  {
  }

  lemma ClearedMore(row: Row, start: int, col: int, bg: int)
    requires 0 <= start <= col < |row|
    ensures Cleared(row, start, col, bg) == Cleared(row, start, col - 1, bg)[col := Blank(bg)]
  {
  }

  /** A range that ends before it starts clears nothing. */
  lemma ClearedBeyond(row: Row, start: int, a: int, b: int, bg: int)
    requires a == b || (a < start && b < start)
    ensures Cleared(row, start, a, bg) == Cleared(row, start, b, bg)
  {
  }

  lemma RowsClearedNone(s: Screen, from: int)
    requires Shaped(s)
    ensures ClearRows(s, from, from).rows == s.rows
  {
  }

  lemma RowsClearedMore(s: Screen, from: int, y: int)
    requires Shaped(s) && 0 <= from <= y < s.ds.height
    ensures ClearRows(s, from, y + 1).rows == ClearRows(s, from, y).rows[y := NewRow(s)]
  {
  }

  lemma RowsClearedBeyond(s: Screen, from: int, a: int, b: int)
    requires Shaped(s) && (a == b || (a <= from && b <= from))
    ensures ClearRows(s, from, a).rows == ClearRows(s, from, b).rows
  {
  }
}
