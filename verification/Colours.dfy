/**
 * Every control function and every printed character keeps the colours of the cells, of
 * the current renditions and of the saved cursor in the range that `sgr` can write, and
 * empty cells one column wide
 * (alfalfa/src/terminal/terminalframebuffer.cc, terminalfunctions.cc).
 */
module TerminalColours {
  import opened Outcomes
  import opened TerminalRenditions
  import opened Screens
  import opened ControlFunctions

  /** Colours in range, and an empty cell is one column wide. */
  predicate CellOk(cell: Cell) {
    Valid(cell.renditions) && (cell.contents == [] ==> cell.width == 1)
  }

  predicate RowColoured(row: Row) {
    forall i | 0 <= i < |row| :: CellOk(row[i])
  }

  predicate RowsColoured(rows: seq<Row>) {
    forall i | 0 <= i < |rows| :: RowColoured(rows[i])
  }

  predicate StateColoured(d: DrawState) {
    Valid(d.renditions) && Valid(d.save.renditions)
  }

  predicate Coloured(s: Screen) {
    StateColoured(s.ds) && RowsColoured(s.rows)
  }

  /** Only positions, margins and modes differ. */
  predicate SameColours(d: DrawState, e: DrawState) {
    d.renditions == e.renditions && d.save == e.save
  }

  // ---------------------------------------------------------------- rows

  lemma BlankColoured(r: Renditions)
    requires Valid(r)
    ensures CellOk(Blank(r.background)) && Valid(Plain(0))
  {
  }

  lemma BlankRowColoured(width: nat, r: Renditions)
    requires Valid(r)
    ensures RowColoured(BlankRow(width, r.background))
  {
    hide Valid;
    BlankColoured(r);
  }

  lemma RowSet(rows: seq<Row>, i: int, row: Row)
    requires RowsColoured(rows) && RowColoured(row) && 0 <= i < |rows|
    ensures RowsColoured(rows[i := row])
  {
    hide RowColoured;
  }

  lemma CellSet(row: Row, i: int, cell: Cell)
    requires RowColoured(row) && CellOk(cell) && 0 <= i < |row|
    ensures RowColoured(row[i := cell])
  {
    hide Valid;
  }

  lemma RowsSplit(rows: seq<Row>, i: int)
    requires RowsColoured(rows) && 0 <= i <= |rows|
    ensures RowsColoured(rows[..i]) && RowsColoured(rows[i..])
  {
    hide RowColoured;
  }

  lemma RowsJoin(a: seq<Row>, b: seq<Row>)
    requires RowsColoured(a) && RowsColoured(b)
    ensures RowsColoured(a + b)
  {
    hide RowColoured;
  }

  lemma RowSplit(row: Row, i: int)
    requires RowColoured(row) && 0 <= i <= |row|
    ensures RowColoured(row[..i]) && RowColoured(row[i..])
  {
    hide Valid;
  }

  lemma RowJoin(a: Row, b: Row)
    requires RowColoured(a) && RowColoured(b)
    ensures RowColoured(a + b)
  {
    hide Valid;
  }

  lemma OneRow(row: Row)
    requires RowColoured(row)
    ensures RowsColoured([row])
  {
  }

  lemma OneCell(r: Renditions)
    requires Valid(r)
    ensures RowColoured([Blank(r.background)])
  {
    BlankColoured(r);
  }

  lemma ClearedColoured(row: Row, start: int, end: int, r: Renditions)
    requires RowColoured(row) && Valid(r)
    ensures RowColoured(Cleared(row, start, end, r.background))
  {
    hide Valid;
    BlankColoured(r);
  }

  // ---------------------------------------------------------------- lines and cells

  lemma ClearLineColoured(s: Screen, row: int, start: int, end: int)
    requires Shaped(s) && Coloured(s) && 0 <= row < s.ds.height
    ensures Coloured(ClearLine(s, row, start, end))
  {
    hide Valid, Cleared;
    ClearedColoured(s.rows[row], start, end, s.ds.renditions);
    RowSet(s.rows, row, Cleared(s.rows[row], start, end, s.ds.renditions.background));
  }

  lemma ClearRowsColoured(s: Screen, from: int, to: int)
    requires Shaped(s) && Coloured(s)
    ensures Coloured(ClearRows(s, from, to)) && ClearRows(s, from, to).ds == s.ds
  {
    hide Valid, RowColoured, BlankRow;
    BlankRowColoured(s.ds.width, s.ds.renditions);
  }

  lemma DeleteLineColoured(s: Screen, row: int)
    requires Shaped(s) && Coloured(s)
    ensures Coloured(DeleteLine(s, row))
  {
    hide Valid, RowColoured, BlankRow, RowsColoured;
    if s.ds.top <= row <= s.ds.bottom {
      var b := s.ds.bottom + 1;
      BlankRowColoured(s.ds.width, s.ds.renditions);
      OneRow(NewRow(s));
      RowsSplit(s.rows, b);
      RowsJoin(s.rows[..b], [NewRow(s)]);
      RowsJoin(s.rows[..b] + [NewRow(s)], s.rows[b..]);
      var grown := s.rows[..b] + [NewRow(s)] + s.rows[b..];
      RowsSplit(grown, row);
      RowsSplit(grown, row + 1);
      RowsJoin(grown[..row], grown[row + 1..]);
    }
  }

  lemma InsertLineColoured(s: Screen, before: int)
    requires Shaped(s) && Coloured(s)
    ensures Coloured(InsertLine(s, before))
  {
    hide Valid, RowColoured, BlankRow, RowsColoured;
    if s.ds.top <= before <= s.ds.bottom + 1 {
      BlankRowColoured(s.ds.width, s.ds.renditions);
      OneRow(NewRow(s));
      RowsSplit(s.rows, before);
      RowsJoin(s.rows[..before], [NewRow(s)]);
      RowsJoin(s.rows[..before] + [NewRow(s)], s.rows[before..]);
      var grown := s.rows[..before] + [NewRow(s)] + s.rows[before..];
      RowsSplit(grown, s.ds.bottom + 1);
      RowsSplit(grown, s.ds.bottom + 2);
      RowsJoin(grown[..s.ds.bottom + 1], grown[s.ds.bottom + 2..]);
    }
  }

  lemma SetCellColoured(s: Screen, row: int, col: int, cell: Cell)
    requires Shaped(s) && Coloured(s) && 0 <= row < s.ds.height && 0 <= col < s.ds.width && CellOk(cell)
    ensures Coloured(SetCell(s, row, col, cell))
  {
    hide Valid;
    CellSet(s.rows[row], col, cell);
    RowSet(s.rows, row, s.rows[row][col := cell]);
  }

  lemma InsertCellColoured(s: Screen, row: int, col: int)
    requires Shaped(s) && Coloured(s) && 0 <= row < s.ds.height && 0 <= col < s.ds.width
    ensures Coloured(InsertCell(s, row, col))
  {
    hide Valid, RowColoured;
    var cells, blank := s.rows[row], [Blank(s.ds.renditions.background)];
    OneCell(s.ds.renditions);
    RowSplit(cells, col);
    RowJoin(cells[..col], blank);
    RowJoin(cells[..col] + blank, cells[col..]);
    RowSplit(cells[..col] + blank + cells[col..], s.ds.width);
    RowSet(s.rows, row, (cells[..col] + blank + cells[col..])[..s.ds.width]);
  }

  lemma DeleteCellColoured(s: Screen, row: int, col: int)
    requires Shaped(s) && Coloured(s) && 0 <= row < s.ds.height && 0 <= col < s.ds.width
    ensures Coloured(DeleteCell(s, row, col))
  {
    hide Valid, RowColoured;
    var cells, blank := s.rows[row], [Blank(s.ds.renditions.background)];
    OneCell(s.ds.renditions);
    RowSplit(cells, col);
    RowSplit(cells, col + 1);
    RowJoin(cells[..col], cells[col + 1..]);
    RowJoin(cells[..col] + cells[col + 1..], blank);
    RowSet(s.rows, row, cells[..col] + cells[col + 1..] + blank);
  }

  lemma CellIsColoured(s: Screen, row: int, col: int)
    requires Shaped(s) && Coloured(s) && 0 <= row < s.ds.height && 0 <= col < s.ds.width
    ensures CellOk(s.rows[row][col])
  {
    hide Valid;
    assert RowColoured(s.rows[row]);
  }

  lemma SetWrapColoured(s: Screen, row: int, wrap: bool)
    requires Shaped(s) && Coloured(s) && 0 <= row < s.ds.height
    ensures Coloured(SetWrap(s, row, wrap))
  {
    hide Valid, Coloured, SetCell;
    var last := s.ds.width - 1;
    CellIsColoured(s, row, last);
    SetCellColoured(s, row, last, s.rows[row][last].(wrap := wrap));
  }

  // ---------------------------------------------------------------- the cursor

  lemma MovesKeepColours(d: DrawState, n: int, relative: bool)
    requires RegionOk(d)
    ensures SameColours(d, MoveRow(d, n, relative)) && SameColours(d, MoveCol(d, n, relative))
  {
  }

  lemma AdvanceKeepsColours(d: DrawState, n: int)
    requires StateOk(d)
    ensures SameColours(d, Advance(d, n))
  {
  }

  lemma RegionKeepsColours(d: DrawState, top: int, bottom: int)
    requires StateOk(d) && top < d.height
    ensures SameColours(d, SetRegion(d, top, bottom))
  {
  }

  lemma WithStateColoured(s: Screen, d: DrawState)
    requires Coloured(s) && RowsOk(s.rows, d.width, d.height) && StateOk(d) && SameColours(s.ds, d)
    ensures Coloured(WithState(s, d))
  {
  }

  lemma RowMoveColoured(s: Screen, n: int, relative: bool)
    requires Shaped(s) && Coloured(s)
    ensures Coloured(WithState(s, MoveRow(s.ds, n, relative)))
  {
    hide Coloured, MoveRow, WithState;
    MovesKeepColours(s.ds, n, relative);
    WithStateColoured(s, MoveRow(s.ds, n, relative));
  }

  lemma ColMoveColoured(s: Screen, n: int, relative: bool)
    requires Shaped(s) && Coloured(s)
    ensures Coloured(WithState(s, MoveCol(s.ds, n, relative)))
  {
    hide Coloured, MoveCol, WithState;
    MovesKeepColours(s.ds, n, relative);
    WithStateColoured(s, MoveCol(s.ds, n, relative));
  }

  lemma CursorToColoured(s: Screen, row: int, col: int)
    requires Shaped(s) && Coloured(s)
    ensures Coloured(CursorTo(s, row, col))
  {
    hide Coloured, MoveCol, MoveRow, WithState;
    var d := MoveRow(s.ds, row, false);
    MovesKeepColours(s.ds, row, false);
    MovesKeepColours(d, col, false);
    WithStateColoured(s, MoveCol(d, col, false));
  }

  lemma {:induction false} ScrollUpColoured(s: Screen, n: nat)
    requires Shaped(s) && Coloured(s)
    ensures Coloured(ScrollUp(s, n))
  {
    hide Coloured, MoveRow, WithState, DeleteLine;
    if n > 0 {
      ScrollUpColoured(s, n - 1);
      var s1 := ScrollUp(s, n - 1);
      DeleteLineColoured(s1, s1.ds.top);
      RowMoveColoured(DeleteLine(s1, s1.ds.top), -1, true);
    }
  }

  lemma {:induction false} ScrollDownColoured(s: Screen, n: nat)
    requires Shaped(s) && Coloured(s)
    ensures Coloured(ScrollDown(s, n))
  {
    hide Coloured, MoveRow, WithState, InsertLine;
    if n > 0 {
      ScrollDownColoured(s, n - 1);
      var s1 := ScrollDown(s, n - 1);
      InsertLineColoured(s1, s1.ds.top);
      RowMoveColoured(InsertLine(s1, s1.ds.top), 1, true);
    }
  }

  lemma ScrollColoured(s: Screen, n: int)
    requires Shaped(s) && Coloured(s)
    ensures Coloured(Scroll(s, n))
  {
    hide Coloured, ScrollUp, ScrollDown;
    if n >= 0 {
      ScrollUpColoured(s, n);
    } else {
      ScrollDownColoured(s, -n);
    }
  }

  lemma AutoScrollColoured(s: Screen, n: int)
    requires Shaped(s) && Coloured(s)
    ensures Coloured(AutoScroll(s, n))
  {
    hide Coloured, Scroll, MoveRow, WithState;
    RowMoveColoured(s, n, true);
    if s.ds.top <= s.ds.row <= s.ds.bottom {
      if s.ds.row + n > s.ds.bottom {
        ScrollColoured(s, s.ds.row + n - s.ds.bottom);
        RowMoveColoured(Scroll(s, s.ds.row + n - s.ds.bottom), n, true);
      } else if s.ds.row + n < s.ds.top {
        ScrollColoured(s, s.ds.row + n - s.ds.top);
        RowMoveColoured(Scroll(s, s.ds.row + n - s.ds.top), n, true);
      }
    }
  }

  // ---------------------------------------------------------------- printing

  lemma WrapColoured(s: Screen)
    requires Shaped(s) && Coloured(s)
    ensures Coloured(AutoScroll(WithState(s, MoveCol(s.ds, 0, false)), 1))
  {
    hide Coloured, AutoScroll, MoveCol, WithState;
    ColMoveColoured(s, 0, false);
    AutoScrollColoured(WithState(s, MoveCol(s.ds, 0, false)), 1);
  }

  lemma WrapForPrintColoured(s: Screen, w: int)
    requires Shaped(s) && Coloured(s)
    ensures Coloured(WrapForPrint(s, w))
  {
    hide Coloured, AutoScroll, MoveCol, WithState, SetWrap, SetCell, Valid;
    if s.ds.autoWrap && s.ds.wrapNext {
      SetWrapColoured(s, s.ds.row, true);
      WrapColoured(SetWrap(s, s.ds.row, true));
    } else if s.ds.autoWrap && w == 2 && s.ds.col == s.ds.width - 1 {
      var s1 := SetCell(s, s.ds.row, s.ds.col, Blank(s.ds.renditions.background));
      CurrentColoured(s);
      SetCellColoured(s, s.ds.row, s.ds.col, Blank(s.ds.renditions.background));
      SetCellState(s, s.ds.row, s.ds.col, Blank(s.ds.renditions.background));
      SetWrapColoured(s1, s.ds.row, false);
      WrapColoured(SetWrap(s1, s.ds.row, false));
    }
  }

  lemma CurrentColoured(s: Screen)
    requires Coloured(s)
    ensures Valid(s.ds.renditions) && CellOk(Blank(s.ds.renditions.background))
  {
    BlankColoured(s.ds.renditions);
  }

  lemma SetCellState(s: Screen, row: int, col: int, cell: Cell)
    requires Shaped(s) && 0 <= row < s.ds.height && 0 <= col < s.ds.width
    ensures SetCell(s, row, col, cell).ds == s.ds
  {
  }

  lemma {:induction false} InsertForPrintColoured(s: Screen, w: nat)
    requires Shaped(s) && Coloured(s)
    ensures Coloured(InsertForPrint(s, w))
  {
    hide Coloured, InsertCell;
    if w > 0 {
      InsertForPrintColoured(s, w - 1);
      var s1 := InsertForPrint(s, w - 1);
      InsertCellColoured(s1, s1.ds.row, s1.ds.col);
    }
  }

  lemma PrintWideColoured(s: Screen, ch: Char, w: int)
    requires Shaped(s) && Coloured(s) && 1 <= w <= 2
    ensures Coloured(PrintWide(s, ch, w))
  {
    hide Coloured, WrapForPrint, InsertForPrint, SetCell, WithState, Advance, Valid;
    var s1 := WrapForPrint(s, w);
    WrapForPrintColoured(s, w);
    InsertForPrintColoured(s1, w);
    var s2 := if s1.ds.insert then InsertForPrint(s1, w) else s1;
    CurrentColoured(s2);
    var cell := Cell([ch], false, w, s2.ds.renditions, false);
    SetCellColoured(s2, s2.ds.row, s2.ds.col, cell);
    SetCellState(s2, s2.ds.row, s2.ds.col, cell);
    var s3 := SetCell(s2, s2.ds.row, s2.ds.col, cell);
    OverlapColoured(s3, w);
  }

  lemma OverlapColoured(s: Screen, w: int)
    requires Shaped(s) && Coloured(s)
    ensures var s1 := if w == 2 && s.ds.col + 1 < s.ds.width
                      then SetCell(s, s.ds.row, s.ds.col + 1, Blank(s.ds.renditions.background)) else s;
      Coloured(WithState(s1, Advance(s1.ds, w)))
  {
    hide Coloured, SetCell, WithState, Advance, Valid;
    CurrentColoured(s);
    if w == 2 && s.ds.col + 1 < s.ds.width {
      SetCellColoured(s, s.ds.row, s.ds.col + 1, Blank(s.ds.renditions.background));
      var s1 := SetCell(s, s.ds.row, s.ds.col + 1, Blank(s.ds.renditions.background));
      AdvanceKeepsColours(s1.ds, w);
      WithStateColoured(s1, Advance(s1.ds, w));
    } else {
      AdvanceKeepsColours(s.ds, w);
      WithStateColoured(s, Advance(s.ds, w));
    }
  }

  lemma PrintCombiningColoured(s: Screen, ch: Char)
    requires Shaped(s) && Coloured(s)
    ensures Coloured(PrintCombining(s, ch))
  {
    hide Coloured, SetCell, WithState, Advance, Valid;
    if CombiningOnScreen(s.ds) {
      var row, col := s.ds.combiningRow, s.ds.combiningCol;
      CellIsColoured(s, row, col);
      var cell := s.rows[row][col];
      var cell1 := if cell.contents == [] then cell.(fallback := true) else cell;
      var cell2 := if |cell1.contents| < 16 then cell1.(contents := cell1.contents + [ch]) else cell1;
      SetCellColoured(s, row, col, cell2);
      var s1 := SetCell(s, row, col, cell2);
      AdvanceKeepsColours(s1.ds, 1);
      WithStateColoured(s1, Advance(s1.ds, 1));
    }
  }

  lemma PrintColoured(s: Screen, ch: Char, w: int)
    requires Shaped(s) && Coloured(s) && -1 <= w <= 2
    ensures Coloured(Print(s, ch, w))
  {
    hide Coloured, PrintWide, PrintCombining;
    if w == 1 || w == 2 {
      PrintWideColoured(s, ch, w);
    } else if w == 0 {
      PrintCombiningColoured(s, ch);
    }
  }

  // ---------------------------------------------------------------- control functions

  lemma EraseColoured(s: Screen, mode: int)
    requires Shaped(s) && Coloured(s)
    ensures Coloured(EraseInLine(s, mode)) && Coloured(EraseInDisplay(s, mode))
  {
    hide Coloured, ClearRows, Cleared;
    ClearLineColoured(s, s.ds.row, s.ds.col, s.ds.width - 1);
    ClearLineColoured(s, s.ds.row, 0, s.ds.col);
    ClearRowsColoured(s, s.ds.row, s.ds.row + 1);
    ClearRowsColoured(s, 0, s.ds.height);
    ClearRowsColoured(s, 0, s.ds.row);
    ClearRowsColoured(ClearLine(s, s.ds.row, s.ds.col, s.ds.width - 1), s.ds.row + 1, s.ds.height);
    ClearLineColoured(ClearRows(s, 0, s.ds.row), s.ds.row, 0, s.ds.col);
  }

  lemma EraseCharactersColoured(s: Screen, num: int)
    requires Shaped(s) && Coloured(s)
    ensures Coloured(EraseCharacters(s, num))
  {
    hide Coloured, ClearLine;
    var limit := s.ds.col + num - 1;
    ClearLineColoured(s, s.ds.row, s.ds.col, if limit >= s.ds.width then s.ds.width - 1 else limit);
  }

  lemma MarginsColoured(s: Screen, top: int, bottom: int)
    requires Shaped(s) && Coloured(s)
    ensures Coloured(SetMargins(s, top, bottom))
  {
    hide Coloured, CursorTo, SetRegion, WithState;
    if !(bottom <= top || top > s.ds.height || (top == 0 && bottom == 1)) {
      var d := SetRegion(s.ds, top - 1, bottom - 1);
      RegionKeepsColours(s.ds, top - 1, bottom - 1);
      WithStateColoured(s, d);
      CursorToColoured(WithState(s, d), 0, 0);
    }
  }

  /** Nothing but positions, margins, tab stops and modes differ. */
  lemma SameRowsColoured(s: Screen, r: Screen)
    requires Coloured(s) && r.rows == s.rows && SameColours(s.ds, r.ds)
    ensures Coloured(r)
  {
  }

  lemma ModeColoured(s: Screen, mode: int, on: bool)
    requires Shaped(s) && Coloured(s)
    ensures Coloured(SetDecMode(s, mode, on))
  {
    hide CursorTo, ClearRows, Coloured, Shaped;
    var home := CursorTo(s, 0, 0);
    CursorToColoured(s, 0, 0);
    if mode == 3 {
      ClearRowsColoured(home, 0, home.ds.height);
    } else if mode == 6 {
      SameRowsColoured(home, SetDecMode(s, mode, on));
    } else {
      SameRowsColoured(s, SetDecMode(s, mode, on));
    }
  }

  lemma {:induction false} ModesColoured(s: Screen, params: seq<int>, n: nat, on: bool)
    requires Shaped(s) && Coloured(s)
    ensures Coloured(SetDecModes(s, params, n, on)) && Coloured(SetAnsiModes(s, params, n, on))
  {
    hide SetDecMode, Valid, RowsColoured;
    if n > 0 {
      ModesColoured(s, params, n - 1, on);
      ModeColoured(SetDecModes(s, params, n - 1, on), TerminalRenditions.Param(params, n - 1, 0), on);
    }
  }

  lemma SavedColoured(s: Screen)
    requires Shaped(s) && Coloured(s)
    ensures Coloured(Save(s)) && Coloured(Restore(s))
  {
    hide Valid, RowsColoured;
  }

  lemma BlankRowsColoured(width: nat, height: nat)
    ensures RowsColoured(BlankRows(width, height, 0))
  {
    BlankRowColoured(width, Plain(0));
    hide RowColoured;
  }

  lemma InitialColoured(width: int, height: int)
    requires 0 < width && 0 < height
    ensures Coloured(InitialScreen(width, height))
  {
    hide RowsColoured, BlankRows;
    BlankRowsColoured(width, height);
  }

  lemma ResetColoured(s: Screen)
    requires Shaped(s) && Coloured(s)
    ensures Coloured(Reset(s)) && Coloured(SoftReset(s))
  {
    hide RowsColoured, BlankRows, Valid;
    BlankRowsColoured(s.ds.width, s.ds.height);
    BlankColoured(s.ds.renditions);
    SetRenditionKeepsValid(s.ds.renditions, 0);
  }

  lemma {:induction false} LinesColoured(s: Screen, n: nat)
    requires Shaped(s) && Coloured(s)
    ensures Coloured(InsertLines(s, n)) && Coloured(DeleteLines(s, n))
  {
    hide Coloured, InsertLine, DeleteLine;
    if n > 0 {
      LinesColoured(s, n - 1);
      InsertLineColoured(InsertLines(s, n - 1), s.ds.row);
      DeleteLineColoured(DeleteLines(s, n - 1), s.ds.row);
    }
  }

  lemma {:induction false} CellsColoured(s: Screen, n: nat)
    requires Shaped(s) && Coloured(s)
    ensures Coloured(InsertCells(s, n)) && Coloured(DeleteCells(s, n))
  {
    hide Coloured, InsertCell, DeleteCell;
    if n > 0 {
      CellsColoured(s, n - 1);
      InsertCellColoured(InsertCells(s, n - 1), s.ds.row, s.ds.col);
      DeleteCellColoured(DeleteCells(s, n - 1), s.ds.row, s.ds.col);
    }
  }

  lemma AlignmentColoured(s: Screen)
    requires Shaped(s) && Coloured(s)
    ensures Coloured(Alignment(s))
  {
    hide Valid;
    BlankColoured(s.ds.renditions);
  }

  lemma TabColoured(s: Screen)
    requires Shaped(s) && Coloured(s)
    ensures Coloured(Tab(s))
  {
    hide Coloured, RowsOk, MoveCol;
    var next := NextTab(s.ds.tabs, s.ds.col + 1);
    MovesKeepColours(s.ds, if next == -1 then s.ds.width - 1 else next, false);
    SameRowsColoured(s, Tab(s));
  }

  lemma SetTabColoured(s: Screen, col: int, on: bool)
    requires Shaped(s) && Coloured(s) && 0 <= col < s.ds.width
    ensures Coloured(SetTab(s, col, on))
  {
    hide Coloured, Shaped;
    SameRowsColoured(s, SetTab(s, col, on));
  }

  lemma CursorIsInside(s: Screen)
    requires Shaped(s)
    ensures 0 <= s.ds.col < s.ds.width
  {
  }

  lemma ClearTabsColoured(s: Screen, mode: int)
    requires Shaped(s) && Coloured(s)
    ensures Coloured(ClearTabs(s, mode))
  {
    hide Coloured, Shaped, SetTab;
    CursorIsInside(s);
    if mode == 0 {
      SetTabColoured(s, s.ds.col, false);
    } else {
      SameRowsColoured(s, ClearTabs(s, mode));
    }
  }

  lemma PerformControlColoured(s: Screen, f: Fn)
    requires Shaped(s) && Coloured(s)
    ensures Coloured(PerformControl(s, f))
  {
    hide AutoScroll, Tab, SetTab, Alignment, Save, Restore, Reset, WithState, MoveCol, Valid, RowsColoured, Shaped;
    match f
    case LF => AutoScrollColoured(s, 1);
    case CR => ColMoveColoured(s, 0, false);
    case BS => ColMoveColoured(s, -1, true);
    case RI => AutoScrollColoured(s, -1);
    case NEL =>
      ColMoveColoured(s, 0, false);
      AutoScrollColoured(ToColumn(s, 0), 1);
    case HT => TabColoured(s);
    case HTS =>
      CursorIsInside(s);
      SetTabColoured(s, s.ds.col, true);
    case DECALN => AlignmentColoured(s);
    case DECSC => SavedColoured(s);
    case DECRC => SavedColoured(s);
    case RIS => ResetColoured(s);
    case _ =>
  }

  lemma PerformModesColoured(s: Screen, f: Fn, p: seq<int>)
    requires Shaped(s) && Coloured(s)
    ensures Coloured(PerformModes(s, f, p))
  {
    hide ClearTabs, SetDecModes, SetAnsiModes, SetMargins, ApplySgr, SoftReset, PerformControl, Valid, RowsColoured,
      Shaped;
    match f
    case TBC => ClearTabsColoured(s, TerminalRenditions.Param(p, 0, 0));
    case DECSM => ModesColoured(s, p, |p|, true);
    case DECRM => ModesColoured(s, p, |p|, false);
    case SM => ModesColoured(s, p, |p|, true);
    case RM => ModesColoured(s, p, |p|, false);
    case DECSTBM => MarginsColoured(s, TerminalRenditions.Param(p, 0, 1), TerminalRenditions.Param(p, 1, s.ds.height));
    case SGR => ApplySgrKeepsValid(s.ds.renditions, p);
    case DECSTR => ResetColoured(s);
    case _ => PerformControlColoured(s, f);
  }

  lemma PerformColoured(s: Screen, f: Fn, p: seq<int>)
    requires Shaped(s) && Coloured(s)
    ensures Coloured(Perform(s, f, p))
  {
    hide EraseInLine, EraseInDisplay, EraseCharacters, CursorTo, InsertLines, DeleteLines, InsertCells, DeleteCells,
         Scroll, PerformModes, MoveRow, MoveCol, WithState, Coloured, Shaped, Count;
    match f
    case EL => EraseColoured(s, TerminalRenditions.Param(p, 0, 0));
    case ED => EraseColoured(s, TerminalRenditions.Param(p, 0, 0));
    case Up => RowMoveColoured(s, -Count(p, 0), true);
    case Down => RowMoveColoured(s, Count(p, 0), true);
    case Forward => ColMoveColoured(s, Count(p, 0), true);
    case Backward => ColMoveColoured(s, -Count(p, 0), true);
    case Position => CursorToColoured(s, Count(p, 0) - 1, Count(p, 1) - 1);
    case Report =>
    case IL =>
      LinesColoured(s, Count(p, 0));
      ColMoveColoured(InsertLines(s, Count(p, 0)), 0, false);
    case DL =>
      LinesColoured(s, Count(p, 0));
      ColMoveColoured(DeleteLines(s, Count(p, 0)), 0, false);
    case ICH => CellsColoured(s, Count(p, 0));
    case DCH => CellsColoured(s, Count(p, 0));
    case VPA => RowMoveColoured(s, Count(p, 0) - 1, false);
    case HPA => ColMoveColoured(s, Count(p, 0) - 1, false);
    case ECH => EraseCharactersColoured(s, Count(p, 0));
    case SD => ScrollColoured(s, Count(p, 0));
    case SU => ScrollColoured(s, -Count(p, 0));
    case _ => PerformModesColoured(s, f, p);
  }

  lemma CancelWrapColoured(s: Screen)
    requires Shaped(s) && Coloured(s)
    ensures Coloured(CancelWrap(s))
  {
    hide Valid, RowsColoured;
  }

  /** Whatever function is dispatched, with whatever parameters. */
  lemma DispatchColoured(s: Screen, f: Option<Fn>, p: seq<int>)
    requires Shaped(s) && Coloured(s)
    ensures Coloured(Dispatch(s, f, p))
  {
    hide Coloured, Shaped, Perform, CancelWrap;
    CancelWrapColoured(s);
    match f
    case None =>
    case Some(g) => PerformColoured(if ClearsWrap(g) then CancelWrap(s) else s, g, p);
  }

  // ---------------------------------------------------------------- resizing

  lemma ResizedRowColoured(row: Row, width: nat, r: Renditions)
    requires 0 < |row| && RowColoured(row) && Valid(r)
    ensures RowColoured(ResizedRow(row, width, r.background))
  {
    hide Valid, RowColoured, BlankRow;
    var last := |row| - 1;
    LastColoured(row);
    CellSet(row, last, row[last].(wrap := false));
    var unwrapped := row[last := row[last].(wrap := false)];
    if width <= |row| {
      RowSplit(unwrapped, width);
    } else {
      BlankRowColoured(width - |row|, r);
      RowJoin(unwrapped, BlankRow(width - |row|, r.background));
    }
  }

  lemma LastColoured(row: Row)
    requires 0 < |row| && RowColoured(row)
    ensures CellOk(row[|row| - 1])
  {
  }

  lemma ResizeColoured(s: Screen, width: int, height: int)
    requires Shaped(s) && Coloured(s) && 0 < width && 0 < height
    ensures Coloured(Resize(s, width, height))
  {
    hide Valid, RowColoured, ResizedRow, BlankRow;
    var rows := ResizedRows(s, width, height);
    BlankRowColoured(s.ds.width, s.ds.renditions);
    forall i | 0 <= i < |rows| ensures RowColoured(rows[i]) {
      ResizedRowColoured(RowForResize(s, i), width, s.ds.renditions);
    }
  }

  // ---------------------------------------------------------------- the saved cursor

  /** A resize leaves the saved cursor where it was, so it can lie outside; restoring it brings the cursor inside. */
  lemma SavedCursorCanBeOutside(s: Screen)
    requires Shaped(s) && 1 < s.ds.width && s.ds.col == s.ds.width - 1
    ensures var r := Resize(Save(s), 1, s.ds.height);
      && Shaped(r) && r.ds.save.col >= r.ds.width
      && Shaped(Restore(r)) && Restore(r).ds.col == 0
  {
    hide RowsOk, ResizedRows, ResizedTabs;
  }
}
