/**
 * What printing and the control functions do to the screen, cell by cell and as one step where the code takes many
 * (alfalfa/src/terminal/terminal.cc, terminalframebuffer.cc, terminalfunctions.cc).
 */
module ScreenEffects {
  import ModularPowers
  import opened Screens
  import opened ControlFunctions

  // ---------------------------------------------------------------- moving a stretch

  /** The elements from lo to hi move n places towards lo, or -n away from it; blanks come in behind them. */
  function Shifted<T>(s: seq<T>, lo: int, hi: int, n: int, blank: T): (r: seq<T>)
    ensures |r| == |s|
  {
    seq(|s|, i requires 0 <= i < |s| =>
      if !(lo <= i <= hi) then s[i] else if lo <= i + n <= hi && 0 <= i + n < |s| then s[i + n] else blank)
  }

  lemma ShiftedByNone<T>(s: seq<T>, lo: int, hi: int, blank: T)
    ensures Shifted(s, lo, hi, 0, blank) == s
  {
  }

  lemma ShiftedTwice<T>(s: seq<T>, lo: int, hi: int, n: int, m: int, blank: T)
    requires 0 <= lo <= hi < |s| && ((0 <= n && 0 <= m) || (n <= 0 && m <= 0))
    ensures Shifted(Shifted(s, lo, hi, n, blank), lo, hi, m, blank) == Shifted(s, lo, hi, n + m, blank)
  {
  }

  // ---------------------------------------------------------------- lines

  lemma DeleteLineEffect(s: Screen, row: int)
    requires Shaped(s)
    ensures DeleteLine(s, row) == s.(rows :=
      if s.ds.top <= row <= s.ds.bottom then Shifted(s.rows, row, s.ds.bottom, 1, NewRow(s)) else s.rows)
  {
    hide NewRow;
    if s.ds.top <= row <= s.ds.bottom {
      var grown := s.rows[..s.ds.bottom + 1] + [NewRow(s)] + s.rows[s.ds.bottom + 1..];
      assert grown[..row] + grown[row + 1..] == Shifted(s.rows, row, s.ds.bottom, 1, NewRow(s));
    }
  }

  lemma InsertLineEffect(s: Screen, row: int)
    requires Shaped(s)
    ensures InsertLine(s, row) == s.(rows :=
      if s.ds.top <= row <= s.ds.bottom then Shifted(s.rows, row, s.ds.bottom, -1, NewRow(s)) else s.rows)
  {
    hide NewRow;
    if s.ds.top <= row <= s.ds.bottom + 1 {
      var grown := s.rows[..row] + [NewRow(s)] + s.rows[row..];
      var rows := grown[..s.ds.bottom + 1] + grown[s.ds.bottom + 2..];
      assert rows == if row <= s.ds.bottom then Shifted(s.rows, row, s.ds.bottom, -1, NewRow(s)) else s.rows;
    }
  }

  /** Deleting n lines at the cursor moves the lines below it, down to the bottom margin, up by n at once. */
  lemma {:induction false} DeleteLinesEffect(s: Screen, n: nat)
    requires Shaped(s)
    ensures DeleteLines(s, n) == s.(rows :=
      if s.ds.top <= s.ds.row <= s.ds.bottom then Shifted(s.rows, s.ds.row, s.ds.bottom, n, NewRow(s)) else s.rows)
  {
    hide Shifted, NewRow, DeleteLine;
    ShiftedByNone(s.rows, s.ds.row, s.ds.bottom, NewRow(s));
    if n > 0 {
      DeleteLinesEffect(s, n - 1);
      var s1 := DeleteLines(s, n - 1);
      SameBlank(s, s1);
      DeleteLineEffect(s1, s.ds.row);
      if s.ds.top <= s.ds.row <= s.ds.bottom {
        ShiftedTwice(s.rows, s.ds.row, s.ds.bottom, n - 1, 1, NewRow(s));
      }
    }
  }

  /** Inserting n lines moves them down by n. */
  lemma {:induction false} InsertLinesEffect(s: Screen, n: nat)
    requires Shaped(s)
    ensures InsertLines(s, n) == s.(rows :=
      if s.ds.top <= s.ds.row <= s.ds.bottom then Shifted(s.rows, s.ds.row, s.ds.bottom, 0 - n, NewRow(s)) else s.rows)
  {
    hide Shifted, NewRow, InsertLine;
    ShiftedByNone(s.rows, s.ds.row, s.ds.bottom, NewRow(s));
    if n > 0 {
      InsertLinesEffect(s, n - 1);
      var s1 := InsertLines(s, n - 1);
      SameBlank(s, s1);
      InsertLineEffect(s1, s.ds.row);
      if s.ds.top <= s.ds.row <= s.ds.bottom {
        ShiftedTwice(s.rows, s.ds.row, s.ds.bottom, -(n - 1), -1, NewRow(s));
      }
    }
  }

  lemma SameBlank(s: Screen, s1: Screen)
    requires 0 <= s.ds.width && s1.ds.width == s.ds.width && s1.ds.renditions == s.ds.renditions
    ensures NewRow(s1) == NewRow(s)
  {
  }

  // ---------------------------------------------------------------- scrolling

  /** The row nearest to the one asked for: inside the margins in origin mode, else inside the screen. */
  function NearestRow(d: DrawState, row: int): int {
    var top, bottom := if d.origin then d.top else 0, if d.origin then d.bottom else d.height - 1;
    if row < top then top else if row > bottom then bottom else row
  }

  function NearestCol(d: DrawState, col: int): int {
    if col < 0 then 0 else if col >= d.width then d.width - 1 else col
  }

  /** The cursor put somewhere by a control function. */
  function CursorAt(d: DrawState, row: int, col: int): DrawState {
    d.(row := row, col := col, combiningRow := row, combiningCol := col, wrapNext := false)
  }

  lemma SnapEffect(d: DrawState)
    requires RegionOk(d)
    ensures Snap(d) == d.(row := NearestRow(d, d.row), col := NearestCol(d, d.col))
  {
  }

  /** A move of the row, relative or from the first row allowed. */
  lemma MoveRowEffect(d: DrawState, n: int, relative: bool)
    requires StateOk(d)
    ensures MoveRow(d, n, relative)
         == CursorAt(d, NearestRow(d, if relative then d.row + n else if d.origin then d.top + n else n), d.col)
  {
    hide Snap;
    SnapEffect(d.(row := if relative then d.row + n else n + LimitTop(d)));
  }

  lemma MoveColEffect(d: DrawState, n: int, relative: bool)
    requires StateOk(d)
    ensures MoveCol(d, n, relative)
         == CursorAt(d, NearestRow(d, d.row), NearestCol(d, if relative then d.col + n else n))
  {
    hide Snap, NearestRow, CursorOk, CombiningOk, SameSize;
    var col := if relative then d.col + n else n;
    SnapEffect(d.(col := col));
    SameLimits(d, d.(col := col), d.row);
  }

  lemma SameLimits(d: DrawState, e: DrawState, row: int)
    requires e == d.(row := e.row, col := e.col, combiningRow := e.combiningRow, combiningCol := e.combiningCol,
                     wrapNext := e.wrapNext)
    ensures NearestRow(e, row) == NearestRow(d, row)
  {
  }

  /** Where n single moves up, or down, take the cursor. */
  function RowAfterScroll(d: DrawState, n: int): int {
    if n == 0 then d.row
    else if n > 0 then NearestRow(d, NearestRow(d, d.row - 1) - (n - 1))
    else NearestRow(d, NearestRow(d, d.row + 1) - (n + 1))
  }

  lemma RowsOfScroll(d: DrawState, e: DrawState, n: int)
    requires StateOk(d) && e == (if n == 0 then d else CursorAt(d, RowAfterScroll(d, n), d.col))
    ensures n >= 0 ==> NearestRow(e, e.row - 1) == RowAfterScroll(d, n + 1)
    ensures n <= 0 ==> NearestRow(e, e.row + 1) == RowAfterScroll(d, n - 1)
  {
  }

  lemma {:induction false} ScrollUpCursor(s: Screen, n: nat)
    requires Shaped(s)
    ensures var r := ScrollUp(s, n);
      r == s.(rows := r.rows, ds := if n == 0 then s.ds else CursorAt(s.ds, RowAfterScroll(s.ds, n), s.ds.col))
  {
    hide DeleteLine, MoveRow, NearestRow, RowAfterScroll, RowsOk;
    if n > 0 {
      ScrollUpCursor(s, n - 1);
      var s1 := ScrollUp(s, n - 1);
      DeleteLineEffect(s1, s1.ds.top);
      MoveRowEffect(s1.ds, -1, true);
      RowsOfScroll(s.ds, s1.ds, n - 1);
    }
  }

  lemma {:induction false} ScrollDownCursor(s: Screen, n: nat)
    requires Shaped(s)
    ensures var r := ScrollDown(s, n);
      r == s.(rows := r.rows, ds := if n == 0 then s.ds else CursorAt(s.ds, RowAfterScroll(s.ds, 0 - n), s.ds.col))
  {
    hide InsertLine, MoveRow, NearestRow, RowAfterScroll, RowsOk;
    if n > 0 {
      ScrollDownCursor(s, n - 1);
      var s1 := ScrollDown(s, n - 1);
      InsertLineEffect(s1, s1.ds.top);
      MoveRowEffect(s1.ds, 1, true);
      RowsOfScroll(s.ds, s1.ds, 0 - (n - 1));
    }
  }

  /** Scrolling moves the lines between the margins by n at once. */
  lemma {:induction false} ScrollUpEffect(s: Screen, n: nat)
    requires Shaped(s)
    ensures ScrollUp(s, n).rows == Shifted(s.rows, s.ds.top, s.ds.bottom, n, NewRow(s))
  {
    hide Shifted, NewRow, DeleteLine, MoveRow, RowAfterScroll;
    ShiftedByNone(s.rows, s.ds.top, s.ds.bottom, NewRow(s));
    if n > 0 {
      ScrollUpEffect(s, n - 1);
      ScrollUpCursor(s, n - 1);
      var s1 := ScrollUp(s, n - 1);
      SameBlank(s, s1);
      DeleteLineEffect(s1, s.ds.top);
      ShiftedTwice(s.rows, s.ds.top, s.ds.bottom, n - 1, 1, NewRow(s));
    }
  }

  lemma {:induction false} ScrollDownEffect(s: Screen, n: nat)
    requires Shaped(s)
    ensures ScrollDown(s, n).rows == Shifted(s.rows, s.ds.top, s.ds.bottom, 0 - n, NewRow(s))
  {
    hide Shifted, NewRow, InsertLine, MoveRow, RowAfterScroll;
    ShiftedByNone(s.rows, s.ds.top, s.ds.bottom, NewRow(s));
    if n > 0 {
      ScrollDownEffect(s, n - 1);
      ScrollDownCursor(s, n - 1);
      var s1 := ScrollDown(s, n - 1);
      SameBlank(s, s1);
      InsertLineEffect(s1, s.ds.top);
      ShiftedTwice(s.rows, s.ds.top, s.ds.bottom, -(n - 1), -1, NewRow(s));
    }
  }

  /** Where a line feed takes the cursor: one row down; at the bottom margin it stays, but for a region that is only the
      first row of several. */
  function RowAfterFeed(d: DrawState): int {
    if !(d.top <= d.row <= d.bottom) then NearestRow(d, d.row + 1)
    else if d.row < d.bottom then d.row + 1
    else if !d.origin && d.bottom == 0 && d.height > 1 then 1
    else d.row
  }

  lemma ScrollUpOnce(s: Screen)
    requires Shaped(s)
    ensures ScrollUp(s, 1).ds == MoveRow(s.ds, -1, true)
  {
    hide DeleteLine, MoveRow, RowsOk;
    assert ScrollUp(s, 0) == s;
  }

  lemma ScrollDownOnce(s: Screen)
    requires Shaped(s)
    ensures ScrollDown(s, 1).ds == MoveRow(s.ds, 1, true)
  {
    hide InsertLine, MoveRow, RowsOk;
    assert ScrollDown(s, 0) == s;
  }

  /** The rows that single moves lead to. */
  lemma FeedRows(d: DrawState)
    requires StateOk(d)
    ensures d.top <= d.row < d.bottom ==> NearestRow(d, d.row + 1) == d.row + 1
    ensures d.top < d.row <= d.bottom ==> NearestRow(d, d.row - 1) == d.row - 1
    ensures d.row == d.bottom ==> NearestRow(d, NearestRow(d, d.row - 1) + 1) == RowAfterFeed(d)
    ensures d.row == d.top ==> NearestRow(d, NearestRow(d, d.row + 1) - 1) == RowAfterReverse(d)
  {
  }

  /** A line feed moves the cursor down; at the bottom margin the region moves up by one line, and a blank one
      enters. */
  lemma LineFeedEffect(s: Screen)
    requires Shaped(s)
    ensures AutoScroll(s, 1) == s.(
      ds := CursorAt(s.ds, RowAfterFeed(s.ds), s.ds.col),
      rows := if s.ds.row == s.ds.bottom then Shifted(s.rows, s.ds.top, s.ds.bottom, 1, NewRow(s)) else s.rows)
  {
    hide Shifted, NewRow, MoveRow, ScrollUp, RowsOk, NearestRow;
    MoveRowEffect(s.ds, 1, true);
    if s.ds.row == s.ds.bottom {
      ScrollUpOnce(s);
      ScrollUpEffect(s, 1);
      ScrollUpCursor(s, 1);
      var d := ScrollUp(s, 1).ds;
      MoveRowEffect(s.ds, -1, true);
      MoveRowEffect(d, 1, true);
      SameLimits(s.ds, d, d.row + 1);
    }
    FeedRows(s.ds);
  }

  function RowAfterReverse(d: DrawState): int {
    if !(d.top <= d.row <= d.bottom) then NearestRow(d, d.row - 1)
    else if d.row > d.top then d.row - 1
    else if !d.origin && d.top == d.height - 1 && d.height > 1 then d.height - 2
    else d.row
  }

  /** A reverse line feed, at the top margin, moves the region down. */
  lemma ReverseFeedEffect(s: Screen)
    requires Shaped(s)
    ensures AutoScroll(s, -1) == s.(
      ds := CursorAt(s.ds, RowAfterReverse(s.ds), s.ds.col),
      rows := if s.ds.row == s.ds.top then Shifted(s.rows, s.ds.top, s.ds.bottom, -1, NewRow(s)) else s.rows)
  {
    hide Shifted, NewRow, MoveRow, ScrollDown, RowsOk, NearestRow;
    MoveRowEffect(s.ds, -1, true);
    if s.ds.row == s.ds.top {
      ScrollDownOnce(s);
      ScrollDownEffect(s, 1);
      ScrollDownCursor(s, 1);
      var d := ScrollDown(s, 1).ds;
      MoveRowEffect(s.ds, 1, true);
      MoveRowEffect(d, -1, true);
      SameLimits(s.ds, d, d.row - 1);
    }
    FeedRows(s.ds);
  }

  // ---------------------------------------------------------------- cells of a row

  lemma InsertCellEffect(s: Screen, row: int, col: int)
    requires Shaped(s) && 0 <= row < s.ds.height && 0 <= col < s.ds.width
    ensures InsertCell(s, row, col) == s.(rows := s.rows[row :=
      Shifted(s.rows[row], col, s.ds.width - 1, -1, Blank(s.ds.renditions.background))])
  {
    var cells := s.rows[row];
    assert (cells[..col] + [Blank(s.ds.renditions.background)] + cells[col..])[..s.ds.width]
        == Shifted(cells, col, s.ds.width - 1, -1, Blank(s.ds.renditions.background));
  }

  lemma DeleteCellEffect(s: Screen, row: int, col: int)
    requires Shaped(s) && 0 <= row < s.ds.height && 0 <= col < s.ds.width
    ensures DeleteCell(s, row, col) == s.(rows := s.rows[row :=
      Shifted(s.rows[row], col, s.ds.width - 1, 1, Blank(s.ds.renditions.background))])
  {
    var cells := s.rows[row];
    assert cells[..col] + cells[col + 1..] + [Blank(s.ds.renditions.background)]
        == Shifted(cells, col, s.ds.width - 1, 1, Blank(s.ds.renditions.background));
  }

  /** Inserting n cells at the cursor moves the rest of its row right by n at once. */
  lemma {:induction false} InsertCellsEffect(s: Screen, n: nat)
    requires Shaped(s)
    ensures InsertCells(s, n) == s.(rows := s.rows[s.ds.row :=
      Shifted(s.rows[s.ds.row], s.ds.col, s.ds.width - 1, 0 - n, Blank(s.ds.renditions.background))])
  {
    hide Shifted, InsertCell;
    var blank := Blank(s.ds.renditions.background);
    var cells := s.rows[s.ds.row];
    ShiftedByNone(cells, s.ds.col, s.ds.width - 1, blank);
    if n > 0 {
      InsertCellsEffect(s, n - 1);
      InsertCellEffect(InsertCells(s, n - 1), s.ds.row, s.ds.col);
      ShiftedTwice(cells, s.ds.col, s.ds.width - 1, -(n - 1), -1, blank);
    }
  }

  lemma {:induction false} DeleteCellsEffect(s: Screen, n: nat)
    requires Shaped(s)
    ensures DeleteCells(s, n) == s.(rows := s.rows[s.ds.row :=
      Shifted(s.rows[s.ds.row], s.ds.col, s.ds.width - 1, n, Blank(s.ds.renditions.background))])
  {
    hide Shifted, DeleteCell;
    var blank := Blank(s.ds.renditions.background);
    var cells := s.rows[s.ds.row];
    ShiftedByNone(cells, s.ds.col, s.ds.width - 1, blank);
    if n > 0 {
      DeleteCellsEffect(s, n - 1);
      DeleteCellEffect(DeleteCells(s, n - 1), s.ds.row, s.ds.col);
      ShiftedTwice(cells, s.ds.col, s.ds.width - 1, n - 1, 1, blank);
    }
  }

  lemma {:induction false} InsertForPrintEffect(s: Screen, w: nat)
    requires Shaped(s)
    ensures InsertForPrint(s, w) == InsertCells(s, w)
  {
    hide InsertCell;
    if w > 0 {
      InsertForPrintEffect(s, w - 1);
    }
  }

  // ---------------------------------------------------------------- printing

  /** The character goes to the next line: a wrap is pending, or it is wide and at the last column. */
  predicate Wraps(d: DrawState, w: int) {
    d.autoWrap && (d.wrapNext || (w == 2 && d.col == d.width - 1))
  }

  /** The row from which a wrapping character goes down. */
  function WrapRow(d: DrawState): DrawState {
    d.(row := NearestRow(d, d.row))
  }

  function PrintRow(d: DrawState, w: int): int {
    if Wraps(d, w) then RowAfterFeed(WrapRow(d)) else d.row
  }

  function PrintCol(d: DrawState, w: int): int {
    if Wraps(d, w) then 0 else d.col
  }

  /** A cell before any scrolling: the last one of the row left behind is marked, or blanked where a wide character does
      not fit. */
  function MarkedCell(s: Screen, w: int, i: int, j: int): Cell
    requires Shaped(s) && 0 <= i < s.ds.height && 0 <= j < s.ds.width
  {
    if Wraps(s.ds, w) && i == s.ds.row && j == s.ds.width - 1 then
      if s.ds.wrapNext then s.rows[i][j].(wrap := true) else Blank(s.ds.renditions.background)
    else s.rows[i][j]
  }

  /** A cell just before the character is put: one line further down if wrapping at the bottom margin scrolled. */
  function WrappedCell(s: Screen, w: int, i: int, j: int): Cell
    requires Shaped(s) && 0 <= i < s.ds.height && 0 <= j < s.ds.width
  {
    if Wraps(s.ds, w) && WrapRow(s.ds).row == s.ds.bottom && s.ds.top <= i <= s.ds.bottom then
      if i == s.ds.bottom then Blank(s.ds.renditions.background) else MarkedCell(s, w, i + 1, j)
    else MarkedCell(s, w, i, j)
  }

  /** A cell after the character was put at (row, col): the character, the blank half of a wide one, the rest of the row
      moved right in insert mode, or what it was. */
  function PrintedCell(s: Screen, ch: Char, w: int, i: int, j: int): Cell
    requires Shaped(s) && 0 <= i < s.ds.height && 0 <= j < s.ds.width && 1 <= w <= 2
  {
    var row, col := PrintRow(s.ds, w), PrintCol(s.ds, w);
    if i == row && j == col then Cell([ch], false, w, s.ds.renditions, false)
    else if i == row && col < j < col + w then Blank(s.ds.renditions.background)
    else if i == row && j >= col + w && s.ds.insert then WrappedCell(s, w, i, j - w)
    else WrappedCell(s, w, i, j)
  }

  /** The screen once room was made for the character. */
  lemma WrapEffect(s: Screen, w: int)
    requires Shaped(s)
    ensures var r := WrapForPrint(s, w);
      && r.ds == (if Wraps(s.ds, w) then CursorAt(s.ds, PrintRow(s.ds, w), 0) else s.ds)
      && r == s.(rows := r.rows, ds := r.ds)
      && forall i, j | 0 <= i < s.ds.height && 0 <= j < s.ds.width :: r.rows[i][j] == WrappedCell(s, w, i, j)
  {
    hide AutoScroll, MoveCol, NearestRow, RowAfterFeed, Shifted;
    var d := s.ds;
    if Wraps(d, w) {
      var s1 := if d.wrapNext then SetWrap(s, d.row, true)
                else SetWrap(SetCell(s, d.row, d.col, Blank(d.renditions.background)), d.row, false);
      MoveColEffect(d, 0, false);
      var s2 := WithState(s1, MoveCol(d, 0, false));
      LineFeedEffect(s2);
      SameFeed(d, s2.ds);
      forall i, j | 0 <= i < d.height && 0 <= j < d.width ensures s1.rows[i][j] == MarkedCell(s, w, i, j) {
      }
      ScrolledCells(s, s2, w);
    }
  }

  lemma SameFeed(d: DrawState, e: DrawState)
    requires e == CursorAt(d, NearestRow(d, d.row), e.col)
    ensures RowAfterFeed(e) == RowAfterFeed(WrapRow(d)) && WrapRow(d).row == e.row
  {
  }

  lemma ScrolledCells(s: Screen, s2: Screen, w: int)
    requires Shaped(s) && Shaped(s2) && SameSize(s.ds, s2.ds) && Wraps(s.ds, w)
    requires s2.ds == CursorAt(s.ds, WrapRow(s.ds).row, 0)
    requires forall i, j | 0 <= i < s.ds.height && 0 <= j < s.ds.width :: s2.rows[i][j] == MarkedCell(s, w, i, j)
    ensures var rows := if s2.ds.row == s2.ds.bottom then Shifted(s2.rows, s2.ds.top, s2.ds.bottom, 1, NewRow(s2))
                        else s2.rows;
      && RowsOk(rows, s.ds.width, s.ds.height)
      && forall i, j | 0 <= i < s.ds.height && 0 <= j < s.ds.width :: rows[i][j] == WrappedCell(s, w, i, j)
  {
    hide MarkedCell, WrapRow;
  }

  /** Printing a character of one or two columns: where it lands, what every cell is afterwards, and where the cursor
      is. */
  lemma PrintEffect(s: Screen, ch: Char, w: int)
    requires Shaped(s) && 1 <= w <= 2
    ensures var r := Print(s, ch, w);
      var row, col := PrintRow(s.ds, w), PrintCol(s.ds, w);
      && r == s.(rows := r.rows, ds := s.ds.(
           row := NearestRow(s.ds, row), col := NearestCol(s.ds, col + w), combiningRow := row, combiningCol := col,
           wrapNext := col + w >= s.ds.width))
      && forall i, j | 0 <= i < s.ds.height && 0 <= j < s.ds.width :: r.rows[i][j] == PrintedCell(s, ch, w, i, j)
  {
    hide WrapForPrint, WrappedCell, InsertForPrint, RowAfterFeed, Advance, NearestRow, Print, Roomy, RowsOk;
    WrapEffect(s, w);
    var s1 := WrapForPrint(s, w);
    InsertForPrintEffect(s1, w);
    InsertedCells(s1, w);
    var s2 := if s1.ds.insert then InsertForPrint(s1, w) else s1;
    PrintPuts(s, s2, ch, w);
    AdvanceEffect(s2.ds, w);
    SameLimits(s.ds, s2.ds, s2.ds.row);
    PrintedCells(s, s1, s2, ch, w, Print(s, ch, w).rows);
  }

  lemma PrintPuts(s: Screen, s2: Screen, ch: Char, w: int)
    requires Shaped(s) && Shaped(s2) && 1 <= w <= 2
    requires var s1 := WrapForPrint(s, w); s2 == if s1.ds.insert then InsertForPrint(s1, w) else s1
    ensures var cell := Cell([ch], false, w, s2.ds.renditions, false);
      var row := PutInto(s2.rows[s2.ds.row], s2.ds.col, cell, w, Blank(s2.ds.renditions.background));
      Print(s, ch, w) == s2.(rows := s2.rows[s2.ds.row := row], ds := Advance(s2.ds, w))
  {
    hide WrapForPrint, InsertForPrint, Advance, PutInto;
    PutEffect(s2, ch, w);
  }

  /** A cell once room was made in insert mode. */
  function RoomyCell(s: Screen, w: nat, i: int, j: int): Cell
    requires Shaped(s) && 0 <= i < s.ds.height && 0 <= j < s.ds.width
  {
    if s.ds.insert && i == s.ds.row && j >= s.ds.col + w then s.rows[i][j - w]
    else if s.ds.insert && i == s.ds.row && j >= s.ds.col then Blank(s.ds.renditions.background)
    else s.rows[i][j]
  }

  predicate Roomy(s1: Screen, s2: Screen, w: nat)
    requires Shaped(s1) && Shaped(s2) && SameSize(s1.ds, s2.ds)
  {
    forall i, j | 0 <= i < s1.ds.height && 0 <= j < s1.ds.width :: s2.rows[i][j] == RoomyCell(s1, w, i, j)
  }

  lemma InsertedCells(s1: Screen, w: nat)
    requires Shaped(s1)
    ensures var s2 := if s1.ds.insert then InsertCells(s1, w) else s1;
      s2 == s1.(rows := s2.rows) && Roomy(s1, s2, w)
  {
    hide InsertCells;
    if s1.ds.insert {
      InsertCellsEffect(s1, w);
    }
  }

  /** A row with a character put into it. */
  function PutInto(row: Row, col: int, cell: Cell, w: int, blank: Cell): (r: Row)
    requires 0 <= col < |row|
    ensures |r| == |row|
  {
    if w == 2 && col + 1 < |row| then row[col := cell][col + 1 := blank] else row[col := cell]
  }

  lemma PutEffect(s: Screen, ch: Char, w: int)
    requires Shaped(s) && 1 <= w <= 2
    ensures var cell := Cell([ch], false, w, s.ds.renditions, false);
      var row := PutInto(s.rows[s.ds.row], s.ds.col, cell, w, Blank(s.ds.renditions.background));
      var s3 := SetCell(s, s.ds.row, s.ds.col, cell);
      var s4 := if w == 2 && s3.ds.col + 1 < s3.ds.width
                then SetCell(s3, s3.ds.row, s3.ds.col + 1, Blank(s3.ds.renditions.background)) else s3;
      s4 == s.(rows := s.rows[s.ds.row := row])
  {
  }

  lemma PrintedCells(s: Screen, s1: Screen, s2: Screen, ch: Char, w: int, rows: seq<Row>)
    requires Shaped(s) && Shaped(s1) && Shaped(s2) && SameSize(s.ds, s1.ds) && s2 == s1.(rows := s2.rows)
    requires 1 <= w <= 2 && s1.ds.row == PrintRow(s.ds, w) && s1.ds.col == PrintCol(s.ds, w)
    requires s1.ds.insert == s.ds.insert && s1.ds.renditions == s.ds.renditions
    requires forall i, j | 0 <= i < s.ds.height && 0 <= j < s.ds.width :: s1.rows[i][j] == WrappedCell(s, w, i, j)
    requires Roomy(s1, s2, w)
    requires rows == s2.rows[s2.ds.row :=
      PutInto(s2.rows[s2.ds.row], s2.ds.col, Cell([ch], false, w, s2.ds.renditions, false), w,
              Blank(s2.ds.renditions.background))]
    ensures forall i, j | 0 <= i < s.ds.height && 0 <= j < s.ds.width :: rows[i][j] == PrintedCell(s, ch, w, i, j)
  {
    hide WrappedCell, PrintRow, PrintCol;
    forall i, j | 0 <= i < s.ds.height && 0 <= j < s.ds.width ensures rows[i][j] == PrintedCell(s, ch, w, i, j) {
      assert s1.rows[i][j] == WrappedCell(s, w, i, j);
      assert j >= w ==> s1.rows[i][j - w] == WrappedCell(s, w, i, j - w);
      assert s2.rows[i][j] == RoomyCell(s1, w, i, j);
      if i == s2.ds.row {
        assert rows[i] == PutInto(s2.rows[i], s2.ds.col, Cell([ch], false, w, s2.ds.renditions, false), w,
                                  Blank(s2.ds.renditions.background));
      } else {
        assert rows[i] == s2.rows[i];
      }
    }
  }

  lemma AdvanceEffect(d: DrawState, w: int)
    requires StateOk(d)
    ensures Advance(d, w) == d.(row := NearestRow(d, d.row), col := NearestCol(d, d.col + w),
      combiningRow := d.row, combiningCol := d.col, wrapNext := d.col + w >= d.width)
  {
    hide Snap;
    SnapEffect(NewGrapheme(d).(col := d.col + w, wrapNext := d.col + w >= d.width));
  }

  // ---------------------------------------------------------------- a long text

  /** Characters of one column typed one after the other. */
  function TypeAll(s: Screen, text: seq<Char>): (r: Screen)
    requires Shaped(s)
    ensures Shaped(r)
  {
    if text == [] then s else Print(TypeAll(s, text[..|text| - 1]), text[|text| - 1], 1)
  }

  /** The lines that have left the screen at the top once n characters were typed. */
  function LinesGone(n: nat, w: nat, h: nat): nat
    requires 0 < w
  {
    if n == 0 || (n - 1) / w < h then 0 else (n - 1) / w - (h - 1)
  }

  /** The character typed as number k, if that many were. */
  function TypedAt(text: seq<Char>, k: int): seq<Char> {
    if 0 <= k < |text| then [text[k]] else []
  }

  /** Row after row holds the text; the first lines may be gone. */
  ghost predicate ShowsText(s: Screen, text: seq<Char>, w: nat, h: nat, gone: nat) {
    && |s.rows| == h
    && forall i, j | 0 <= i < h && 0 <= j < w ::
         |s.rows[i]| == w && s.rows[i][j].contents == TypedAt(text, (i + gone) * w + j)
  }

  /** A full screen region, and the modes a terminal starts with. */
  predicate Plainly(d: DrawState, w: nat, h: nat) {
    d.width == w && d.height == h && d.top == 0 && d.bottom == h - 1 && d.autoWrap && !d.insert && !d.origin
  }

  /** The cursor is behind the last character typed. */
  predicate CursorBehind(d: DrawState, n: nat, w: nat, h: nat)
    requires 0 < w
  {
    && d.row == (if n == 0 then 0 else (n - 1) / w) - LinesGone(n, w, h)
    && d.col == (if n > 0 && n % w == 0 then w - 1 else n % w)
    && d.wrapNext == (n > 0 && n % w == 0)
  }

  lemma NextPlace(n: nat, w: nat)
    requires 0 < n && 0 < w
    ensures n % w != 0 ==> (n - 1) / w == n / w
    ensures n % w == 0 ==> (n - 1) / w == n / w - 1
    ensures n % w == 0 || (n + 1) % w == 0 || (n + 1) % w == n % w + 1
    ensures (n + 1) % w == (if n % w == w - 1 then 0 else n % w + 1)
  {
    var q, r := n / w, n % w;
    assert n == q * w + r;
    if r != 0 {
      Quotient(n - 1, w, q, r - 1);
    } else {
      assert (q - 1) * w == q * w - w;
      Quotient(n - 1, w, q - 1, w - 1);
    }
    if r == w - 1 {
      assert (q + 1) * w == q * w + w;
      Quotient(n + 1, w, q + 1, 0);
    } else {
      Quotient(n + 1, w, q, r + 1);
    }
  }

  lemma Quotient(x: int, w: nat, q: int, r: int)
    requires 0 < w && x == q * w + r && 0 <= r < w
    ensures x / w == q && x % w == r
  {
    ModularPowers.Euclid(x % w, x / w, r, q, w);
  }

  /** The place of character n is the only one with its number. */
  lemma OnePlace(n: nat, w: nat, line: int, j: int)
    requires 0 < w && 0 <= j < w
    ensures line * w + j == n <==> line == n / w && j == n % w
  {
    if line * w + j == n {
      Quotient(n, w, line, j);
    }
  }

  lemma TypeNext(s: Screen, text: seq<Char>, ch: Char, w: nat, h: nat)
    requires 0 < w && 0 < h && Shaped(s) && Plainly(s.ds, w, h) && CursorBehind(s.ds, |text|, w, h)
    requires ShowsText(s, text, w, h, LinesGone(|text|, w, h))
    ensures var r := Print(s, ch, 1);
      && Plainly(r.ds, w, h) && CursorBehind(r.ds, |text| + 1, w, h)
      && ShowsText(r, text + [ch], w, h, LinesGone(|text| + 1, w, h))
  {
    hide ShowsText, Shaped, Print, PrintedCell;
    var n := |text|;
    PrintEffect(s, ch, 1);
    TypeCursor(s.ds, n, w, h);
    TypeCells(s, text, ch, w, h, Print(s, ch, 1));
  }

  /** Where the next character goes: to its line and column. */
  lemma TypeCursor(d: DrawState, n: nat, w: nat, h: nat)
    requires 0 < w && 0 < h && Plainly(d, w, h) && CursorBehind(d, n, w, h) && 0 <= d.row < h
    ensures PrintRow(d, 1) == n / w - LinesGone(n + 1, w, h) && PrintCol(d, 1) == n % w
    ensures Wraps(d, 1) && WrapRow(d).row == d.bottom <==> LinesGone(n + 1, w, h) == LinesGone(n, w, h) + 1
    ensures LinesGone(n, w, h) <= LinesGone(n + 1, w, h) <= LinesGone(n, w, h) + 1
    ensures NearestRow(d, PrintRow(d, 1)) == PrintRow(d, 1)
    ensures NearestCol(d, n % w + 1) == if (n + 1) % w == 0 then w - 1 else (n + 1) % w
    ensures n % w + 1 >= w <==> (n + 1) % w == 0
  {
    if n > 0 {
      NextPlace(n, w);
      assert 0 <= (n - 1) / w;
    } else {
      Quotient(0, w, 0, 0);
      if w > 1 {
        Quotient(1, w, 0, 1);
      }
    }
  }

  lemma TypeCells(s: Screen, text: seq<Char>, ch: Char, w: nat, h: nat, r: Screen)
    requires 0 < w && 0 < h && Shaped(s) && Shaped(r) && Plainly(s.ds, w, h) && Plainly(r.ds, w, h)
    requires CursorBehind(s.ds, |text|, w, h) && ShowsText(s, text, w, h, LinesGone(|text|, w, h))
    requires forall i, j | 0 <= i < h && 0 <= j < w :: r.rows[i][j] == PrintedCell(s, ch, 1, i, j)
    ensures ShowsText(r, text + [ch], w, h, LinesGone(|text| + 1, w, h))
  {
    hide PrintedCell, CursorBehind, LinesGone;
    var n, gone := |text|, LinesGone(|text| + 1, w, h);
    forall i, j | 0 <= i < h && 0 <= j < w
      ensures |r.rows[i]| == w && r.rows[i][j].contents == TypedAt(text + [ch], (i + gone) * w + j)
    {
      assert r.rows[i][j] == PrintedCell(s, ch, 1, i, j);
      TypeCell(s, text, ch, w, h, i, j);
    }
  }

  lemma TypeCell(s: Screen, text: seq<Char>, ch: Char, w: nat, h: nat, i: int, j: int)
    requires 0 < w && 0 < h && Shaped(s) && Plainly(s.ds, w, h) && CursorBehind(s.ds, |text|, w, h)
    requires ShowsText(s, text, w, h, LinesGone(|text|, w, h)) && 0 <= i < h && 0 <= j < w
    ensures PrintedCell(s, ch, 1, i, j).contents
         == TypedAt(text + [ch], (i + LinesGone(|text| + 1, w, h)) * w + j)
  {
    hide CursorBehind, LinesGone, PrintRow, PrintCol, Wraps, WrapRow, WrappedCell, TypedAt, RowsOk;
    var n := |text|;
    var was, gone := LinesGone(n, w, h), LinesGone(n + 1, w, h);
    TypeCursor(s.ds, n, w, h);
    OnePlace(n, w, i + gone, j);
    LeftContents(s, i, j);
    BelowIsNew(n, w, h, j);
    TypedMore(text, ch, (i + gone) * w + j);
    if gone == was {
      assert s.rows[i][j].contents == TypedAt(text, (i + was) * w + j);
    } else if i + 1 < h {
      assert s.rows[i + 1][j].contents == TypedAt(text, (i + 1 + was) * w + j);
    }
  }

  lemma TypedMore(text: seq<Char>, ch: Char, k: int)
    ensures TypedAt(text + [ch], k) == if k == |text| then [ch] else TypedAt(text, k)
    ensures k >= |text| ==> TypedAt(text, k) == []
  {
  }

  /** What a narrow character leaves in the cells it does not take. */
  lemma LeftContents(s: Screen, i: int, j: int)
    requires Shaped(s) && 0 <= i < s.ds.height && 0 <= j < s.ds.width
    requires Plainly(s.ds, s.ds.width, s.ds.height)
    ensures WrappedCell(s, 1, i, j).contents ==
      if !(Wraps(s.ds, 1) && WrapRow(s.ds).row == s.ds.bottom) then s.rows[i][j].contents
      else if i + 1 < s.ds.height then s.rows[i + 1][j].contents
      else []
  {
  }

  /** The row that enters at the bottom starts with the next character. */
  lemma BelowIsNew(n: nat, w: nat, h: nat, j: int)
    requires 0 < w && 0 < h && 0 <= j < w
    ensures LinesGone(n + 1, w, h) == LinesGone(n, w, h) + 1 ==> n <= (h - 1 + LinesGone(n + 1, w, h)) * w + j
  {
    if LinesGone(n + 1, w, h) == LinesGone(n, w, h) + 1 {
      assert h - 1 + LinesGone(n + 1, w, h) == n / w;
      assert n == (n / w) * w + n % w;
      if n > 0 {
        NextPlace(n, w);
      }
    }
  }

  /** A text typed on a fresh terminal: character k stands in line k / w, column k % w, and the first lines leave at the
      top once there are more than h. Every other cell stays empty. */
  lemma {:induction false} TypedTextEffect(text: seq<Char>, w: nat, h: nat)
    requires 0 < w && 0 < h
    ensures var r := TypeAll(InitialScreen(w, h), text);
      && Plainly(r.ds, w, h) && CursorBehind(r.ds, |text|, w, h)
      && ShowsText(r, text, w, h, LinesGone(|text|, w, h))
  {
    hide Print;
    if text == [] {
      Quotient(0, w, 0, 0);
    } else {
      var init := text[..|text| - 1];
      TypedTextEffect(init, w, h);
      assert text == init + [text[|text| - 1]];
      TypeNext(TypeAll(InitialScreen(w, h), init), init, text[|text| - 1], w, h);
    }
  }
}
