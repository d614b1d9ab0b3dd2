/**
 * What each control function does to cells and cursor (alfalfa/src/terminal/terminalfunctions.cc and
 * terminalframebuffer.cc).
 */
module ControlEffects {
  import opened TerminalRenditions
  import opened Screens
  import opened ControlFunctions
  import opened ScreenEffects

  // ---------------------------------------------------------------- erasing

  /** The cells before the cursor, up to and with it, or behind it, with it; in its row or on the whole screen. */
  predicate Erases(d: DrawState, mode: int, whole: bool, i: int, j: int) {
    || (mode == 0 && ((i == d.row && d.col <= j) || (whole && d.row < i)))
    || (mode == 1 && ((i == d.row && j <= d.col) || (whole && i < d.row)))
    || (mode == 2 && (whole || i == d.row))
  }

  ghost predicate ErasedScreen(s: Screen, r: Screen, mode: int, whole: bool)
    requires Shaped(s) && Shaped(r)
  {
    && r == s.(rows := r.rows)
    && forall i, j | 0 <= i < s.ds.height && 0 <= j < s.ds.width :: r.rows[i][j] ==
         if Erases(s.ds, mode, whole, i, j) then Blank(s.ds.renditions.background) else s.rows[i][j]
  }

  lemma EraseLineEffect(s: Screen, mode: int)
    requires Shaped(s)
    ensures ErasedScreen(s, EraseInLine(s, mode), mode, false)
  {
  }

  lemma EraseDisplayEffect(s: Screen, mode: int)
    requires Shaped(s)
    ensures ErasedScreen(s, EraseInDisplay(s, mode), mode, true)
  {
  }

  /** So many cells are blank from the cursor on, in its row only. */
  ghost predicate ErasedFrom(s: Screen, r: Screen, num: int)
    requires Shaped(s) && Shaped(r)
  {
    && r == s.(rows := r.rows)
    && forall i, j | 0 <= i < s.ds.height && 0 <= j < s.ds.width :: r.rows[i][j] ==
         if i == s.ds.row && s.ds.col <= j < s.ds.col + num then Blank(s.ds.renditions.background)
         else s.rows[i][j]
  }

  lemma EraseCharactersEffect(s: Screen, num: int)
    requires Shaped(s)
    ensures ErasedFrom(s, EraseCharacters(s, num), num)
  {
  }

  // ---------------------------------------------------------------- moving the cursor

  /** Rows are counted from the top margin in origin mode. */
  function FirstRow(d: DrawState): int {
    if d.origin then d.top else 0
  }

  /** The row and column that a cursor function asks for. */
  function Asked(d: DrawState, f: Fn, p: seq<int>): (int, int) {
    var n := Count(p, 0);
    match f
    case Up => (d.row - n, d.col)
    case Down => (d.row + n, d.col)
    case Forward => (d.row, d.col + n)
    case Backward => (d.row, d.col - n)
    case Position => (FirstRow(d) + n - 1, Count(p, 1) - 1)
    case VPA => (FirstRow(d) + n - 1, d.col)
    case HPA => (d.row, n - 1)
    case CR => (d.row, 0)
    case BS => (d.row, d.col - 1)
    case _ => (d.row, d.col)
  }

  predicate MovesCursor(f: Fn) {
    f in {Up, Down, Forward, Backward, Position, VPA, HPA, CR, BS}
  }

  /** A cursor function takes the cursor to the place asked for, or the nearest one allowed, and changes nothing
      else. */
  lemma CursorEffect(s: Screen, f: Fn, p: seq<int>)
    requires Shaped(s) && MovesCursor(f)
    ensures var (row, col) := Asked(s.ds, f, p);
      Perform(s, f, p) == s.(ds := CursorAt(s.ds, NearestRow(s.ds, row), NearestCol(s.ds, col)))
  {
    hide MoveRow, MoveCol, RowsOk, Count, NearestRow, NearestCol;
    var (row, col) := Asked(s.ds, f, p);
    assert NearestCol(s.ds, s.ds.col) == s.ds.col by { ColumnIsNear(s.ds); }
    match f {
      case Up => MoveRowEffect(s.ds, -Count(p, 0), true);
      case Down => MoveRowEffect(s.ds, Count(p, 0), true);
      case Forward => MoveColEffect(s.ds, Count(p, 0), true);
      case Backward => MoveColEffect(s.ds, -Count(p, 0), true);
      case Position => PositionEffect(s.ds, Count(p, 0) - 1, Count(p, 1) - 1);
      case VPA => MoveRowEffect(s.ds, Count(p, 0) - 1, false);
      case HPA => MoveColEffect(s.ds, Count(p, 0) - 1, false);
      case CR => MoveColEffect(s.ds, 0, false);
      case BS => MoveColEffect(s.ds, -1, true);
      case _ =>
    }
  }

  lemma ColumnIsNear(d: DrawState)
    requires StateOk(d)
    ensures NearestCol(d, d.col) == d.col
  {
  }

  lemma PositionEffect(d: DrawState, n: int, m: int)
    requires StateOk(d)
    ensures MoveCol(MoveRow(d, n, false), m, false)
         == CursorAt(d, NearestRow(d, FirstRow(d) + n), NearestCol(d, m))
  {
    hide MoveRow, MoveCol, NearestRow;
    var e := MoveRow(d, n, false);
    MoveRowEffect(d, n, false);
    MoveColEffect(e, m, false);
    SameLimits(d, e, e.row);
    NearestTwice(d, FirstRow(d) + n);
  }

  lemma NearestTwice(d: DrawState, row: int)
    requires RegionOk(d)
    ensures NearestRow(d, NearestRow(d, row)) == NearestRow(d, row)
  {
  }

  // ---------------------------------------------------------------- lines and characters

  /** The lines that a function moves: those from a row to the bottom margin, by so many places, up or down. */
  function LinesMoved(s: Screen, from: int, n: int): seq<Row>
    requires 0 <= s.ds.width
  {
    if s.ds.top <= from <= s.ds.bottom then Shifted(s.rows, from, s.ds.bottom, n, NewRow(s)) else s.rows
  }

  lemma PerformsLines(s: Screen, f: Fn, p: seq<int>)
    requires Shaped(s)
    ensures f == IL ==> Perform(s, f, p) == ToColumn(InsertLines(s, Count(p, 0)), 0)
    ensures f == DL ==> Perform(s, f, p) == ToColumn(DeleteLines(s, Count(p, 0)), 0)
  {
    hide InsertLines, DeleteLines, ToColumn, Count, Shaped, PerformModes;
  }

  lemma PerformsScroll(s: Screen, f: Fn, p: seq<int>)
    requires Shaped(s)
    ensures f == SD ==> Perform(s, f, p) == Scroll(s, Count(p, 0))
    ensures f == SU ==> Perform(s, f, p) == Scroll(s, -Count(p, 0))
  {
    hide Scroll, Count, Shaped, PerformModes;
  }

  lemma PerformsCells(s: Screen, f: Fn, p: seq<int>)
    requires Shaped(s)
    ensures f == ICH ==> Perform(s, f, p) == InsertCells(s, Count(p, 0))
    ensures f == DCH ==> Perform(s, f, p) == DeleteCells(s, Count(p, 0))
  {
    hide InsertCells, DeleteCells, Count, Shaped, PerformModes;
  }

  /** Inserting lines at the cursor, which goes to the first column. */
  lemma InsertingLines(s: Screen, p: seq<int>)
    requires Shaped(s)
    ensures Perform(s, IL, p) == s.(rows := LinesMoved(s, s.ds.row, -Count(p, 0)),
                                    ds := CursorAt(s.ds, NearestRow(s.ds, s.ds.row), 0))
  {
    hide MoveCol, InsertLines, Shifted, Count, NearestRow, NewRow, Perform;
    PerformsLines(s, IL, p);
    var n: nat := Count(p, 0);
    InsertLinesEffect(s, n);
    MoveColEffect(s.ds, 0, false);
  }

  /** Deleting lines. */
  lemma DeletingLines(s: Screen, p: seq<int>)
    requires Shaped(s)
    ensures Perform(s, DL, p) == s.(rows := LinesMoved(s, s.ds.row, Count(p, 0)),
                                    ds := CursorAt(s.ds, NearestRow(s.ds, s.ds.row), 0))
  {
    hide MoveCol, DeleteLines, Shifted, Count, NearestRow, NewRow, Perform;
    PerformsLines(s, DL, p);
    var n: nat := Count(p, 0);
    DeleteLinesEffect(s, n);
    MoveColEffect(s.ds, 0, false);
  }

  /** Scrolling by so many lines. */
  lemma ScrollEffect(s: Screen, p: seq<int>)
    requires Shaped(s)
    ensures Perform(s, SD, p) == s.(rows := LinesMoved(s, s.ds.top, Count(p, 0)),
                                    ds := CursorAt(s.ds, RowAfterScroll(s.ds, Count(p, 0)), s.ds.col))
    ensures Perform(s, SU, p) == s.(rows := LinesMoved(s, s.ds.top, -Count(p, 0)),
                                    ds := CursorAt(s.ds, RowAfterScroll(s.ds, -Count(p, 0)), s.ds.col))
  {
    hide ScrollUp, ScrollDown, Shifted, Count, RowAfterScroll, NewRow, RowsOk, Perform, CursorAt;
    PerformsScroll(s, SD, p);
    PerformsScroll(s, SU, p);
    var n: nat := Count(p, 0);
    ScrollUpEffect(s, n);
    ScrollUpCursor(s, n);
    ScrollDownEffect(s, n);
    ScrollDownCursor(s, n);
  }

  lemma PerformsFeeds(s: Screen, p: seq<int>)
    requires Shaped(s)
    ensures Perform(s, LF, p) == AutoScroll(s, 1) && Perform(s, RI, p) == AutoScroll(s, -1)
    ensures Perform(s, NEL, p) == AutoScroll(ToColumn(s, 0), 1)
  {
    hide AutoScroll, ToColumn, Shaped;
  }

  /** Line feed, reverse line feed and next line. */
  lemma FeedEffect(s: Screen, p: seq<int>)
    requires Shaped(s)
    ensures Perform(s, LF, p) == s.(ds := CursorAt(s.ds, RowAfterFeed(s.ds), s.ds.col),
      rows := if s.ds.row == s.ds.bottom then LinesMoved(s, s.ds.top, 1) else s.rows)
    ensures Perform(s, RI, p) == s.(ds := CursorAt(s.ds, RowAfterReverse(s.ds), s.ds.col),
      rows := if s.ds.row == s.ds.top then LinesMoved(s, s.ds.top, -1) else s.rows)
    ensures var d := WrapRow(s.ds);
      Perform(s, NEL, p) == s.(ds := CursorAt(s.ds, RowAfterFeed(d), 0),
        rows := if d.row == s.ds.bottom then LinesMoved(s, s.ds.top, 1) else s.rows)
  {
    hide AutoScroll, Shifted, RowAfterFeed, RowAfterReverse, MoveCol, NearestRow, NewRow, RowsOk, Perform;
    PerformsFeeds(s, p);
    LineFeedEffect(s);
    ReverseFeedEffect(s);
    MoveColEffect(s.ds, 0, false);
    var s1 := ToColumn(s, 0);
    LineFeedEffect(s1);
    SameFeed(s.ds, s1.ds);
    SameBlank(s, s1);
    assert NearestCol(s.ds, 0) == 0;
  }

  /** Inserting and deleting characters at the cursor moves the rest of its row. */
  lemma CharactersEffect(s: Screen, p: seq<int>)
    requires Shaped(s)
    ensures var cells, blank := s.rows[s.ds.row], Blank(s.ds.renditions.background);
      && Perform(s, ICH, p)
         == s.(rows := s.rows[s.ds.row := Shifted(cells, s.ds.col, s.ds.width - 1, -Count(p, 0), blank)])
      && Perform(s, DCH, p)
         == s.(rows := s.rows[s.ds.row := Shifted(cells, s.ds.col, s.ds.width - 1, Count(p, 0), blank)])
  {
    hide InsertCells, DeleteCells, Shifted, Count, Perform;
    PerformsCells(s, ICH, p);
    PerformsCells(s, DCH, p);
    var n: nat := Count(p, 0);
    InsertCellsEffect(s, n);
    DeleteCellsEffect(s, n);
  }

  // ---------------------------------------------------------------- tab stops

  /** Column c is where a tab leads to from column col: the first stop behind it, or the last column. */
  predicate IsNextStop(d: DrawState, c: int)
    requires |d.tabs| == d.width && 0 <= d.col
  {
    && 0 <= c < d.width
    && (forall k | d.col < k < d.width && k < c :: !d.tabs[k])
    && ((d.col < c && d.tabs[c]) || (c == d.width - 1 && forall k | d.col < k < d.width :: !d.tabs[k]))
  }

  lemma {:induction false} NextTabIs(tabs: seq<bool>, i: nat)
    ensures var r := NextTab(tabs, i);
      && (r == -1 <==> forall k | i <= k < |tabs| :: !tabs[k])
      && (r != -1 ==> i <= r < |tabs| && tabs[r] && forall k | i <= k < r :: !tabs[k])
    decreases |tabs| - i
  {
    if i < |tabs| && !tabs[i] {
      NextTabIs(tabs, i + 1);
    }
  }

  lemma NextStop(d: DrawState) returns (c: int)
    requires StateOk(d)
    ensures IsNextStop(d, c)
    ensures c == if NextTab(d.tabs, d.col + 1) == -1 then d.width - 1 else NextTab(d.tabs, d.col + 1)
  {
    NextTabIs(d.tabs, d.col + 1);
    var next := NextTab(d.tabs, d.col + 1);
    c := if next == -1 then d.width - 1 else next;
  }

  /** A tab leads to the next stop, and keeps a pending wrap. */
  lemma TabEffect(s: Screen, p: seq<int>) returns (c: int)
    requires Shaped(s)
    ensures IsNextStop(s.ds, c)
    ensures Perform(s, HT, p)
         == s.(ds := CursorAt(s.ds, NearestRow(s.ds, s.ds.row), c).(wrapNext := s.ds.wrapNext))
  {
    hide MoveCol, RowsOk, NearestRow, NextTab;
    c := NextStop(s.ds);
    MoveColEffect(s.ds, c, false);
  }

  /** A stop is set at the cursor. */
  lemma SetStopEffect(s: Screen, f: Fn, p: seq<int>)
    requires Shaped(s) && f == HTS
    ensures var r := Perform(s, f, p);
      && r == s.(ds := s.ds.(tabs := r.ds.tabs)) && |r.ds.tabs| == |s.ds.tabs|
      && forall k | 0 <= k < |s.ds.tabs| :: r.ds.tabs[k] <==> s.ds.tabs[k] || k == s.ds.col
  {
    hide RowsOk, Param, CombiningOk;
  }

  /** Stops are cleared at the cursor or, by 3, everywhere; then resizing adds none either. */
  lemma ClearStopsEffect(s: Screen, f: Fn, p: seq<int>)
    requires Shaped(s) && f == TBC
    ensures var r, mode := Perform(s, f, p), Param(p, 0, 0);
      && r == s.(ds := s.ds.(tabs := r.ds.tabs, defaultTabs := s.ds.defaultTabs && mode != 3))
      && |r.ds.tabs| == |s.ds.tabs|
      && forall k | 0 <= k < |s.ds.tabs| ::
        r.ds.tabs[k] <==> s.ds.tabs[k] && mode != 3 && !(mode == 0 && k == s.ds.col)
  {
    hide RowsOk, Param, CombiningOk, Perform;
    PerformsClear(s, f, p);
  }

  lemma PerformsClear(s: Screen, f: Fn, p: seq<int>)
    requires Shaped(s) && f == TBC
    ensures Perform(s, f, p) == ClearTabs(s, Param(p, 0, 0))
  {
    hide Shaped, Param, ClearTabs;
  }

  // ---------------------------------------------------------------- saving, resetting and resizing

  /** Restoring brings back what was saved last, whatever came between, with the cursor snapped to what is allowed. */
  lemma RestoreEffect(s: Screen, t: Screen, p: seq<int>)
    requires Shaped(s) && Shaped(t) && t.ds.save == Perform(s, DECSC, p).ds.save
    ensures Perform(s, DECSC, p) == s.(ds := s.ds.(save := t.ds.save))
    ensures var r := Perform(t, DECRC, p);
      var modes := t.ds.(origin := s.ds.origin, autoWrap := s.ds.autoWrap, renditions := s.ds.renditions);
      var row, col := NearestRow(modes, s.ds.row), NearestCol(modes, s.ds.col);
      r == t.(ds := modes.(row := row, col := col, combiningRow := row, combiningCol := col))
  {
    hide Snap, RowsOk;
    var v := t.ds.save;
    SnapEffect(t.ds.(col := v.col, row := v.row, renditions := v.renditions, autoWrap := v.autoWrap,
                     origin := v.origin));
  }

  /** After a reset nothing but the size, the icon's name and the count of bells is left of the screen before. */
  lemma ResetEffect(s: Screen, p: seq<int>)
    requires Shaped(s)
    ensures Perform(s, RIS, p) == InitialScreen(s.ds.width, s.ds.height).(icon := s.icon, bells := s.bells)
  {
  }

  /** A soft reset undoes insert and origin mode, margins, renditions and the saved cursor; cells and cursor stay. */
  lemma SoftResetEffect(s: Screen, p: seq<int>)
    requires Shaped(s)
    ensures Perform(s, DECSTR, p) == s.(ds := s.ds.(
      insert := false, origin := false, visible := true, appKeys := false, top := 0, bottom := s.ds.height - 1,
      renditions := Plain(0), save := InitialSave()))
  {
    hide RowsOk;
  }

  /** A resize keeps every cell that is on both screens, but for the wrap marks; new cells are blank in the current
      background. */
  lemma ResizedRowsEffect(s: Screen, w: int, h: int)
    requires Shaped(s) && 0 < w && 0 < h
    ensures var rows := ResizedRows(s, w, h);
      && RowsOk(rows, w, h)
      && forall i, j | 0 <= i < h && 0 <= j < w :: rows[i][j] == ResizedCell(s, i, j)
  {
    hide CursorOk, CombiningOk;
    var rows := ResizedRows(s, w, h);
    forall i, j | 0 <= i < h && 0 <= j < w
      ensures rows[i][j] == ResizedCell(s, i, j)
    {
      assert rows[i] == ResizedRow(RowForResize(s, i), w, s.ds.renditions.background);
    }
  }

  function ResizedCell(s: Screen, i: int, j: int): Cell
    requires Shaped(s) && 0 <= i && 0 <= j
  {
    if i < s.ds.height && j < s.ds.width then
      if j == s.ds.width - 1 then s.rows[i][j].(wrap := false) else s.rows[i][j]
    else Blank(s.ds.renditions.background)
  }

  /** A real resize resets the margins; the cursor goes to the nearest place, and a combining cell that is no longer
      there is forgotten. New stops are where the default ones are. Nothing else changes. */
  lemma ResizedStateEffect(d: DrawState, w: int, h: int)
    requires StateOk(d) && 0 < w && 0 < h
    ensures var r := ResizedState(d, w, h);
      var changed := w != d.width || h != d.height;
      var there := d.combiningCol < w && d.combiningRow < h;
      && r == d.(width := w, height := h,
                 top := if changed then 0 else d.top, bottom := if changed then h - 1 else d.bottom,
                 tabs := r.tabs, row := NearestRow(r, d.row), col := NearestCol(r, d.col),
                 combiningRow := if there then d.combiningRow else -1,
                 combiningCol := if there then d.combiningCol else -1)
      && |r.tabs| == w
      && (forall k | 0 <= k < w :: r.tabs[k] == if k < d.width then d.tabs[k] else d.defaultTabs && k % 8 == 0)
  {
    hide CursorOk, SameSize;
  }

  /** Resizing the screen does both. Modes, renditions, the saved cursor and a pending wrap stay. */
  lemma ResizeEffect(s: Screen, w: int, h: int)
    requires Shaped(s) && 0 < w && 0 < h
    ensures var r := Resize(s, w, h);
      var changed := w != s.ds.width || h != s.ds.height;
      var there := s.ds.combiningCol < w && s.ds.combiningRow < h;
      && RowsOk(r.rows, w, h)
      && (forall i, j | 0 <= i < h && 0 <= j < w :: r.rows[i][j] == ResizedCell(s, i, j))
      && r == s.(rows := r.rows, ds := s.ds.(
           width := w, height := h,
           top := if changed then 0 else s.ds.top, bottom := if changed then h - 1 else s.ds.bottom,
           tabs := r.ds.tabs, row := NearestRow(r.ds, s.ds.row), col := NearestCol(r.ds, s.ds.col),
           combiningRow := if there then s.ds.combiningRow else -1,
           combiningCol := if there then s.ds.combiningCol else -1))
      && |r.ds.tabs| == w
      && (forall k | 0 <= k < w ::
            r.ds.tabs[k] == if k < s.ds.width then s.ds.tabs[k] else s.ds.defaultTabs && k % 8 == 0)
  {
    hide ResizedRows, ResizedState, StateOk, RowsOk, ResizedCell, NearestRow, NearestCol;
    ResizedRowsEffect(s, w, h);
    ResizedStateEffect(s.ds, w, h);
  }

  // ---------------------------------------------------------------- combining characters, margins and modes

  /** A combining character joins the cell printed last, up to 16 characters; an empty one it starts, as a fallback,
      and then the cursor moves on. Without such a cell on the screen it is dropped. No other cell changes. */
  lemma CombiningEffect(s: Screen, ch: Char)
    requires Shaped(s)
    ensures var r := Print(s, ch, 0);
      if !CombiningOnScreen(s.ds) then r == s else
        var row, col := s.ds.combiningRow, s.ds.combiningCol;
        var cell := s.rows[row][col];
        var joined := if |cell.contents| < 16 then cell.contents + [ch] else cell.contents;
        && r.rows[row][col] == cell.(contents := joined, fallback := cell.fallback || cell.contents == [])
        && (forall i, j | 0 <= i < s.ds.height && 0 <= j < s.ds.width && !(i == row && j == col) ::
              r.rows[i][j] == s.rows[i][j])
        && (cell.contents != [] ==> r.ds == s.ds)
        && (cell.contents == [] ==> r.ds == s.ds.(
              row := NearestRow(s.ds, s.ds.row), col := NearestCol(s.ds, s.ds.col + 1),
              combiningRow := s.ds.row, combiningCol := s.ds.col, wrapNext := s.ds.col + 1 >= s.ds.width))
  {
    hide Advance, NearestRow;
    AdvanceEffect(s.ds, 1);
  }

  /** Margins that make sense are set, cut to the screen, and the cursor goes home; others change nothing. */
  lemma MarginsEffect(s: Screen, p: seq<int>)
    requires Shaped(s)
    ensures var top, bottom := Param(p, 0, 1), Param(p, 1, s.ds.height);
      var r := Perform(s, DECSTBM, p);
      if top < bottom && top <= s.ds.height then
        && r.ds.top == top - 1 && r.ds.bottom == (if bottom <= s.ds.height then bottom else s.ds.height) - 1
        && r == s.(ds := CursorAt(s.ds, FirstRow(r.ds), 0).(top := r.ds.top, bottom := r.ds.bottom))
      else r == s
  {
    hide MoveRow, MoveCol, RowsOk, SetRegion;
    var top, bottom := Param(p, 0, 1), Param(p, 1, s.ds.height);
    if top < bottom && top <= s.ds.height {
      var d := SetRegion(s.ds, top - 1, bottom - 1);
      RegionEffect(s.ds, top - 1, bottom - 1);
      PositionEffect(d, 0, 0);
    }
  }

  lemma RegionEffect(d: DrawState, top: int, bottom: int)
    requires StateOk(d) && 0 <= top < bottom && top < d.height
    ensures var e := SetRegion(d, top, bottom);
      && e.top == top && e.bottom == (if bottom < d.height then bottom else d.height - 1)
      && e == d.(top := e.top, bottom := e.bottom, row := e.row, col := e.col, combiningRow := e.combiningRow,
                 combiningCol := e.combiningCol)
  {
  }

  /** The value a mode has after a list of modes was set or reset. */
  predicate ModeAfter(was: bool, params: seq<int>, n: nat, mode: int, on: bool) {
    if exists i | 0 <= i < n :: Param(params, i, 0) == mode then on else was
  }

  /** Some of the first n parameters is one of the modes. */
  predicate Lists(params: seq<int>, n: nat, modes: set<int>) {
    exists i | 0 <= i < n :: Param(params, i, 0) in modes
  }

  lemma ListsNext(params: seq<int>, n: nat, modes: set<int>)
    requires n > 0
    ensures Lists(params, n, modes) <==> Lists(params, n - 1, modes) || Param(params, n - 1, 0) in modes
  {
  }

  /** The row of the cursor after a list of modes: the home of the last 3 or 6 in it, which depends on the origin mode
      then in force. */
  function RowAfterModes(d: DrawState, params: seq<int>, n: nat, on: bool): int {
    if n == 0 then d.row
    else if Param(params, n - 1, 0) in {3, 6} then
      if ModeAfter(d.origin, params, n - 1, 6, on) then d.top else 0
    else RowAfterModes(d, params, n - 1, on)
  }

  /** The drawing state after a list of private modes: exactly the modes listed are decided, and 3 and 6 take the cursor
      home. Nothing else changes. */
  function StateAfterModes(d: DrawState, params: seq<int>, n: nat, on: bool): DrawState {
    var e := d.(appKeys := ModeAfter(d.appKeys, params, n, 1, on), reverse := ModeAfter(d.reverse, params, n, 5, on),
                origin := ModeAfter(d.origin, params, n, 6, on), autoWrap := ModeAfter(d.autoWrap, params, n, 7, on),
                visible := ModeAfter(d.visible, params, n, 25, on));
    if Lists(params, n, {3, 6}) then CursorAt(e, RowAfterModes(d, params, n, on), 0) else e
  }

  /** Setting or resetting a list of private modes decides exactly the modes listed; 3 also blanks the screen, and 3 and
      6 take the cursor home. */
  lemma {:induction false} DecModesEffect(s: Screen, params: seq<int>, n: nat, on: bool)
    requires Shaped(s)
    ensures SetDecModes(s, params, n, on) == s.(
      ds := StateAfterModes(s.ds, params, n, on),
      rows := if Lists(params, n, {3}) then BlankRows(s.ds.width, s.ds.height, s.ds.renditions.background) else s.rows)
  {
    hide SetDecMode, BlankRows, Param, Shaped, ModeAfter, Lists;
    if n == 0 {
      assert !Lists(params, 0, {3}) && !Lists(params, 0, {3, 6}) by { NoneListed(params, s.ds, on); }
      NoneListed(params, s.ds, on);
    } else {
      DecModesEffect(s, params, n - 1, on);
      var mode := Param(params, n - 1, 0);
      DecModeEffect(SetDecModes(s, params, n - 1, on), mode, on);
      ListsNext(params, n, {3});
      ListsNext(params, n, {3, 6});
      NextMode(s.ds, params, n, on);
    }
  }

  lemma NoneListed(params: seq<int>, d: DrawState, on: bool)
    ensures !Lists(params, 0, {3}) && !Lists(params, 0, {3, 6})
    ensures StateAfterModes(d, params, 0, on) == d
  {
  }

  lemma NextMode(d: DrawState, params: seq<int>, n: nat, on: bool)
    requires n > 0
    ensures forall was, mode ::
      ModeAfter(was, params, n, mode, on)
      == if Param(params, n - 1, 0) == mode then on else ModeAfter(was, params, n - 1, mode, on)
  {
  }

  /** The drawing state after one private mode. */
  function StateAfterMode(d: DrawState, mode: int, on: bool): DrawState {
    var e := d.(appKeys := if mode == 1 then on else d.appKeys, reverse := if mode == 5 then on else d.reverse,
                origin := if mode == 6 then on else d.origin, autoWrap := if mode == 7 then on else d.autoWrap,
                visible := if mode == 25 then on else d.visible);
    if mode in {3, 6} then CursorAt(e, FirstRow(d), 0) else e
  }

  lemma DecModeEffect(s: Screen, mode: int, on: bool)
    requires Shaped(s)
    ensures SetDecMode(s, mode, on) == s.(
      ds := StateAfterMode(s.ds, mode, on),
      rows := if mode == 3 then BlankRows(s.ds.width, s.ds.height, s.ds.renditions.background) else s.rows)
  {
    hide CursorTo, BlankRows, ClearRows, Shaped;
    if mode == 3 {
      HomeEffect(s);
      AllCleared(CursorTo(s, 0, 0));
    } else if mode == 6 {
      HomeEffect(s);
    }
  }

  /** Setting or resetting a list of the other modes decides insert mode if it is listed, and nothing else. */
  lemma {:induction false} AnsiModesEffect(s: Screen, params: seq<int>, n: nat, on: bool)
    requires Shaped(s)
    ensures SetAnsiModes(s, params, n, on) == s.(ds := s.ds.(insert := ModeAfter(s.ds.insert, params, n, 4, on)))
  {
    hide Param, Shaped;
    if n > 0 {
      AnsiModesEffect(s, params, n - 1, on);
    }
  }

  /** The alignment test fills every cell with an E on the current background, and changes nothing else. */
  lemma AlignmentEffect(s: Screen, p: seq<int>)
    requires Shaped(s)
    ensures var r := Perform(s, DECALN, p);
      && r == s.(rows := r.rows) && RowsOk(r.rows, s.ds.width, s.ds.height)
      && forall i, j | 0 <= i < s.ds.height && 0 <= j < s.ds.width ::
        r.rows[i][j] == Cell([0x45], false, 1, Plain(s.ds.renditions.background), false)
  {
  }

  lemma HomeEffect(s: Screen)
    requires Shaped(s)
    ensures CursorTo(s, 0, 0) == s.(ds := CursorAt(s.ds, FirstRow(s.ds), 0))
  {
    hide MoveRow, MoveCol, RowsOk;
    PositionEffect(s.ds, 0, 0);
  }

  lemma AllCleared(s: Screen)
    requires Shaped(s)
    ensures ClearRows(s, 0, s.ds.height)
         == s.(rows := BlankRows(s.ds.width, s.ds.height, s.ds.renditions.background))
  {
    var rows := BlankRows(s.ds.width, s.ds.height, s.ds.renditions.background);
    assert ClearRows(s, 0, s.ds.height).rows == rows;
  }
}
