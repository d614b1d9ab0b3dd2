/**
 * The terminal's framebuffer as a value, and what each operation makes of it
 * (alfalfa/src/terminal/terminalframebuffer.cc, terminalfunctions.cc, terminal.cc).
 * Every operation keeps the shape: rows, cursor, region, tab stops and the position
 * of the combining cell stay within the screen.
 */
module Screens {
  import opened TerminalRenditions

  type Char = nat

  datatype Cell = Cell(contents: seq<Char>, fallback: bool, width: int, renditions: Renditions, wrap: bool)

  type Row = seq<Cell>

  datatype SavedCursor = SavedCursor(col: int, row: int, renditions: Renditions, autoWrap: bool, origin: bool)

  datatype DrawState = DrawState(
    width: int, height: int,
    col: int, row: int,
    combiningCol: int, combiningRow: int,
    defaultTabs: bool, tabs: seq<bool>,
    top: int, bottom: int,
    renditions: Renditions,
    save: SavedCursor,
    wrapNext: bool, origin: bool, autoWrap: bool, insert: bool, visible: bool, reverse: bool, appKeys: bool)

  datatype Screen = Screen(rows: seq<Row>, ds: DrawState, icon: seq<Char>, title: seq<Char>, bells: nat)

  function Blank(background: int): Cell {
    Cell([], false, 1, Plain(background), false)
  }

  function BlankRow(width: nat, background: int): (r: Row)
    ensures |r| == width
  {
    seq(width, _ => Blank(background))
  }

  // ---------------------------------------------------------------- shape

  predicate CursorOk(d: DrawState) {
    0 <= d.col < d.width && 0 <= d.row < d.height
  }

  predicate CombiningOk(d: DrawState) {
    (0 <= d.combiningCol < d.width && 0 <= d.combiningRow < d.height) || (d.combiningCol == -1 && d.combiningRow == -1)
  }

  /** The shape of everything but the cursor, which an operation may move outside before it is snapped back. */
  predicate RegionOk(d: DrawState) {
    && 0 < d.width && 0 < d.height
    && |d.tabs| == d.width
    && 0 <= d.top <= d.bottom < d.height
  }

  predicate StateOk(d: DrawState) {
    RegionOk(d) && CursorOk(d) && CombiningOk(d)
  }

  predicate RowsOk(rows: seq<Row>, width: int, height: int) {
    |rows| == height && forall i | 0 <= i < |rows| :: |rows[i]| == width
  }

  predicate Shaped(s: Screen) {
    StateOk(s.ds) && RowsOk(s.rows, s.ds.width, s.ds.height)
  }

  predicate SameSize(d: DrawState, e: DrawState) {
    d.width == e.width && d.height == e.height
  }

  function WithState(s: Screen, d: DrawState): (r: Screen)
    requires RowsOk(s.rows, d.width, d.height) && StateOk(d)
    ensures Shaped(r)
  {
    s.(ds := d)
  }

  // ---------------------------------------------------------------- cursor

  function LimitTop(d: DrawState): int {
    if d.origin then d.top else 0
  }

  function LimitBottom(d: DrawState): int {
    if d.origin then d.bottom else d.height - 1
  }

  function Snap(d: DrawState): (r: DrawState)
    requires RegionOk(d)
    ensures RegionOk(r) && CursorOk(r)
    ensures SameSize(d, r)
  {
    var row0 := if d.row < LimitTop(d) then LimitTop(d) else d.row;
    var row1 := if row0 > LimitBottom(d) then LimitBottom(d) else row0;
    var col0 := if d.col < 0 then 0 else d.col;
    var col1 := if col0 >= d.width then d.width - 1 else col0;
    d.(row := row1, col := col1)
  }

  function NewGrapheme(d: DrawState): DrawState {
    d.(combiningCol := d.col, combiningRow := d.row)
  }

  function MoveRow(d: DrawState, n: int, relative: bool): (r: DrawState)
    requires RegionOk(d)
    ensures StateOk(r)
    ensures SameSize(d, r)
  {
    var row := if relative then d.row + n else n + LimitTop(d);
    NewGrapheme(Snap(d.(row := row))).(wrapNext := false)
  }

  /** An explicit move of the column. */
  function MoveCol(d: DrawState, n: int, relative: bool): (r: DrawState)
    requires RegionOk(d)
    ensures StateOk(r)
    ensures SameSize(d, r)
  {
    var col := if relative then d.col + n else n;
    NewGrapheme(Snap(d.(col := col))).(wrapNext := false)
  }

  /** The move that printing a character implies. */
  function Advance(d: DrawState, n: int): (r: DrawState)
    requires StateOk(d)
    ensures StateOk(r)
    ensures SameSize(d, r)
  {
    var d1 := NewGrapheme(d);
    var col := d1.col + n;
    Snap(d1.(col := col, wrapNext := col >= d1.width))
  }

  function RegionTop(top: int): int {
    if top < 0 then 0 else top
  }

  function RegionBottom(top: int, bottom: int, height: int): int {
    var b := if bottom >= height then height - 1 else bottom;
    if b < RegionTop(top) then RegionTop(top) else b
  }

  function WithRegion(d: DrawState, top: int, bottom: int): (r: DrawState)
    requires StateOk(d) && 0 <= top <= bottom < d.height
    ensures StateOk(r) && SameSize(d, r)
  {
    d.(top := top, bottom := bottom)
  }

  function SetRegion(d: DrawState, top: int, bottom: int): (r: DrawState)
    requires StateOk(d) && top < d.height
    ensures StateOk(r)
    ensures SameSize(d, r)
  {
    var d1 := WithRegion(d, RegionTop(top), RegionBottom(top, bottom, d.height));
    if d1.origin then NewGrapheme(Snap(d1)) else d1
  }

  // ---------------------------------------------------------------- rows and cells

  function Cleared(row: Row, start: int, end: int, background: int): (r: Row)
    ensures |r| == |row|
  {
    seq(|row|, i requires 0 <= i < |row| => if start <= i <= end then Blank(background) else row[i])
  }

  /** The cells from start to end of a row become blank in the current background. */
  function ClearLine(s: Screen, row: int, start: int, end: int): (r: Screen)
    requires Shaped(s) && 0 <= row < s.ds.height
    ensures Shaped(r)
  {
    s.(rows := s.rows[row := Cleared(s.rows[row], start, end, s.ds.renditions.background)])
  }

  function ClearRows(s: Screen, from: int, to: int): (r: Screen)
    requires Shaped(s)
    ensures Shaped(r)
  {
    var blank := NewRow(s);
    s.(rows := seq(|s.rows|, i requires 0 <= i < |s.rows| => if from <= i < to then blank else s.rows[i]))
  }

  function NewRow(s: Screen): (r: Row)
    requires 0 <= s.ds.width
    ensures |r| == s.ds.width
  {
    BlankRow(s.ds.width, s.ds.renditions.background)
  }

  function DeleteLine(s: Screen, row: int): (r: Screen)
    requires Shaped(s)
    ensures Shaped(r) && r.ds == s.ds
  {
    if row < s.ds.top || row > s.ds.bottom then s else
      var grown := s.rows[..s.ds.bottom + 1] + [NewRow(s)] + s.rows[s.ds.bottom + 1..];
      s.(rows := grown[..row] + grown[row + 1..])
  }

  function InsertLine(s: Screen, before: int): (r: Screen)
    requires Shaped(s)
    ensures Shaped(r) && r.ds == s.ds
  {
    if before < s.ds.top || before > s.ds.bottom + 1 then s else
      var grown := s.rows[..before] + [NewRow(s)] + s.rows[before..];
      s.(rows := grown[..s.ds.bottom + 1] + grown[s.ds.bottom + 2..])
  }

  function ScrollUp(s: Screen, n: nat): (r: Screen)
    requires Shaped(s)
    ensures Shaped(r)
  {
    if n == 0 then s else
      var s1 := ScrollUp(s, n - 1);
      var s2 := DeleteLine(s1, s1.ds.top);
      WithState(s2, MoveRow(s2.ds, -1, true))
  }

  function ScrollDown(s: Screen, n: nat): (r: Screen)
    requires Shaped(s)
    ensures Shaped(r)
  {
    if n == 0 then s else
      var s1 := ScrollDown(s, n - 1);
      var s2 := InsertLine(s1, s1.ds.top);
      WithState(s2, MoveRow(s2.ds, 1, true))
  }

  function Scroll(s: Screen, n: int): (r: Screen)
    requires Shaped(s)
    ensures Shaped(r)
  {
    if n >= 0 then ScrollUp(s, n) else ScrollDown(s, -n)
  }

  function AutoScroll(s: Screen, n: int): (r: Screen)
    requires Shaped(s)
    ensures Shaped(r)
  {
    if s.ds.row < s.ds.top || s.ds.row > s.ds.bottom then
      WithState(s, MoveRow(s.ds, n, true))
    else
      var s1 :=
        if s.ds.row + n > s.ds.bottom then Scroll(s, s.ds.row + n - s.ds.bottom)
        else if s.ds.row + n < s.ds.top then Scroll(s, s.ds.row + n - s.ds.top)
        else s;
      WithState(s1, MoveRow(s1.ds, n, true))
  }

  function SetCell(s: Screen, row: int, col: int, cell: Cell): (r: Screen)
    requires Shaped(s) && 0 <= row < s.ds.height && 0 <= col < s.ds.width
    ensures Shaped(r)
  {
    s.(rows := s.rows[row := s.rows[row][col := cell]])
  }

  function InsertCell(s: Screen, row: int, col: int): (r: Screen)
    requires Shaped(s) && 0 <= row < s.ds.height && 0 <= col < s.ds.width
    ensures Shaped(r) && r.ds == s.ds
  {
    var cells := s.rows[row];
    s.(rows := s.rows[row := (cells[..col] + [Blank(s.ds.renditions.background)] + cells[col..])[..s.ds.width]])
  }

  function DeleteCell(s: Screen, row: int, col: int): (r: Screen)
    requires Shaped(s) && 0 <= row < s.ds.height && 0 <= col < s.ds.width
    ensures Shaped(r) && r.ds == s.ds
  {
    var cells := s.rows[row];
    s.(rows := s.rows[row := cells[..col] + cells[col + 1..] + [Blank(s.ds.renditions.background)]])
  }

  function SetWrap(s: Screen, row: int, wrap: bool): (r: Screen)
    requires Shaped(s) && 0 <= row < s.ds.height
    ensures Shaped(r) && r.ds == s.ds
  {
    var last := s.ds.width - 1;
    SetCell(s, row, last, s.rows[row][last].(wrap := wrap))
  }

  // ---------------------------------------------------------------- printing

  /** A character that does not fit wraps to the next line, scrolling if it must. */
  function WrapForPrint(s: Screen, w: int): (r: Screen)
    requires Shaped(s)
    ensures Shaped(r)
  {
    if s.ds.autoWrap && s.ds.wrapNext then
      var s1 := SetWrap(s, s.ds.row, true);
      AutoScroll(WithState(s1, MoveCol(s1.ds, 0, false)), 1)
    else if s.ds.autoWrap && w == 2 && s.ds.col == s.ds.width - 1 then
      var s1 := SetCell(s, s.ds.row, s.ds.col, Blank(s.ds.renditions.background));
      var s2 := SetWrap(s1, s.ds.row, false);
      AutoScroll(WithState(s2, MoveCol(s2.ds, 0, false)), 1)
    else
      s
  }

  function InsertForPrint(s: Screen, w: nat): (r: Screen)
    requires Shaped(s)
    ensures Shaped(r) && r.ds == s.ds
  {
    if w == 0 then s else
      var s1 := InsertForPrint(s, w - 1);
      InsertCell(s1, s1.ds.row, s1.ds.col)
  }

  function PrintWide(s: Screen, ch: Char, w: int): (r: Screen)
    requires Shaped(s) && 1 <= w <= 2
    ensures Shaped(r)
  {
    var s1 := WrapForPrint(s, w);
    var s2 := if s1.ds.insert then InsertForPrint(s1, w) else s1;
    var s3 := SetCell(s2, s2.ds.row, s2.ds.col, Cell([ch], false, w, s2.ds.renditions, false));
    var s4 := if w == 2 && s3.ds.col + 1 < s3.ds.width
              then SetCell(s3, s3.ds.row, s3.ds.col + 1, Blank(s3.ds.renditions.background)) else s3;
    WithState(s4, Advance(s4.ds, w))
  }

  predicate CombiningOnScreen(d: DrawState) {
    0 <= d.combiningCol < d.width && 0 <= d.combiningRow < d.height
  }

  /** The cell printed last is on the screen, was emptied since, and is not the one the cursor is at. */
  predicate Stray(s: Screen)
    requires Shaped(s)
  {
    && CombiningOnScreen(s.ds)
    && s.rows[s.ds.combiningRow][s.ds.combiningCol].contents == []
    && (s.ds.row != s.ds.combiningRow || s.ds.col != s.ds.combiningCol)
  }

  /** Printing fails an assertion: a combining character would start a cell that is not at the cursor or is wide. */
  predicate PrintStops(s: Screen, w: int)
    requires Shaped(s)
  {
    && w == 0 && CombiningOnScreen(s.ds)
    && var cell := s.rows[s.ds.combiningRow][s.ds.combiningCol];
    cell.contents == [] && (Stray(s) || cell.width != 1)
  }

  /** A combining character joins the cell printed last; at an empty cell it starts one of its own. */
  function PrintCombining(s: Screen, ch: Char): (r: Screen)
    requires Shaped(s)
    ensures Shaped(r)
  {
    if !CombiningOnScreen(s.ds) then s else
      var row, col := s.ds.combiningRow, s.ds.combiningCol;
      var cell := s.rows[row][col];
      var starts := cell.contents == [];
      var cell1 := if starts then cell.(fallback := true) else cell;
      var cell2 := if |cell1.contents| < 16 then cell1.(contents := cell1.contents + [ch]) else cell1;
      var s1 := SetCell(s, row, col, cell2);
      if starts then WithState(s1, Advance(s1.ds, 1)) else s1
  }

  /** What printing ch does when it takes w columns; -1 stands for an unprintable character. */
  function Print(s: Screen, ch: Char, w: int): (r: Screen)
    requires Shaped(s) && -1 <= w <= 2
    ensures Shaped(r)
  {
    if w == 1 || w == 2 then PrintWide(s, ch, w)
    else if w == 0 then PrintCombining(s, ch)
    else s
  }

  // ---------------------------------------------------------------- control functions

  /** Most control functions cancel a pending wrap before they act. */
  function CancelWrap(s: Screen): (r: Screen)
    requires Shaped(s)
    ensures Shaped(r)
  {
    s.(ds := s.ds.(wrapNext := false))
  }

  function EraseInLine(s: Screen, mode: int): (r: Screen)
    requires Shaped(s)
    ensures Shaped(r)
  {
    if mode == 0 then ClearLine(s, s.ds.row, s.ds.col, s.ds.width - 1)
    else if mode == 1 then ClearLine(s, s.ds.row, 0, s.ds.col)
    else if mode == 2 then ClearRows(s, s.ds.row, s.ds.row + 1)
    else s
  }

  function EraseInDisplay(s: Screen, mode: int): (r: Screen)
    requires Shaped(s)
    ensures Shaped(r)
  {
    if mode == 0 then ClearRows(ClearLine(s, s.ds.row, s.ds.col, s.ds.width - 1), s.ds.row + 1, s.ds.height)
    else if mode == 1 then ClearLine(ClearRows(s, 0, s.ds.row), s.ds.row, 0, s.ds.col)
    else if mode == 2 then ClearRows(s, 0, s.ds.height)
    else s
  }

  function EraseCharacters(s: Screen, num: int): (r: Screen)
    requires Shaped(s)
    ensures Shaped(r)
  {
    var limit := s.ds.col + num - 1;
    ClearLine(s, s.ds.row, s.ds.col, if limit >= s.ds.width then s.ds.width - 1 else limit)
  }

  function CursorTo(s: Screen, row: int, col: int): (r: Screen)
    requires Shaped(s)
    ensures Shaped(r)
  {
    WithState(s, MoveCol(MoveRow(s.ds, row, false), col, false))
  }

  function SetMargins(s: Screen, top: int, bottom: int): (r: Screen)
    requires Shaped(s)
    ensures Shaped(r)
  {
    if bottom <= top || top > s.ds.height || (top == 0 && bottom == 1) then s
    else CursorTo(WithState(s, SetRegion(s.ds, top - 1, bottom - 1)), 0, 0)
  }
}
