/**
 * The functions that control characters, escape sequences and control sequences
 * activate (alfalfa/src/terminal/terminalfunctions.cc), each keeping the screen's shape.
 */
module ControlFunctions {
  import opened Outcomes
  import opened TerminalRenditions
  import opened Screens

  datatype Fn =
    | EL | ED | Up | Down | Forward | Backward | Position | Report | DECALN
    | LF | CR | BS | RI | NEL | HT | HTS | TBC
    | DECSM | DECRM | SM | RM | DECSTBM | BEL | SGR | DECSC | DECRC
    | IL | DL | ICH | DCH | VPA | HPA | ECH | RIS | DECSTR | SD | SU

  // ---------------------------------------------------------------- dispatch tables

  /** Control sequences without a private or intermediate character. */
  function CsiLetter(ch: Char): Option<Fn> {
    if ch == 0x4B then Some(EL)
    else if ch == 0x4A then Some(ED)
    else if ch == 0x41 then Some(Up)
    else if ch == 0x42 then Some(Down)
    else if ch == 0x43 then Some(Forward)
    else if ch == 0x44 then Some(Backward)
    else if ch == 0x48 || ch == 0x66 then Some(Position)
    else if ch == 0x63 || ch == 0x6E then Some(Report)
    else if ch == 0x67 then Some(TBC)
    else if ch == 0x68 then Some(SM)
    else if ch == 0x6C then Some(RM)
    else if ch == 0x72 then Some(DECSTBM)
    else if ch == 0x6D then Some(SGR)
    else if ch == 0x4C then Some(IL)
    else if ch == 0x4D then Some(DL)
    else if ch == 0x40 then Some(ICH)
    else if ch == 0x50 then Some(DCH)
    else if ch == 0x64 then Some(VPA)
    else if ch == 0x47 || ch == 0x60 then Some(HPA)
    else if ch == 0x58 then Some(ECH)
    else if ch == 0x53 then Some(SD)
    else if ch == 0x54 then Some(SU)
    else None
  }

  function CsiMarked(mark: Char, ch: Char): Option<Fn> {
    if mark == 0x3F && ch == 0x68 then Some(DECSM)
    else if mark == 0x3F && ch == 0x6C then Some(DECRM)
    else if mark == 0x3E && ch == 0x63 then Some(Report)
    else if mark == 0x21 && ch == 0x70 then Some(DECSTR)
    else None
  }

  function CsiTable(key: seq<Char>): Option<Fn> {
    if |key| == 1 then CsiLetter(key[0]) else if |key| == 2 then CsiMarked(key[0], key[1]) else None
  }

  function EscapeTable(key: seq<Char>): Option<Fn> {
    if key == [0x23, 0x38] then Some(DECALN)
    else if key == [0x37] then Some(DECSC)
    else if key == [0x38] then Some(DECRC)
    else if key == [0x63] then Some(RIS)
    else None
  }

  function ControlTable(ch: Char): Option<Fn> {
    if ch == 0x0A || ch == 0x84 || ch == 0x0B || ch == 0x0C then Some(LF)
    else if ch == 0x0D then Some(CR)
    else if ch == 0x08 then Some(BS)
    else if ch == 0x8D then Some(RI)
    else if ch == 0x85 then Some(NEL)
    else if ch == 0x09 then Some(HT)
    else if ch == 0x88 then Some(HTS)
    else if ch == 0x07 then Some(BEL)
    else None
  }

  predicate ClearsWrap(f: Fn) {
    f != HT && f != TBC && f != DECSM && f != DECRM && f != SGR
  }

  // ---------------------------------------------------------------- tabs

  function NextTab(tabs: seq<bool>, i: int): (r: int)
    requires 0 <= i
    ensures r == -1 || i <= r < |tabs|
    decreases |tabs| - i
  {
    if i >= |tabs| then -1 else if tabs[i] then i else NextTab(tabs, i + 1)
  }

  function Tab(s: Screen): (r: Screen)
    requires Shaped(s)
    ensures Shaped(r)
  {
    var next := NextTab(s.ds.tabs, s.ds.col + 1);
    var d := MoveCol(s.ds, if next == -1 then s.ds.width - 1 else next, false);
    WithState(s, d.(wrapNext := s.ds.wrapNext))
  }

  function SetTab(s: Screen, col: int, on: bool): (r: Screen)
    requires Shaped(s) && 0 <= col < s.ds.width
    ensures Shaped(r)
  {
    s.(ds := s.ds.(tabs := s.ds.tabs[col := on]))
  }

  function ClearTabs(s: Screen, mode: int): (r: Screen)
    requires Shaped(s)
    ensures Shaped(r)
  {
    if mode == 0 then SetTab(s, s.ds.col, false)
    else if mode == 3 then s.(ds := s.ds.(defaultTabs := false, tabs := seq(s.ds.width, _ => false)))
    else s
  }

  // ---------------------------------------------------------------- modes

  function SetDecMode(s: Screen, mode: int, on: bool): (r: Screen)
    requires Shaped(s)
    ensures Shaped(r)
  {
    if mode == 1 then s.(ds := s.ds.(appKeys := on))
    else if mode == 3 then var s1 := CursorTo(s, 0, 0); ClearRows(s1, 0, s1.ds.height)
    else if mode == 5 then s.(ds := s.ds.(reverse := on))
    else if mode == 6 then var s1 := CursorTo(s, 0, 0); s1.(ds := s1.ds.(origin := on))
    else if mode == 7 then s.(ds := s.ds.(autoWrap := on))
    else if mode == 25 then s.(ds := s.ds.(visible := on))
    else s
  }

  function SetDecModes(s: Screen, params: seq<int>, n: nat, on: bool): (r: Screen)
    requires Shaped(s)
    ensures Shaped(r)
  {
    if n == 0 then s else SetDecMode(SetDecModes(s, params, n - 1, on), Param(params, n - 1, 0), on)
  }

  function SetAnsiModes(s: Screen, params: seq<int>, n: nat, on: bool): (r: Screen)
    requires Shaped(s)
    ensures Shaped(r)
  {
    if n == 0 then s else
      var s1 := SetAnsiModes(s, params, n - 1, on);
      if Param(params, n - 1, 0) == 4 then s1.(ds := s1.ds.(insert := on)) else s1
  }

  // ---------------------------------------------------------------- saving and resetting

  function Save(s: Screen): (r: Screen)
    requires Shaped(s)
    ensures Shaped(r)
  {
    s.(ds := s.ds.(save := SavedCursor(s.ds.col, s.ds.row, s.ds.renditions, s.ds.autoWrap, s.ds.origin)))
  }

  function Restore(s: Screen): (r: Screen)
    requires Shaped(s)
    ensures Shaped(r)
  {
    var v := s.ds.save;
    var d := s.ds.(col := v.col, row := v.row, renditions := v.renditions, autoWrap := v.autoWrap, origin := v.origin);
    WithState(s, NewGrapheme(Snap(d)))
  }

  function InitialSave(): SavedCursor {
    SavedCursor(0, 0, Plain(0), true, false)
  }

  function InitialState(width: int, height: int): (d: DrawState)
    requires 0 < width && 0 < height
    ensures StateOk(d) && d.width == width && d.height == height
  {
    DrawState(width, height, 0, 0, 0, 0, true, seq(width, i => i % 8 == 0), 0, height - 1, Plain(0), InitialSave(),
              false, false, true, false, true, false, false)
  }

  function BlankRows(width: nat, height: nat, background: int): (rows: seq<Row>)
    ensures RowsOk(rows, width, height)
  {
    var blank := BlankRow(width, background);
    seq(height, _ => blank)
  }

  function InitialScreen(width: int, height: int): (s: Screen)
    requires 0 < width && 0 < height
    ensures Shaped(s)
  {
    Screen(BlankRows(width, height, 0), InitialState(width, height), [], [], 0)
  }

  function Reset(s: Screen): (r: Screen)
    requires Shaped(s)
    ensures Shaped(r)
  {
    Screen(BlankRows(s.ds.width, s.ds.height, 0), InitialState(s.ds.width, s.ds.height), s.icon, [], s.bells)
  }

  function SoftReset(s: Screen): (r: Screen)
    requires Shaped(s)
    ensures Shaped(r)
  {
    var d := s.ds.(insert := false, origin := false, visible := true, appKeys := false);
    var e := SetRegion(d, 0, d.height - 1);
    s.(ds := e.(renditions := SetRendition(e.renditions, 0), save := InitialSave()))
  }

  // ---------------------------------------------------------------- lines and characters

  function InsertLines(s: Screen, n: nat): (r: Screen)
    requires Shaped(s)
    ensures Shaped(r) && r.ds == s.ds
  {
    if n == 0 then s else InsertLine(InsertLines(s, n - 1), s.ds.row)
  }

  function DeleteLines(s: Screen, n: nat): (r: Screen)
    requires Shaped(s)
    ensures Shaped(r) && r.ds == s.ds
  {
    if n == 0 then s else DeleteLine(DeleteLines(s, n - 1), s.ds.row)
  }

  function InsertCells(s: Screen, n: nat): (r: Screen)
    requires Shaped(s)
    ensures Shaped(r) && r.ds == s.ds
  {
    if n == 0 then s else InsertCell(InsertCells(s, n - 1), s.ds.row, s.ds.col)
  }

  function DeleteCells(s: Screen, n: nat): (r: Screen)
    requires Shaped(s)
    ensures Shaped(r) && r.ds == s.ds
  {
    if n == 0 then s else DeleteCell(DeleteCells(s, n - 1), s.ds.row, s.ds.col)
  }

  function Alignment(s: Screen): (r: Screen)
    requires Shaped(s)
    ensures Shaped(r)
  {
    var full := seq(s.ds.width, _ => Blank(s.ds.renditions.background).(contents := [0x45]));
    s.(rows := seq(s.ds.height, _ => full))
  }

  /** A parameter with a positive default. */
  function Count(params: seq<int>, n: nat): (r: int)
    ensures 0 < r
  {
    Param(params, n, 1)
  }

  // ---------------------------------------------------------------- all of them

  function DownBy(s: Screen, rows: int): (r: Screen)
    requires Shaped(s)
    ensures Shaped(r)
  {
    WithState(s, MoveRow(s.ds, rows, true))
  }

  function RightBy(s: Screen, cols: int): (r: Screen)
    requires Shaped(s)
    ensures Shaped(r)
  {
    WithState(s, MoveCol(s.ds, cols, true))
  }

  function ToColumn(s: Screen, col: int): (r: Screen)
    requires Shaped(s)
    ensures Shaped(r)
  {
    WithState(s, MoveCol(s.ds, col, false))
  }

  function PerformControl(s: Screen, f: Fn): (r: Screen)
    requires Shaped(s)
    ensures Shaped(r)
  {
    match f
    case LF => AutoScroll(s, 1)
    case CR => ToColumn(s, 0)
    case BS => RightBy(s, -1)
    case RI => AutoScroll(s, -1)
    case NEL => AutoScroll(ToColumn(s, 0), 1)
    case HT => Tab(s)
    case HTS => SetTab(s, s.ds.col, true)
    case BEL => s.(bells := s.bells + 1)
    case DECALN => Alignment(s)
    case DECSC => Save(s)
    case DECRC => Restore(s)
    case RIS => Reset(s)
    case _ => s
  }

  function PerformModes(s: Screen, f: Fn, p: seq<int>): (r: Screen)
    requires Shaped(s)
    ensures Shaped(r)
  {
    match f
    case TBC => ClearTabs(s, Param(p, 0, 0))
    case DECSM => SetDecModes(s, p, |p|, true)
    case DECRM => SetDecModes(s, p, |p|, false)
    case SM => SetAnsiModes(s, p, |p|, true)
    case RM => SetAnsiModes(s, p, |p|, false)
    case DECSTBM => SetMargins(s, Param(p, 0, 1), Param(p, 1, s.ds.height))
    case SGR => s.(ds := s.ds.(renditions := ApplySgr(s.ds.renditions, p)))
    case DECSTR => SoftReset(s)
    case _ => PerformControl(s, f)
  }

  /** What the function does to the screen, given the parameters of its sequence. */
  function Perform(s: Screen, f: Fn, p: seq<int>): (r: Screen)
    requires Shaped(s)
    ensures Shaped(r)
  {
    match f
    case EL => EraseInLine(s, Param(p, 0, 0))
    case ED => EraseInDisplay(s, Param(p, 0, 0))
    case Up => DownBy(s, -Count(p, 0))
    case Down => DownBy(s, Count(p, 0))
    case Forward => RightBy(s, Count(p, 0))
    case Backward => RightBy(s, -Count(p, 0))
    case Position => CursorTo(s, Count(p, 0) - 1, Count(p, 1) - 1)
    case Report => s
    case IL => ToColumn(InsertLines(s, Count(p, 0)), 0)
    case DL => ToColumn(DeleteLines(s, Count(p, 0)), 0)
    case ICH => InsertCells(s, Count(p, 0))
    case DCH => DeleteCells(s, Count(p, 0))
    case VPA => WithState(s, MoveRow(s.ds, Count(p, 0) - 1, false))
    case HPA => ToColumn(s, Count(p, 0) - 1)
    case ECH => EraseCharacters(s, Count(p, 0))
    case SD => Scroll(s, Count(p, 0))
    case SU => Scroll(s, -Count(p, 0))
    case _ => PerformModes(s, f, p)
  }

  /** Dispatch: an unknown function only cancels a pending wrap. */
  function Dispatch(s: Screen, f: Option<Fn>, p: seq<int>): (r: Screen)
    requires Shaped(s)
    ensures Shaped(r)
  {
    match f
    case None => CancelWrap(s)
    case Some(g) => Perform(if ClearsWrap(g) then CancelWrap(s) else s, g, p)
  }

  // ---------------------------------------------------------------- resizing

  /** A row of another length: cut, or filled with blanks; it no longer wraps. */
  function ResizedRow(row: Row, width: nat, background: int): (r: Row)
    requires 0 < |row|
    ensures |r| == width
  {
    var unwrapped := row[|row| - 1 := row[|row| - 1].(wrap := false)];
    if width <= |row| then unwrapped[..width] else unwrapped + BlankRow(width - |row|, background)
  }

  function RowForResize(s: Screen, i: nat): (r: Row)
    requires Shaped(s)
    ensures |r| == s.ds.width
  {
    if i < |s.rows| then s.rows[i] else NewRow(s)
  }

  function ResizedRows(s: Screen, width: int, height: int): (r: seq<Row>)
    requires Shaped(s) && 0 < width && 0 < height
    ensures RowsOk(r, width, height)
  {
    seq(height, i requires 0 <= i < height => ResizedRow(RowForResize(s, i), width, s.ds.renditions.background))
  }

  function ResizedTabs(tabs: seq<bool>, width: nat, defaults: bool): (r: seq<bool>)
    ensures |r| == width
  {
    seq(width, i requires 0 <= i < width => if i < |tabs| then tabs[i] else defaults && i % 8 == 0)
  }

  function ResizedState(d: DrawState, width: int, height: int): (r: DrawState)
    requires StateOk(d) && 0 < width && 0 < height
    ensures StateOk(r) && r.width == width && r.height == height
  {
    var same := d.width == width && d.height == height;
    var e := d.(top := if same then d.top else 0, bottom := if same then d.bottom else height - 1,
                tabs := ResizedTabs(d.tabs, width, d.defaultTabs), width := width, height := height);
    var g := Snap(e);
    if g.combiningCol >= width || g.combiningRow >= height then g.(combiningCol := -1, combiningRow := -1) else g
  }

  function Resize(s: Screen, width: int, height: int): (r: Screen)
    requires Shaped(s) && 0 < width && 0 < height
    ensures Shaped(r)
  {
    s.(rows := ResizedRows(s, width, height), ds := ResizedState(s.ds, width, height))
  }
}
