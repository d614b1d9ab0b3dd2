/**
 * The control functions a display sends to a terminal, and what a terminal in its
 * default modes makes of each.
 */
module DisplayOps {
  import opened TerminalRenditions
  import opened Screens

  /** The columns of a character, as `wcwidth` gives them. */
  type Columns = w: int | -1 <= w <= 2

  datatype Op =
    | Bell
    | Reverse(on: bool)
    | Show(on: bool)
    | Margins(first: int, last: int)
    | Sgr(params: seq<int>)
    | Home
    | MoveTo(line: int, column: int)
    | ClearScreen
    | LineFeed
    | EraseLine
    | EraseChars(count: int)
    | Put(ch: Char)

  function WidthOf(wc: Char -> Columns, ch: Char): Columns {
    if ch == 0 then -1 else wc(ch)
  }

  /** The dispatch of one control function or character; lines and columns count from 1. */
  function Apply(wc: Char -> Columns, s: Screen, op: Op): (r: Screen)
    requires Shaped(s)
    ensures Shaped(r)
  {
    match op
    case Bell => var s1 := CancelWrap(s); s1.(bells := s1.bells + 1)
    case Reverse(on) => s.(ds := s.ds.(reverse := on))
    case Show(on) => s.(ds := s.ds.(visible := on))
    case Margins(first, last) => SetMargins(CancelWrap(s), first, last)
    case Sgr(params) => s.(ds := s.ds.(renditions := ApplySgr(s.ds.renditions, params)))
    case Home => CursorTo(CancelWrap(s), 0, 0)
    case MoveTo(line, column) => CursorTo(CancelWrap(s), line - 1, column - 1)
    case ClearScreen => EraseInDisplay(CancelWrap(s), 2)
    case LineFeed => AutoScroll(CancelWrap(s), 1)
    case EraseLine => EraseInLine(CancelWrap(s), 0)
    case EraseChars(count) => EraseCharacters(CancelWrap(s), count)
    case Put(ch) => Print(s, ch, WidthOf(wc, ch))
  }

  function Run(wc: Char -> Columns, s: Screen, ops: seq<Op>): (r: Screen)
    requires Shaped(s)
    ensures Shaped(r)
  {
    if ops == [] then s else Apply(wc, Run(wc, s, ops[..|ops| - 1]), ops[|ops| - 1])
  }

  /** The operation prints a character that fails an assertion. */
  predicate OpStops(wc: Char -> Columns, s: Screen, op: Op)
    requires Shaped(s)
  {
    op.Put? && PrintStops(s, WidthOf(wc, op.ch))
  }

  /** No operation of the run does. */
  predicate Clean(wc: Char -> Columns, s: Screen, ops: seq<Op>)
    requires Shaped(s)
  {
    ops == [] ||
    (Clean(wc, s, ops[..|ops| - 1]) && !OpStops(wc, Run(wc, s, ops[..|ops| - 1]), ops[|ops| - 1]))
  }

  lemma CleanNext(wc: Char -> Columns, s: Screen, ops: seq<Op>, op: Op)
    requires Shaped(s)
    ensures Clean(wc, s, ops + [op]) <==> Clean(wc, s, ops) && !OpStops(wc, Run(wc, s, ops), op)
  {
    hide OpStops, Run;
    assert (ops + [op])[..|ops|] == ops;
  }

  lemma RunNext(wc: Char -> Columns, s: Screen, ops: seq<Op>, op: Op)
    requires Shaped(s)
    ensures Run(wc, s, ops + [op]) == Apply(wc, Run(wc, s, ops), op)
  {
    hide Apply, Shaped;
    assert (ops + [op])[..|ops|] == ops;
  }

  // ---------------------------------------------------------------- default modes

  predicate DefaultModes(d: DrawState) {
    !d.origin && d.autoWrap && !d.insert
  }

  predicate FullRegion(d: DrawState) {
    d.top == 0 && d.bottom == d.height - 1
  }

  /** A terminal of the given size in its default modes. */
  predicate Ready(s: Screen, w: int, h: int) {
    Shaped(s) && s.ds.width == w && s.ds.height == h && DefaultModes(s.ds)
  }

  /** What matters of a terminal in its default modes. */
  datatype View = View(rows: seq<Row>, row: int, col: int, wrapNext: bool, renditions: Renditions,
                       visible: bool, reverse: bool)

  function ViewOf(s: Screen): View {
    View(s.rows, s.ds.row, s.ds.col, s.ds.wrapNext, s.ds.renditions, s.ds.visible, s.ds.reverse)
  }

  lemma ApplyBell(wc: Char -> Columns, s: Screen, w: int, h: int)
    requires Ready(s, w, h)
    ensures var r := Apply(wc, s, Bell);
      && Ready(r, w, h) && r.ds.top == s.ds.top && r.ds.bottom == s.ds.bottom
      && ViewOf(r) == ViewOf(s).(wrapNext := false)
  {
  }

  lemma ApplyReverse(wc: Char -> Columns, s: Screen, w: int, h: int, on: bool)
    requires Ready(s, w, h)
    ensures var r := Apply(wc, s, Reverse(on));
      && Ready(r, w, h) && r.ds.top == s.ds.top && r.ds.bottom == s.ds.bottom
      && ViewOf(r) == ViewOf(s).(reverse := on)
  {
  }

  lemma ApplyShow(wc: Char -> Columns, s: Screen, w: int, h: int, on: bool)
    requires Ready(s, w, h)
    ensures var r := Apply(wc, s, Show(on));
      && Ready(r, w, h) && r.ds.top == s.ds.top && r.ds.bottom == s.ds.bottom
      && ViewOf(r) == ViewOf(s).(visible := on)
  {
  }

  lemma ApplyParams(wc: Char -> Columns, s: Screen, w: int, h: int, params: seq<int>)
    requires Ready(s, w, h)
    ensures var r := Apply(wc, s, Sgr(params));
      && Ready(r, w, h) && r.ds.top == s.ds.top && r.ds.bottom == s.ds.bottom
      && ViewOf(r) == ViewOf(s).(renditions := ApplySgr(s.ds.renditions, params))
  {
    hide ApplySgr;
  }

  lemma ApplyMoveTo(wc: Char -> Columns, s: Screen, w: int, h: int, row: int, col: int)
    requires Ready(s, w, h) && 0 <= row < h && 0 <= col < w
    ensures var r := Apply(wc, s, MoveTo(row + 1, col + 1));
      && Ready(r, w, h) && r.ds.top == s.ds.top && r.ds.bottom == s.ds.bottom
      && ViewOf(r) == ViewOf(s).(row := row, col := col, wrapNext := false)
  {
  }

  lemma ApplyHome(wc: Char -> Columns, s: Screen, w: int, h: int)
    requires Ready(s, w, h)
    ensures var r := Apply(wc, s, Home);
      && Ready(r, w, h) && r.ds.top == s.ds.top && r.ds.bottom == s.ds.bottom
      && ViewOf(r) == ViewOf(s).(row := 0, col := 0, wrapNext := false)
  {
  }

  lemma ApplyClearScreen(wc: Char -> Columns, s: Screen, w: int, h: int)
    requires Ready(s, w, h)
    ensures var r := Apply(wc, s, ClearScreen);
      && Ready(r, w, h) && r.ds.top == s.ds.top && r.ds.bottom == s.ds.bottom
      && ViewOf(r) == ViewOf(s).(rows := r.rows, wrapNext := false)
  {
  }

  lemma ApplyEraseLine(wc: Char -> Columns, s: Screen, w: int, h: int)
    requires Ready(s, w, h)
    ensures var r := Apply(wc, s, EraseLine);
      && Ready(r, w, h) && r.ds.top == s.ds.top && r.ds.bottom == s.ds.bottom
      && ViewOf(r) == ViewOf(s).(wrapNext := false,
           rows := s.rows[s.ds.row := Cleared(s.rows[s.ds.row], s.ds.col, w - 1, s.ds.renditions.background)])
  {
    hide Cleared;
  }

  lemma ApplyEraseChars(wc: Char -> Columns, s: Screen, w: int, h: int, count: int)
    requires Ready(s, w, h) && s.ds.col + count <= w
    ensures var r := Apply(wc, s, EraseChars(count));
      && Ready(r, w, h) && r.ds.top == s.ds.top && r.ds.bottom == s.ds.bottom
      && ViewOf(r) == ViewOf(s).(wrapNext := false,
           rows := s.rows[s.ds.row :=
             Cleared(s.rows[s.ds.row], s.ds.col, s.ds.col + count - 1, s.ds.renditions.background)])
  {
    hide Cleared;
  }

  /** Printing a narrow character where the cursor stands. */
  lemma ApplyPut(wc: Char -> Columns, s: Screen, w: int, h: int, ch: Char)
    requires Ready(s, w, h) && !s.ds.wrapNext && WidthOf(wc, ch) == 1
    ensures var r := Apply(wc, s, Put(ch));
      && Ready(r, w, h) && r.ds.top == s.ds.top && r.ds.bottom == s.ds.bottom
      && r.ds.combiningRow == s.ds.row && r.ds.combiningCol == s.ds.col
      && ViewOf(r) == ViewOf(s).(
           rows := s.rows[s.ds.row := s.rows[s.ds.row][s.ds.col := Cell([ch], false, 1, s.ds.renditions, false)]],
           col := if s.ds.col + 1 < w then s.ds.col + 1 else s.ds.col, wrapNext := s.ds.col + 1 >= w)
  {
  }

  /** A combining character joins a cell that has contents and room. */
  lemma ApplyCombining(wc: Char -> Columns, s: Screen, w: int, h: int, ch: Char)
    requires Ready(s, w, h) && WidthOf(wc, ch) == 0
    requires CombiningOnScreen(s.ds)
    requires 0 < |s.rows[s.ds.combiningRow][s.ds.combiningCol].contents| < 16
    ensures var r := Apply(wc, s, Put(ch));
      var row, col := s.ds.combiningRow, s.ds.combiningCol;
      var cell := s.rows[row][col];
      && Ready(r, w, h) && r.ds.top == s.ds.top && r.ds.bottom == s.ds.bottom
      && r.ds.combiningRow == row && r.ds.combiningCol == col
      && ViewOf(r) == ViewOf(s).(rows := s.rows[row := s.rows[row][col := cell.(contents := cell.contents + [ch])]])
  {
  }

  lemma ApplyMargins(wc: Char -> Columns, s: Screen, w: int, h: int, last: int)
    requires Ready(s, w, h) && 1 < last <= h
    ensures var r := Apply(wc, s, Margins(1, last));
      && Ready(r, w, h) && r.ds.top == 0 && r.ds.bottom == last - 1
      && ViewOf(r) == ViewOf(s).(row := 0, col := 0, wrapNext := false)
  {
  }

  /** On a single line there is no other region. */
  lemma ApplyMarginsOne(wc: Char -> Columns, s: Screen, w: int)
    requires Ready(s, w, 1)
    ensures var r := Apply(wc, s, Margins(1, 1));
      && Ready(r, w, 1) && FullRegion(r.ds)
      && ViewOf(r) == ViewOf(s).(wrapNext := false)
  {
  }

  /** A line feed at the bottom of a region that starts at the top scrolls it by one line. */
  lemma ApplyLineFeed(wc: Char -> Columns, s: Screen, w: int, h: int)
    requires Ready(s, w, h) && s.ds.top == 0 && s.ds.row == s.ds.bottom && 0 < s.ds.bottom
    ensures var r := Apply(wc, s, LineFeed);
      && Ready(r, w, h) && r.ds.top == s.ds.top && r.ds.bottom == s.ds.bottom
      && ViewOf(r) == ViewOf(s).(wrapNext := false,
           rows := s.rows[1..s.ds.bottom + 1] + [BlankRow(w, s.ds.renditions.background)] + s.rows[s.ds.bottom + 1..])
  {
    hide Apply, DeleteLine, MoveRow;
    var s0 := CancelWrap(s);
    assert Apply(wc, s, LineFeed) == AutoScroll(s0, 1) by { LineFeedScrolls(wc, s); }
    var s1 := DeleteLine(s0, 0);
    DeleteTop(s0);
    var d1 := MoveRow(s1.ds, -1, true);
    UpAndDown(s1.ds);
    assert ScrollUp(s0, 0) == s0;
    assert ScrollUp(s0, 1) == WithState(s1, d1);
  }

  lemma LineFeedScrolls(wc: Char -> Columns, s: Screen)
    requires Shaped(s)
    ensures Apply(wc, s, LineFeed) == AutoScroll(CancelWrap(s), 1)
  {
  }

  lemma DeleteTop(s: Screen)
    requires Shaped(s) && s.ds.top == 0
    ensures DeleteLine(s, 0) == s.(rows := s.rows[1..s.ds.bottom + 1] + [NewRow(s)] + s.rows[s.ds.bottom + 1..])
  {
  }

  lemma UpAndDown(d: DrawState)
    requires StateOk(d) && !d.origin && 0 < d.row
    ensures var u := MoveRow(d, -1, true);
      var e := MoveRow(u, 1, true);
      && e == d.(combiningRow := d.row, combiningCol := d.col, wrapNext := false)
  {
  }
}
