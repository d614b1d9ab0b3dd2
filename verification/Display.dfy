/**
 * Turning a new frame into control functions for a terminal that shows the last
 * one (alfalfa/src/terminal/terminaldisplay.cc). While the operations are emitted
 * the state of the terminal that runs them is followed alongside.
 */
module Displays {
  import opened TerminalRenditions
  import opened Screens
  import opened DisplayOps
  import opened Dispatchers
  import opened Emulators
  import opened TerminalParser
  import opened Outcomes
  import opened DisplayText

  /** What the terminal is known to support. */
  datatype Display = Display(hasEch: bool, hasBce: bool)

  // ---------------------------------------------------------------- frames

  predicate BlankContents(contents: seq<Char>) {
    contents == [] || contents == [0x20] || contents == [0xA0]
  }

  /** The cell shown is the one wanted; unless exact, blank contents may differ. */
  predicate Looks(exact: bool, shown: Cell, want: Cell) {
    || shown == want
    || (&& !exact && BlankContents(shown.contents) && BlankContents(want.contents)
        && shown.(contents := want.contents) == want)
  }

  predicate CombiningOnly(wc: Char -> Columns, contents: seq<Char>) {
    forall i | 0 <= i < |contents| :: WidthOf(wc, contents[i]) == 0
  }

  predicate PrintableAll(contents: seq<Char>) {
    forall i | 0 <= i < |contents| :: Printable(contents[i])
  }

  predicate SizeOk(w: int, h: int) {
    w <= PARAM_MAX && h <= PARAM_MAX
  }

  /** A cell of one column, with no wrap, that starts with a spacing character or carries only a background. */
  predicate Narrow(wc: Char -> Columns, cell: Cell) {
    && cell.width == 1 && !cell.fallback && !cell.wrap
    && Valid(cell.renditions)
    && |cell.contents| <= 16
    && PrintableAll(cell.contents)
    && if cell.contents == [] then cell.renditions == Plain(cell.renditions.background)
       else WidthOf(wc, cell.contents[0]) == 1 && CombiningOnly(wc, cell.contents[1..])
  }

  predicate NarrowRows(wc: Char -> Columns, rows: seq<Row>) {
    forall r, c | 0 <= r < |rows| && 0 <= c < |rows[r]| :: Narrow(wc, rows[r][c])
  }

  /** A frame the display can reproduce. */
  predicate FrameOk(wc: Char -> Columns, f: Screen) {
    Shaped(f) && SizeOk(f.ds.width, f.ds.height) && NarrowRows(wc, f.rows) && Valid(f.ds.renditions)
  }

  predicate Before(r: int, c: int, y: int, x: int) {
    r < y || (r == y && c < x)
  }

  /** The cells before (y, x) show the new frame. */
  predicate Drawn(exact: bool, shown: seq<Row>, want: seq<Row>, w: int, h: int, y: int, x: int)
    requires RowsOk(shown, w, h) && RowsOk(want, w, h)
  {
    forall r, c | 0 <= r < h && 0 <= c < w && Before(r, c, y, x) :: Looks(exact, shown[r][c], want[r][c])
  }

  /** The cells from (y, x) on show the last frame. */
  predicate Kept(exact: bool, shown: seq<Row>, last: seq<Row>, w: int, h: int, y: int, x: int)
    requires RowsOk(shown, w, h) && RowsOk(last, w, h)
  {
    forall r, c | 0 <= r < h && 0 <= c < w && !Before(r, c, y, x) :: Looks(exact, shown[r][c], last[r][c])
  }

  /** The known cursor: unknown, past the last column with the wrap still to come, or where it is. */
  predicate CursorKnown(cx: int, cy: int, w: int, row: int, col: int, wrapNext: bool) {
    || (cx == -1 && cy == -1)
    || (cx == w && cy == row)
    || (0 <= cx < w && cx == col && cy == row && !wrapNext)
  }

  /** Row y changes only in columns x up to x1, where it comes to show the new frame. */
  predicate RowChange(exact: bool, old_: Row, new_: Row, want: Row, x: int, x1: int)
    requires |old_| == |new_| == |want|
  {
    && (forall c | 0 <= c < |old_| && !(x <= c < x1) :: new_[c] == old_[c])
    && (forall c | 0 <= c < |old_| && x <= c < x1 :: Looks(exact, new_[c], want[c]))
  }

  lemma RowDraws(exact: bool, shown: seq<Row>, row: Row, want: seq<Row>, w: int, h: int, y: int, x: int, x1: int)
    requires RowsOk(shown, w, h) && RowsOk(want, w, h) && 0 <= y < h && |row| == w && x <= x1
    requires RowChange(exact, shown[y], row, want[y], x, x1)
    requires Drawn(exact, shown, want, w, h, y, x)
    ensures RowsOk(shown[y := row], w, h)
    ensures Drawn(exact, shown[y := row], want, w, h, y, x1)
  {
    hide Looks;
  }

  lemma RowKeeps(exact: bool, shown: seq<Row>, row: Row, want: Row, last: seq<Row>, w: int, h: int, y: int, x: int,
                 x1: int)
    requires RowsOk(shown, w, h) && RowsOk(last, w, h) && 0 <= y < h && |row| == w && |want| == w && x <= x1
    requires RowChange(exact, shown[y], row, want, x, x1)
    requires Kept(exact, shown, last, w, h, y, x)
    ensures RowsOk(shown[y := row], w, h)
    ensures Kept(exact, shown[y := row], last, w, h, y, x1)
  {
    hide Looks;
  }

  /** A cell that is the same in both frames needs no drawing. */
  lemma SkipDraws(exact: bool, shown: seq<Row>, want: seq<Row>, last: seq<Row>, w: int, h: int, y: int, x: int)
    requires RowsOk(shown, w, h) && RowsOk(want, w, h) && RowsOk(last, w, h) && 0 <= y < h && 0 <= x < w
    requires want[y][x] == last[y][x]
    requires Drawn(exact, shown, want, w, h, y, x) && Kept(exact, shown, last, w, h, y, x)
    ensures Drawn(exact, shown, want, w, h, y, x + 1) && Kept(exact, shown, last, w, h, y, x + 1)
  {
    hide Looks;
  }

  lemma NextRow(exact: bool, shown: seq<Row>, want: seq<Row>, w: int, h: int, y: int)
    requires RowsOk(shown, w, h) && RowsOk(want, w, h)
    requires Drawn(exact, shown, want, w, h, y, w)
    ensures Drawn(exact, shown, want, w, h, y + 1, 0)
  {
    hide Looks;
  }

  lemma NextRowKept(exact: bool, shown: seq<Row>, last: seq<Row>, w: int, h: int, y: int)
    requires RowsOk(shown, w, h) && RowsOk(last, w, h)
    requires Kept(exact, shown, last, w, h, y, w)
    ensures Kept(exact, shown, last, w, h, y + 1, 0)
  {
    hide Looks;
  }

  class FrameState {
    var x: int
    var y: int
    var force: bool
    var ops: seq<Op>
    var cursorX: int
    var cursorY: int
    var current: Renditions
    var lastRows: seq<Row>
    var lastVisible: bool

    // The terminal that runs the operations, and what it started from.
    ghost const wc: Char -> Columns
    ghost const start: Screen
    ghost var term: Screen

    // Whether the terminal's cursor was known to be as visible as in the last frame.
    ghost const sure: bool

    constructor (ghost columns: Char -> Columns, ghost terminal: Screen, last: Screen, ghost known: bool)
      requires Shaped(terminal)
      ensures wc == columns && start == terminal && term == terminal && sure == known
      ensures Followed() && !force && ops == []
      ensures lastRows == last.rows && lastVisible == last.ds.visible
    {
      wc, start, term, sure := columns, terminal, terminal, known;
      x, y, force, ops, cursorX, cursorY := 0, 0, false, [], 0, 0;
      current := Plain(0);
      lastRows, lastVisible := last.rows, last.ds.visible;
    }

    ghost predicate Followed()
      reads this`ops, this`term
    {
      Shaped(start) && OpsOk(ops) && Clean(wc, start, ops) && term == Run(wc, start, ops)
    }

    /** The display knows the terminal's renditions and visibility. */
    ghost predicate Tracked(w: int, h: int)
      reads this`ops, this`term, this`current, this`lastVisible
    {
      && Followed()
      && Ready(term, w, h) && SizeOk(w, h)
      && term.ds.renditions == current
      && (sure ==> term.ds.visible == lastVisible)
    }

    /** It knows the cursor too. */
    ghost predicate InStep(w: int, h: int)
      reads this`ops, this`term, this`cursorX, this`cursorY, this`current, this`lastVisible
    {
      && Tracked(w, h)
      && CursorKnown(cursorX, cursorY, w, term.ds.row, term.ds.col, term.ds.wrapNext)
    }

    method Append(op: Op)
      requires Followed() && OpOk(op) && !OpStops(wc, term, op)
      modifies this`ops, this`term
      ensures Followed()
      ensures ops == old(ops) + [op] && term == Apply(wc, old(term), op)
    {
      hide Apply, Shaped, OpOk, OpStops;
      RunNext(wc, start, ops, op);
      CleanNext(wc, start, ops, op);
      ops := ops + [op];
      term := Apply(wc, term, op);
    }

    method SilentMove(row: int, col: int, ghost w: int, ghost h: int)
      requires Tracked(w, h) && 0 <= row < h && 0 <= col < w
      modifies this`ops, this`term, this`cursorX, this`cursorY, this`lastVisible
      ensures InStep(w, h)
      ensures cursorX == col && cursorY == row
      ensures term.rows == old(term.rows) && term.ds.reverse == old(term.ds.reverse)
      ensures term.ds.top == old(term.ds.top) && term.ds.bottom == old(term.ds.bottom)
    {
      hide Apply, Shaped, Run, Clean, PrintStops;
      if lastVisible {
        ApplyShow(wc, term, w, h, false);
        Append(Show(false));
        lastVisible := false;
      }
      ApplyMoveTo(wc, term, w, h, row, col);
      Append(MoveTo(row + 1, col + 1));
      cursorX, cursorY := col, row;
    }

    method Select(r: Renditions, ghost w: int, ghost h: int)
      requires InStep(w, h) && Valid(r)
      modifies this`ops, this`term, this`current
      ensures InStep(w, h)
      ensures current == r
      ensures term.rows == old(term.rows) && term.ds.reverse == old(term.ds.reverse)
      ensures term.ds.top == old(term.ds.top) && term.ds.bottom == old(term.ds.bottom)
      ensures ViewOf(term) == ViewOf(old(term)).(renditions := r)
    {
      hide Apply, Shaped, Run, Clean, PrintStops, ApplySgr, TerminalRenditions.Sgr, ApplyAll;
      var sequences := TerminalRenditions.Sgr(r);
      var i := 0;
      ghost var r0 := term.ds.renditions;
      assert ApplyAll(r0, sequences[..0]) == r0 by { NoSequence(r0, sequences[..0]); }
      while i < |sequences|
        invariant 0 <= i <= |sequences|
        invariant Followed() && Ready(term, w, h)
        invariant term.ds.top == old(term.ds.top) && term.ds.bottom == old(term.ds.bottom)
        invariant ViewOf(term) == ViewOf(old(term)).(renditions := ApplyAll(r0, sequences[..i]))
      {
        ApplyParams(wc, term, w, h, sequences[i]);
        SgrIsShort(r, i);
        LastSequence(r0, sequences[..i], sequences[i]);
        assert sequences[..i + 1] == sequences[..i] + [sequences[i]];
        Append(Op.Sgr(sequences[i]));
        i := i + 1;
      }
      assert sequences[..i] == sequences;
      SgrRoundTrip(r0, r);
      current := r;
    }

    /** The cells before (row, col) are drawn, and where keeps holds the rest still shows what was behind it. */
    ghost predicate DrawnTo(exact: bool, keeps: bool, behind: seq<Row>, f: Screen, row: int, col: int)
      reads this`ops, this`term, this`cursorX, this`cursorY, this`current, this`lastVisible
    {
      var w, h := f.ds.width, f.ds.height;
      && InStep(w, h) && FullRegion(term.ds)
      && RowsOk(f.rows, w, h)
      && Drawn(exact, term.rows, f.rows, w, h, row, col)
      && (keeps ==> RowsOk(behind, w, h) && Kept(exact, term.rows, behind, w, h, row, col))
    }

    ghost predicate Progress(exact: bool, keeps: bool, behind: seq<Row>, f: Screen)
      reads this`x, this`y, this`ops, this`term, this`cursorX, this`cursorY, this`current, this`lastVisible
    {
      DrawnTo(exact, keeps, behind, f, y, x)
    }

    /** At the cell to be put, with its renditions selected. */
    ghost predicate AtCell(f: Screen)
      reads this`x, this`y, this`cursorX, this`cursorY, this`current
    {
      && RowsOk(f.rows, f.ds.width, f.ds.height)
      && 0 <= y < f.ds.height && 0 <= x < f.ds.width
      && cursorX == x && cursorY == y && current == f.rows[y][x].renditions
    }

    /** The row at y changed where new cells were drawn; the position moves past them. */
    lemma Redraws(exact: bool, keeps: bool, behind: seq<Row>, f: Screen, shown: seq<Row>, row: Row, x1: int)
      requires Progress(exact, keeps, behind, f)
      requires 0 <= y < f.ds.height && x <= x1 && |row| == f.ds.width && shown == term.rows[y := row]
      requires RowChange(exact, term.rows[y], row, f.rows[y], x, x1)
      ensures RowsOk(shown, f.ds.width, f.ds.height)
      ensures Drawn(exact, shown, f.rows, f.ds.width, f.ds.height, y, x1)
      ensures keeps ==> Kept(exact, shown, behind, f.ds.width, f.ds.height, y, x1)
    {
      hide Drawn, Kept, RowChange, Run, Clean, PrintStops, CursorKnown;
      var w, h := f.ds.width, f.ds.height;
      RowDraws(exact, term.rows, row, f.rows, w, h, y, x, x1);
      if keeps {
        RowKeeps(exact, term.rows, row, f.rows[y], behind, w, h, y, x, x1);
      }
    }

    method PutSpace(f: Screen, ghost exact: bool, ghost keeps: bool, ghost behind: seq<Row>)
      requires FrameOk(wc, f) && Progress(exact, keeps, behind, f) && AtCell(f)
      requires f.rows[y][x].contents == [] && !exact && WidthOf(wc, 0x20) == 1
      modifies this`x, this`cursorX, this`ops, this`term
      ensures x == old(x) + 1 && Progress(exact, keeps, behind, f)
      ensures HasContents(term.rows, y, old(x), [0x20])
      ensures term.ds.reverse == old(term.ds.reverse)
    {
      hide Apply, Run, Clean, PrintStops, Drawn, Kept, NarrowRows, Narrow, RowChange, Looks, HasContents;
      ghost var w, h := f.ds.width, f.ds.height;
      ApplyPut(wc, term, w, h, 0x20);
      SpacingGoesOn(wc, term, 0x20);
      ghost var row := term.rows[y][x := Cell([0x20], false, 1, current, false)];
      CellIsNarrow(wc, f.rows, y, x);
      SpaceChanges(wc, term.rows[y], f.rows[y], x);
      CellHasContents(term.rows, y, x, row);
      Redraws(exact, keeps, behind, f, term.rows[y := row], row, x + 1);
      Append(Op.Put(0x20));
      cursorX := cursorX + 1;
      x := x + 1;
    }

    /** How far an erase that starts here may reach. */
    method ClearCount(f: Screen) returns (count: nat)
      requires Shaped(f) && 0 <= y < f.ds.height && 0 <= x < f.ds.width
      requires f.rows[y][x].contents == []
      ensures 0 < count && x + count <= f.ds.width
      ensures EmptyRun(f.rows[y], x, x + count)
      ensures x + count < f.ds.width ==> !EmptyRun(f.rows[y], x, x + count + 1)
    {
      var cell := f.rows[y][x];
      count := 0;
      var col := x;
      while col < f.ds.width
        invariant x <= col <= f.ds.width && count == col - x
        invariant EmptyRun(f.rows[y], x, col)
      {
        var other := f.rows[y][col];
        if cell.renditions == other.renditions && other.contents == [] {
          count := count + 1;
        } else {
          break;
        }
        col := col + 1;
      }
    }

    /** Erase the run of count cells, to the end of the line when it reaches that far. */
    method Erase(f: Screen, count: nat, ghost exact: bool, ghost keeps: bool, ghost behind: seq<Row>)
      requires FrameOk(wc, f) && Progress(exact, keeps, behind, f) && AtCell(f)
      requires 0 < count && x + count <= f.ds.width && EmptyRun(f.rows[y], x, x + count)
      modifies this`x, this`ops, this`term
      ensures x == old(x) + count && Progress(exact, keeps, behind, f)
      ensures HasContents(term.rows, y, old(x), [])
      ensures term.ds.reverse == old(term.ds.reverse)
    {
      hide Apply, Run, Clean, PrintStops, Drawn, Kept, NarrowRows, Narrow, RowChange, Looks, EmptyRun, Cleared,
        HasContents;
      ghost var w, h := f.ds.width, f.ds.height;
      ghost var row := Cleared(term.rows[y], x, x + count - 1, current.background);
      EraseChanges(wc, exact, term.rows[y], f.rows, y, x, x + count);
      ErasedHasNone(term.rows, y, x, x + count - 1, current.background);
      Redraws(exact, keeps, behind, f, term.rows[y := row], row, x + count);
      AppendErase(count, f.ds.width, h);
      x := x + count;
    }

    /** The erase itself: to the end of the line if that is how far it goes. */
    method AppendErase(count: nat, w: int, ghost h: int)
      requires InStep(w, h) && FullRegion(term.ds) && 0 < count && 0 <= x && x + count <= w && 0 <= y < h
      requires cursorX == x && cursorY == y
      modifies this`ops, this`term
      ensures InStep(w, h) && FullRegion(term.ds) && RowsOk(old(term.rows), w, h)
      ensures term.rows == old(term.rows)[y := Cleared(old(term.rows)[y], x, x + count - 1, current.background)]
      ensures term.ds.reverse == old(term.ds.reverse)
    {
      hide Apply, Run, Clean, PrintStops, Cleared;
      if x + count == w {
        ApplyEraseLine(wc, term, w, h);
        Append(EraseLine);
      } else {
        ApplyEraseChars(wc, term, w, h, count);
        Append(EraseChars(count));
      }
    }

    /** The characters of a cell: a spacing one and those that combine with it. */
    method PutContents(f: Screen, ghost exact: bool, ghost keeps: bool, ghost behind: seq<Row>)
      requires FrameOk(wc, f) && Progress(exact, keeps, behind, f) && AtCell(f)
      requires f.rows[y][x].contents != []
      modifies this`x, this`cursorX, this`ops, this`term
      ensures x == old(x) + 1 && Progress(exact, keeps, behind, f)
      ensures term.ds.reverse == old(term.ds.reverse)
    {
      hide Apply, Run, Clean, PrintStops, Drawn, Kept, NarrowRows, Narrow, RowChange, Looks, CombiningOnly;
      var cell := f.rows[y][x];
      CellIsNarrow(wc, f.rows, y, x);
      ContentsChange(wc, exact, term.rows[y], f.rows[y], x);
      Redraws(exact, keeps, behind, f, WithCell(term.rows, y, x, cell), term.rows[y][x := cell], x + 1);
      PutChars(cell.contents, f.ds.width, f.ds.height);
      x := x + 1;
      cursorX := cursorX + 1;
    }

    method PutChars(contents: seq<Char>, ghost w: int, ghost h: int)
      requires InStep(w, h) && 0 <= x < w && 0 <= y < h && cursorX == x && cursorY == y
      requires 0 < |contents| <= 16 && WidthOf(wc, contents[0]) == 1 && CombiningOnly(wc, contents[1..])
      requires PrintableAll(contents)
      modifies this`ops, this`term
      ensures Followed() && Ready(term, w, h)
      ensures term.ds.top == old(term.ds.top) && term.ds.bottom == old(term.ds.bottom)
      ensures ViewOf(term) == Printed(ViewOf(old(term)), w, contents)
    {
      hide Apply, Run, Clean, PrintStops, CombiningOnly, Printable;
      ghost var v := ViewOf(term);
      var i := 1;
      ApplyPut(wc, term, w, h, contents[0]);
      SpacingGoesOn(wc, term, contents[0]);
      Append(Op.Put(contents[0]));
      assert contents[..1] == [contents[0]];
      while i < |contents|
        invariant 1 <= i <= |contents|
        invariant Followed() && Ready(term, w, h)
        invariant term.ds.top == old(term.ds.top) && term.ds.bottom == old(term.ds.bottom)
        invariant term.ds.combiningRow == y && term.ds.combiningCol == x
        invariant ViewOf(term) == Printed(v, w, contents[..i])
      {
        CombinesAt(wc, contents, i);
        ApplyCombining(wc, term, w, h, contents[i]);
        CombiningGoesOn(wc, term, contents[i]);
        assert contents[..i + 1] == contents[..i] + [contents[i]];
        PrintedMore(v, w, contents[..i], contents[i]);
        Append(Op.Put(contents[i]));
        i := i + 1;
      }
      assert contents[..i] == contents;
    }

    method PutCell(d: Display, initialized: bool, f: Screen, ghost exact: bool, ghost keeps: bool,
                   ghost behind: seq<Row>)
      requires FrameOk(wc, f) && WidthOf(wc, 0x20) == 1
      requires initialized ==> keeps && behind == lastRows
      requires Progress(exact, keeps, behind, f)
      requires 0 <= y < f.ds.height && 0 <= x < f.ds.width
      requires exact ==> d.hasEch && d.hasBce && !force
      modifies this`x, this`force, this`ops, this`cursorX, this`cursorY, this`current, this`lastVisible, this`term
      ensures Progress(exact, keeps, behind, f)
      ensures old(x) < x <= f.ds.width && !force
      ensures x == old(x) + 1 || EmptyRun(f.rows[y], old(x), x)
      ensures !initialized ==> cursorY == y && current == f.rows[y][old(x)].renditions
      ensures old(force) ==> x == old(x) + 1
      ensures term.ds.reverse == old(term.ds.reverse)
    {
      hide Progress, NarrowRows, EmptyRun;
      var cell := f.rows[y][x];
      if initialized {
        LastHasShape(exact, f);
      }
      if !force {
        if initialized && cell == lastRows[y][x] {
          SkipCell(f, exact);
          return;
        }
      }
      AimAt(f, exact, keeps, behind);
      if cell.contents == [] {
        PutBlank(d, f, exact, keeps, behind);
      } else {
        PutContents(f, exact, keeps, behind);
        force := false;
      }
    }

    /** An empty cell: an erase as far as it can stretch, or a space. */
    method PutBlank(d: Display, f: Screen, ghost exact: bool, ghost keeps: bool, ghost behind: seq<Row>)
      requires FrameOk(wc, f) && WidthOf(wc, 0x20) == 1
      requires Progress(exact, keeps, behind, f) && AtCell(f) && f.rows[y][x].contents == []
      requires exact ==> d.hasEch && d.hasBce && !force
      modifies this`x, this`force, this`ops, this`cursorX, this`term
      ensures Progress(exact, keeps, behind, f)
      ensures old(x) < x <= f.ds.width && !force
      ensures x == old(x) + 1 || EmptyRun(f.rows[y], old(x), x)
      ensures old(force) ==> x == old(x) + 1
      ensures term.ds.reverse == old(term.ds.reverse)
      ensures HasContents(term.rows, y, old(x), if old(!force && CanErase(d, f, y, x)) then [] else [0x20])
    {
      hide Progress, NarrowRows, EmptyRun, HasContents;
      var count := ClearCount(f);
      var canUse := d.hasBce || f.rows[y][x].renditions == Plain(0);
      if x + count < f.ds.width {
        RunStops(f.rows[y], x, x + count + 1);
      }
      if force {
        PutSpace(f, exact, keeps, behind);
        force := false;
      } else if canUse && (x + count == f.ds.width || d.hasEch) {
        Erase(f, count, exact, keeps, behind);
      } else {
        PutSpace(f, exact, keeps, behind);
      }
    }

    lemma LastHasShape(exact: bool, f: Screen)
      requires Progress(exact, true, lastRows, f)
      ensures RowsOk(lastRows, f.ds.width, f.ds.height)
    {
    }

    method SkipCell(f: Screen, ghost exact: bool)
      requires Progress(exact, true, lastRows, f)
      requires 0 <= y < f.ds.height && 0 <= x < f.ds.width
      requires RowsOk(lastRows, f.ds.width, f.ds.height) && RowsOk(f.rows, f.ds.width, f.ds.height)
      requires f.rows[y][x] == lastRows[y][x]
      modifies this`x
      ensures x == old(x) + 1 && Progress(exact, true, lastRows, f)
    {
      hide Run, Clean, PrintStops, Drawn, Kept, CursorKnown;
      SkipDraws(exact, term.rows, f.rows, lastRows, f.ds.width, f.ds.height, y, x);
      x := x + 1;
    }

    /** Move to the cell and select its renditions, where they are not already so. */
    method AimAt(f: Screen, ghost exact: bool, ghost keeps: bool, ghost behind: seq<Row>)
      requires FrameOk(wc, f) && Progress(exact, keeps, behind, f)
      requires 0 <= y < f.ds.height && 0 <= x < f.ds.width
      modifies this`ops, this`cursorX, this`cursorY, this`current, this`lastVisible, this`term
      ensures Progress(exact, keeps, behind, f) && AtCell(f)
      ensures term.ds.reverse == old(term.ds.reverse)
    {
      hide Apply, Run, Clean, PrintStops, Drawn, Kept, NarrowRows, Narrow, Looks, CursorKnown, Valid;
      var cell := f.rows[y][x];
      CellIsNarrow(wc, f.rows, y, x);
      NarrowIsValid(wc, cell);
      if x != cursorX || y != cursorY {
        SilentMove(y, x, f.ds.width, f.ds.height);
      }
      if current != cell.renditions {
        Select(cell.renditions, f.ds.width, f.ds.height);
      }
    }

    /**
     * A row that does not wrap: its last put is repeated after an erase, so that the
     * terminal forgets a wrap it may have noted there.
     */
    method TurnOffWrap(d: Display, f: Screen, lastX: int)
      requires FrameOk(wc, f) && WidthOf(wc, 0x20) == 1
      requires Progress(false, false, [], f)
      requires 0 <= y < f.ds.height && 0 <= lastX < x == f.ds.width
      requires x == lastX + 1 || EmptyRun(f.rows[y], lastX, x)
      requires cursorY == y && current == f.rows[y][lastX].renditions
      modifies this`x, this`force, this`ops, this`cursorX, this`cursorY, this`current, this`lastVisible, this`term
      ensures DrawnTo(false, false, [], f, y, f.ds.width) && !force
      ensures term.ds.reverse == old(term.ds.reverse)
    {
      hide Drawn, Kept, NarrowRows, EmptyRun, Cleared, Looks, InStep;
      ghost var w, h := f.ds.width, f.ds.height;
      assert RowsOk(term.rows, w, h) by { HasShape(w, h); }
      ErasedTail(wc, term.rows, f.rows, w, h, y, lastX, current.background);
      x := lastX;
      EraseFrom(w, h);
      force := true;
      ghost var behind := term.rows;
      KeepsItself(false, behind, w, h, y, x);
      PutCell(d, false, f, false, true, behind);
      HasShape(w, h);
      TailStays(wc, term.rows, behind, f.rows, w, h, y, lastX);
    }

    lemma HasShape(w: int, h: int)
      requires InStep(w, h)
      ensures RowsOk(term.rows, w, h)
    {
    }

    method EraseFrom(ghost w: int, ghost h: int)
      requires InStep(w, h) && FullRegion(term.ds) && cursorY == y && 0 <= x < w && 0 <= y < h
      modifies this`ops, this`cursorX, this`term
      ensures InStep(w, h) && FullRegion(term.ds) && RowsOk(old(term.rows), w, h)
      ensures term.rows == old(term.rows)[y := Cleared(old(term.rows)[y], x, w - 1, current.background)]
      ensures term.ds.reverse == old(term.ds.reverse)
    {
      hide Apply, Run, Clean, PrintStops, Cleared;
      ApplyMoveTo(wc, term, w, h, y, x);
      Append(MoveTo(y + 1, x + 1));
      ApplyEraseLine(wc, term, w, h);
      Append(EraseLine);
      cursorX := x;
    }

    /** The rows from y on. */
    method DrawRows(d: Display, initialized: bool, f: Screen, ghost exact: bool)
      requires FrameOk(wc, f) && WidthOf(wc, 0x20) == 1
      requires initialized ==> NoWraps(lastRows, f.ds.width, f.ds.height)
      requires 0 <= y <= f.ds.height && !force
      requires DrawnTo(exact, initialized, lastRows, f, y, 0)
      requires exact ==> initialized && d.hasEch && d.hasBce
      modifies this`x, this`y, this`force, this`ops, this`cursorX, this`cursorY, this`current, this`lastVisible,
        this`term
      ensures DrawnTo(exact, initialized, lastRows, f, f.ds.height, 0)
      ensures term.ds.reverse == old(term.ds.reverse)
    {
      hide DrawnTo, EmptyRun, NarrowRows;
      while y < f.ds.height
        invariant 0 <= y <= f.ds.height && !force
        invariant DrawnTo(exact, initialized, lastRows, f, y, 0)
        invariant term.ds.reverse == old(term.ds.reverse)
      {
        DrawRow(d, initialized, f, exact);
        RowDone(exact, initialized, lastRows, f, y);
        y := y + 1;
      }
    }

    lemma RowDone(exact: bool, keeps: bool, behind: seq<Row>, f: Screen, row: int)
      requires DrawnTo(exact, keeps, behind, f, row, f.ds.width)
      ensures DrawnTo(exact, keeps, behind, f, row + 1, 0)
    {
      hide Drawn, Kept, Run, Clean, PrintStops, CursorKnown;
      NextRow(exact, term.rows, f.rows, f.ds.width, f.ds.height, row);
      if keeps {
        NextRowKept(exact, term.rows, behind, f.ds.width, f.ds.height, row);
      }
    }

    method DrawRow(d: Display, initialized: bool, f: Screen, ghost exact: bool)
      requires FrameOk(wc, f) && WidthOf(wc, 0x20) == 1
      requires initialized ==> NoWraps(lastRows, f.ds.width, f.ds.height)
      requires 0 <= y < f.ds.height && !force
      requires DrawnTo(exact, initialized, lastRows, f, y, 0)
      requires exact ==> initialized && d.hasEch && d.hasBce
      modifies this`x, this`force, this`ops, this`cursorX, this`cursorY, this`current, this`lastVisible, this`term
      ensures DrawnTo(exact, initialized, lastRows, f, y, f.ds.width) && !force
      ensures term.ds.reverse == old(term.ds.reverse)
    {
      hide DrawnTo, EmptyRun, NarrowRows;
      var lastX := 0;
      x := 0;
      while x < f.ds.width
        invariant 0 <= x <= f.ds.width && !force
        invariant Progress(exact, initialized, lastRows, f)
        invariant 0 < x ==> 0 <= lastX < x && (x == lastX + 1 || EmptyRun(f.rows[y], lastX, x))
        invariant 0 < x && !initialized ==> cursorY == y && current == f.rows[y][lastX].renditions
        invariant term.ds.reverse == old(term.ds.reverse)
      {
        lastX := x;
        PutCell(d, initialized, f, exact, initialized, lastRows);
      }
      if y < f.ds.height - 1 && (!initialized || lastRows[y][f.ds.width - 1].wrap) {
        NothingBehind(exact, lastRows, f);
        TurnOffWrap(d, f, lastX);
        NothingKept(f, y, f.ds.width);
      }
    }

    lemma NothingBehind(exact: bool, behind: seq<Row>, f: Screen)
      requires Progress(exact, false, behind, f) && !exact
      ensures Progress(false, false, [], f)
    {
    }

    lemma NothingKept(f: Screen, row: int, col: int)
      requires DrawnTo(false, false, [], f, row, col)
      ensures DrawnTo(false, false, lastRows, f, row, col)
    {
    }

    /** The first row of the last frame equal to the first of the new one, and how many rows match from there. */
    method FindScroll(f: Screen) returns (lines: nat, height: nat)
      requires Shaped(f) && RowsOk(lastRows, f.ds.width, f.ds.height)
      ensures lines + height <= f.ds.height
      ensures Matches(f.rows, lastRows, lines, height)
      ensures height == 0 ==> lines == 0 && forall r | 0 <= r < f.ds.height :: f.rows[0] != lastRows[r]
      ensures height > 0 ==> forall r | 0 <= r < lines :: f.rows[0] != lastRows[r]
      ensures height > 0 && lines + height < f.ds.height ==> f.rows[height] != lastRows[lines + height]
    {
      lines, height := 0, 0;
      var row := 0;
      while row < f.ds.height
        invariant 0 <= row <= f.ds.height && lines == 0 && height == 0
        invariant forall r | 0 <= r < row :: f.rows[0] != lastRows[r]
      {
        if f.rows[0] == lastRows[row] {
          lines, height := row, 1;
          while lines + height < f.ds.height
            invariant 1 <= height && lines == row && lines + height <= f.ds.height
            invariant Matches(f.rows, lastRows, lines, height)
          {
            if f.rows[height] == lastRows[lines + height] {
              height := height + 1;
            } else {
              break;
            }
          }
          return;
        }
        row := row + 1;
      }
    }

    method ScrollRegion(f: Screen, lines: nat, bottom: nat)
      requires Shaped(f) && InStep(f.ds.width, f.ds.height) && FullRegion(term.ds)
      requires 0 < lines <= bottom < f.ds.height
      modifies this`ops, this`cursorX, this`cursorY, this`current, this`lastVisible, this`term
      ensures InStep(f.ds.width, f.ds.height) && FullRegion(term.ds)
      ensures term.rows == ShiftedUp(old(term.rows), bottom, lines, f.ds.width)
      ensures term.ds.reverse == old(term.ds.reverse)
    {
      hide Apply, Run, Clean, PrintStops, ShiftedUp, ApplySgr;
      ghost var w, h := f.ds.width, f.ds.height;
      SelectPlain(w, h);
      ApplyMargins(wc, term, w, h, bottom + 1);
      Append(Margins(1, bottom + 1));
      SilentMove(bottom, 0, w, h);
      FeedLines(lines, bottom, w, h);
      ApplyMargins(wc, term, w, h, h);
      Append(Margins(1, f.ds.height));
      cursorX, cursorY := -1, -1;
    }

    method SelectPlain(ghost w: int, ghost h: int)
      requires InStep(w, h)
      modifies this`ops, this`term, this`current
      ensures InStep(w, h) && current == Plain(0)
      ensures term.ds.top == old(term.ds.top) && term.ds.bottom == old(term.ds.bottom)
      ensures ViewOf(term) == ViewOf(old(term)).(renditions := Plain(0))
    {
      hide Apply, Run, Clean, PrintStops, ApplySgr;
      if current != Plain(0) {
        ApplyParams(wc, term, w, h, [0]);
        ResetSelects(term.ds.renditions);
        Append(Op.Sgr([0]));
        current := Plain(0);
      }
    }

    method FeedLines(lines: nat, ghost bottom: int, ghost w: int, ghost h: int)
      requires Tracked(w, h) && current == Plain(0)
      requires term.ds.top == 0 && term.ds.bottom == bottom && term.ds.row == bottom && 0 < bottom < h
      modifies this`ops, this`term
      ensures Tracked(w, h)
      ensures term.rows == ShiftedUp(old(term.rows), bottom, lines, w)
      ensures term.ds.reverse == old(term.ds.reverse)
    {
      hide Apply, Run, Clean, PrintStops, ShiftedUp;
      ghost var rows := term.rows;
      ShiftedByNone(rows, bottom, w);
      var i := 0;
      while i < lines
        invariant 0 <= i <= lines
        invariant Tracked(w, h)
        invariant term.ds.top == 0 && term.ds.bottom == bottom && term.ds.row == bottom
        invariant term.rows == ShiftedUp(rows, bottom, i, w)
        invariant term.ds.reverse == old(term.ds.reverse)
      {
        ShiftedByOneMore(rows, bottom, i, w);
        ApplyLineFeed(wc, term, w, h);
        Append(LineFeed);
        i := i + 1;
      }
    }

    /** The same move in memory. */
    method MoveRows(lines: nat, bottom: nat, w: nat)
      requires 0 < lines && bottom < |lastRows|
      modifies this`lastRows
      ensures lastRows == ShiftedUp(old(lastRows), bottom, lines, w)
    {
      ghost var rows := lastRows;
      var i := 0;
      while i <= bottom
        invariant 0 <= i <= bottom + 1 && |lastRows| == |rows|
        invariant forall r | 0 <= r < i :: lastRows[r] == ShiftedUp(rows, bottom, lines, w)[r]
        invariant forall r | i <= r < |rows| :: lastRows[r] == rows[r]
      {
        if i + lines <= bottom {
          lastRows := lastRows[i := lastRows[i + lines]];
        } else {
          lastRows := lastRows[i := BlankRow(w, 0)];
        }
        i := i + 1;
      }
    }

    /** Has the display moved up by some lines? Then scroll, and skip the rows that match. */
    method Shortcut(f: Screen, ghost exact: bool)
      requires FrameOk(wc, f) && NoWraps(lastRows, f.ds.width, f.ds.height)
      requires DrawnTo(exact, true, lastRows, f, 0, 0)
      modifies this`y, this`ops, this`cursorX, this`cursorY, this`current, this`lastVisible, this`lastRows, this`term
      ensures 0 <= y <= f.ds.height && NoWraps(lastRows, f.ds.width, f.ds.height)
      ensures DrawnTo(exact, true, lastRows, f, y, 0)
      ensures term.ds.reverse == old(term.ds.reverse)
    {
      hide NarrowRows, Drawn, Kept, ShiftedUp, Matches, Run, Clean, PrintStops, CursorKnown;
      ghost var w, h := f.ds.width, f.ds.height;
      var lines, height := FindScroll(f);
      y := height;
      if height > 0 && lines > 0 {
        var bottom := lines + height - 1;
        ShiftKeeps(exact, term.rows, lastRows, w, h, bottom, lines);
        ShiftMatches(f.rows, lastRows, w, h, lines, height);
        ShiftNoWrap(lastRows, w, h, bottom, lines);
        ScrollRegion(f, lines, bottom);
        MoveRows(lines, bottom, f.ds.width);
      }
      MatchingDrawn(exact, term.rows, f.rows, lastRows, w, h, height);
    }

    /** Bell and video mode. */
    method Announce(initialized: bool, last: Screen, f: Screen)
      requires Followed() && Ready(term, f.ds.width, f.ds.height)
      requires initialized ==> term.ds.reverse == last.ds.reverse
      modifies this`ops, this`term
      ensures Followed() && Ready(term, f.ds.width, f.ds.height)
      ensures term.ds.top == old(term.ds.top) && term.ds.bottom == old(term.ds.bottom)
      ensures ViewOf(term) == ViewOf(old(term)).(wrapNext := term.ds.wrapNext, reverse := f.ds.reverse)
      ensures term.ds.wrapNext ==> old(term.ds.wrapNext)
    {
      hide Apply, Run, Clean, PrintStops;
      ghost var w, h := f.ds.width, f.ds.height;
      if f.bells != last.bells {
        ApplyBell(wc, term, w, h);
        Append(Bell);
      }
      if !initialized || f.ds.reverse != last.ds.reverse {
        ApplyReverse(wc, term, w, h, f.ds.reverse);
        Append(Reverse(f.ds.reverse));
      }
    }

    /** Take the last frame's cursor and renditions for the terminal's. */
    method Resume(last: Screen, f: Screen, ghost exact: bool)
      requires Shaped(f) && SizeOk(f.ds.width, f.ds.height) && SameScreenSize(last, f)
      requires RowsOk(last.rows, f.ds.width, f.ds.height) && lastRows == last.rows
      requires lastVisible == last.ds.visible
      requires Followed() && Pictured(exact, term, last) && CursorOk(last.ds)
      requires ViewOf(term)
            == View(term.rows, last.ds.row, last.ds.col, false, last.ds.renditions, last.ds.visible, f.ds.reverse)
      modifies this`y, this`cursorX, this`cursorY, this`current
      ensures y == 0 && DrawnTo(exact, true, lastRows, f, 0, 0)
    {
      hide Run, Clean, PrintStops, Drawn, Kept;
      cursorX, cursorY := last.ds.col, last.ds.row;
      current := last.ds.renditions;
      y := 0;
      NothingDrawn(exact, term.rows, f.rows, last.rows, f.ds.width, f.ds.height);
    }

    method Restart(f: Screen)
      requires Shaped(f) && Followed() && Ready(term, f.ds.width, f.ds.height)
      requires SizeOk(f.ds.width, f.ds.height) && !sure
      modifies this`y, this`ops, this`cursorX, this`cursorY, this`current, this`term
      ensures y == 0 && DrawnTo(false, false, lastRows, f, 0, 0)
      ensures term.ds.reverse == old(term.ds.reverse)
    {
      hide Run, Clean, PrintStops, Drawn, Kept;
      ClearAll(f);
      y := 0;
      NoRowsYet(term.rows, f.rows, f.ds.width, f.ds.height);
    }

    /** Reset the terminal when nothing is known of what it shows. */
    method ClearAll(f: Screen)
      requires Followed() && Ready(term, f.ds.width, f.ds.height) && SizeOk(f.ds.width, f.ds.height) && !sure
      modifies this`ops, this`cursorX, this`cursorY, this`current, this`term
      ensures InStep(f.ds.width, f.ds.height) && FullRegion(term.ds)
      ensures term.ds.reverse == old(term.ds.reverse)
    {
      hide Apply, Run, Clean, PrintStops, ApplySgr;
      ghost var w, h := f.ds.width, f.ds.height;
      ResetMargins(f.ds.height, w);
      ApplyParams(wc, term, w, h, [0]);
      ResetSelects(term.ds.renditions);
      Append(Op.Sgr([0]));
      current := Plain(0);
      Wipe(w, h);
      cursorX, cursorY := 0, 0;
    }

    method ResetMargins(h: int, ghost w: int)
      requires Followed() && Ready(term, w, h) && SizeOk(w, h)
      modifies this`ops, this`term
      ensures Followed() && Ready(term, w, h) && FullRegion(term.ds)
      ensures term.ds.reverse == old(term.ds.reverse)
    {
      hide Apply, Run, Clean, PrintStops;
      if h == 1 {
        ApplyMarginsOne(wc, term, w);
      } else {
        ApplyMargins(wc, term, w, h, h);
      }
      Append(Margins(1, h));
    }

    method Wipe(ghost w: int, ghost h: int)
      requires Followed() && Ready(term, w, h)
      modifies this`ops, this`term
      ensures Followed() && Ready(term, w, h)
      ensures term.ds.top == old(term.ds.top) && term.ds.bottom == old(term.ds.bottom)
      ensures ViewOf(term) == ViewOf(old(term)).(rows := term.rows, row := 0, col := 0, wrapNext := false)
    {
      hide Apply, Run, Clean, PrintStops;
      ApplyHome(wc, term, w, h);
      Append(Home);
      ApplyClearScreen(wc, term, w, h);
      Append(ClearScreen);
    }

    /** Cursor, visibility and renditions of the new frame. */
    method Finish(initialized: bool, f: Screen, ghost exact: bool)
      requires FrameOk(wc, f) && DrawnTo(exact, initialized, lastRows, f, f.ds.height, 0)
      requires initialized ==> sure
      modifies this`ops, this`cursorX, this`cursorY, this`current, this`lastVisible, this`term
      ensures Followed() && Pictured(exact, term, f)
      ensures ViewOf(term)
           == View(term.rows, f.ds.row, f.ds.col, false, f.ds.renditions, f.ds.visible, old(term.ds.reverse))
    {
      hide Apply, Run, Clean, PrintStops, NarrowRows, Kept, Drawn, Valid;
      ghost var w, h := f.ds.width, f.ds.height;
      PlaceCursor(initialized, f.ds.row, f.ds.col, w, h);
      ShowCursor(initialized, f.ds.visible, w, h);
      if !initialized || f.ds.renditions != current {
        Select(f.ds.renditions, w, h);
      }
    }

    method PlaceCursor(initialized: bool, row: int, col: int, ghost w: int, ghost h: int)
      requires InStep(w, h) && 0 <= row < h && 0 <= col < w
      modifies this`ops, this`cursorX, this`cursorY, this`term
      ensures InStep(w, h) && term.ds.top == old(term.ds.top) && term.ds.bottom == old(term.ds.bottom)
      ensures ViewOf(term) == ViewOf(old(term)).(row := row, col := col, wrapNext := false)
    {
      hide Apply, Run, Clean, PrintStops;
      if !initialized || row != cursorY || col != cursorX {
        ApplyMoveTo(wc, term, w, h, row, col);
        Append(MoveTo(row + 1, col + 1));
        cursorX, cursorY := col, row;
      }
    }

    method ShowCursor(initialized: bool, visible: bool, ghost w: int, ghost h: int)
      requires InStep(w, h) && (initialized ==> sure)
      modifies this`ops, this`lastVisible, this`term
      ensures InStep(w, h) && term.ds.top == old(term.ds.top) && term.ds.bottom == old(term.ds.bottom)
      ensures ViewOf(term) == ViewOf(old(term)).(visible := visible)
    {
      hide Apply, Run, Clean, PrintStops;
      if !initialized || visible != lastVisible {
        ApplyShow(wc, term, w, h, visible);
        Append(Show(visible));
      }
      lastVisible := visible;
    }
  }

  /** Printing stops neither at a spacing character nor at a combining one for a cell that has contents. */
  lemma SpacingGoesOn(wc: Char -> Columns, s: Screen, ch: Char)
    requires Shaped(s) && WidthOf(wc, ch) == 1
    ensures !OpStops(wc, s, Op.Put(ch))
  {
  }

  lemma CombiningGoesOn(wc: Char -> Columns, s: Screen, ch: Char)
    requires Shaped(s) && CombiningOnScreen(s.ds) && s.rows[s.ds.combiningRow][s.ds.combiningCol].contents != []
    ensures !OpStops(wc, s, Op.Put(ch))
  {
  }

  /** The terminal's cells show the frame. */
  predicate Pictured(exact: bool, t: Screen, f: Screen) {
    && Ready(t, f.ds.width, f.ds.height) && FullRegion(t.ds)
    && RowsOk(f.rows, f.ds.width, f.ds.height)
    && Drawn(exact, t.rows, f.rows, f.ds.width, f.ds.height, f.ds.height, 0)
  }

  /** The terminal shows the frame: cells, cursor, visibility, renditions and video mode; no wrap is pending. */
  predicate Shows(exact: bool, t: Screen, f: Screen) {
    && Pictured(exact, t, f)
    && ViewOf(t) == View(t.rows, f.ds.row, f.ds.col, false, f.ds.renditions, f.ds.visible, f.ds.reverse)
  }

  predicate SameScreenSize(a: Screen, b: Screen) {
    a.ds.width == b.ds.width && a.ds.height == b.ds.height
  }

  /** What the display may take for granted about the terminal when it is told that the last frame was sent. */
  predicate Expected(exact: bool, initialized: bool, t: Screen, last: Screen, f: Screen) {
    && Ready(t, f.ds.width, f.ds.height)
    && (initialized ==> t.ds.reverse == last.ds.reverse)
    && (initialized && SameScreenSize(last, f) ==>
          && Shows(exact, t, last)
          && NoWraps(last.rows, f.ds.width, f.ds.height))
  }

  /** A terminal that shows the last frame and runs these operations shows the new one. */
  method Compile(d: Display, initialized: bool, last: Screen, f: Screen,
                 ghost wc: Char -> Columns, ghost terminal: Screen, ghost exact: bool)
    returns (ops: seq<Op>)
    requires FrameOk(wc, f) && WidthOf(wc, 0x20) == 1
    requires Expected(exact, initialized, terminal, last, f)
    requires exact ==> initialized && SameScreenSize(last, f) && d.hasEch && d.hasBce
    ensures OpsOk(ops) && Clean(wc, terminal, ops)
    ensures Shows(exact, Run(wc, terminal, ops), f)
  {
    hide Run, Clean, PrintStops, NarrowRows, NoWraps, Drawn, OpsOk;
    var known := initialized && SameScreenSize(last, f);
    var frame := new FrameState(wc, terminal, last, known);
    frame.Announce(initialized, last, f);
    if known {
      frame.Resume(last, f, exact);
      frame.Shortcut(f, exact);
    } else {
      frame.Restart(f);
    }
    frame.DrawRows(d, known, f, exact);
    frame.Finish(known, f, exact);
    ops := frame.ops;
  }

  /** An emulator between sequences whose screen shows the frame. */
  predicate Displays(exact: bool, e: Emulator, f: Screen) {
    e.state == Ground && Shows(exact, e.screen, f)
  }

  /**
   * The text for a new frame: an emulator whose screen shows the last frame and that reads
   * the text shows the new one, cells, cursor, visibility, renditions and video mode.
   * With erase functions that keep the background, every cell is exactly the wanted one;
   * otherwise, and when the screen is redrawn from nothing, a blank may stand for another blank.
   */
  method NewFrame(d: Display, initialized: bool, last: Screen, f: Screen,
                  ghost wc: Char -> Columns, ghost e: Emulator, ghost exact: bool)
    returns (text: seq<Char>)
    requires FrameOk(wc, f) && WidthOf(wc, 0x20) == 1
    requires e.state == Ground && Expected(exact, initialized, e.screen, last, f)
    requires exact ==> initialized && SameScreenSize(last, f) && d.hasEch && d.hasBce
    ensures Type(wc, e, text).Ok? && Displays(exact, Type(wc, e, text).value, f)
  {
    hide Run, Clean, PrintStops, Type, OpsOk, Shows, FrameOk, SameScreenSize;
    assert Shaped(e.screen);
    var ops := Compile(d, initialized, last, f, wc, e.screen, exact);
    TextRuns(wc, e, ops);
    text := EncodeAll(ops);
  }

  /** Frame after frame: an emulator that shows the first frame shows the last once every text was read. */
  method Play(d: Display, frames: seq<Screen>, ghost wc: Char -> Columns, ghost e: Emulator, ghost exact: bool)
    returns (text: seq<Char>)
    requires 0 < |frames| && WidthOf(wc, 0x20) == 1
    requires forall i: nat | i < |frames| :: FrameOk(wc, frames[i]) && SameScreenSize(frames[0], frames[i])
    requires Displays(exact, e, frames[0])
    requires exact ==> d.hasEch && d.hasBce
    ensures Type(wc, e, text).Ok? && Displays(exact, Type(wc, e, text).value, frames[|frames| - 1])
  {
    hide Type, Drawn, NarrowRows, NoWraps;
    text := [];
    TypeNothing(wc, e);
    var i := 0;
    while i + 1 < |frames|
      invariant 0 <= i < |frames|
      invariant Type(wc, e, text).Ok? && Displays(exact, Type(wc, e, text).value, frames[i])
    {
      NarrowDoesNotWrap(wc, frames[i]);
      var next := NewFrame(d, true, frames[i], frames[i + 1], wc, Type(wc, e, text).value, exact);
      TypeBoth(wc, e, text, next);
      text := text + next;
      i := i + 1;
    }
  }

  lemma NarrowDoesNotWrap(wc: Char -> Columns, f: Screen)
    requires FrameOk(wc, f)
    ensures NoWraps(f.rows, f.ds.width, f.ds.height)
  {
    forall r | 0 <= r < f.ds.height ensures !f.rows[r][f.ds.width - 1].wrap {
      CellIsNarrow(wc, f.rows, r, f.ds.width - 1);
    }
  }

  lemma NothingDrawn(exact: bool, shown: seq<Row>, want: seq<Row>, last: seq<Row>, w: int, h: int)
    requires RowsOk(shown, w, h) && RowsOk(want, w, h) && RowsOk(last, w, h)
    requires Drawn(exact, shown, last, w, h, h, 0)
    ensures Drawn(exact, shown, want, w, h, 0, 0) && Kept(exact, shown, last, w, h, 0, 0)
  {
    hide Looks;
  }

  lemma NoRowsYet(shown: seq<Row>, want: seq<Row>, w: int, h: int)
    requires RowsOk(shown, w, h) && RowsOk(want, w, h)
    ensures Drawn(false, shown, want, w, h, 0, 0)
  {
    hide Looks;
  }

  lemma ShiftKeeps(exact: bool, shown: seq<Row>, last: seq<Row>, w: int, h: int, bottom: int, n: nat)
    requires RowsOk(shown, w, h) && RowsOk(last, w, h) && 0 <= w && 0 <= bottom < h
    requires Kept(exact, shown, last, w, h, 0, 0)
    ensures RowsOk(ShiftedUp(shown, bottom, n, w), w, h) && RowsOk(ShiftedUp(last, bottom, n, w), w, h)
    ensures Kept(exact, ShiftedUp(shown, bottom, n, w), ShiftedUp(last, bottom, n, w), w, h, 0, 0)
  {
    var s, l := ShiftedUp(shown, bottom, n, w), ShiftedUp(last, bottom, n, w);
    forall r, c | 0 <= r < h && 0 <= c < w ensures Looks(exact, s[r][c], l[r][c]) {
      if r + n <= bottom {
        assert !Before(r + n, c, 0, 0);
      } else if r > bottom {
        assert !Before(r, c, 0, 0);
      }
    }
  }

  lemma ShiftMatches(want: seq<Row>, last: seq<Row>, w: int, h: int, lines: nat, height: nat)
    requires RowsOk(want, w, h) && RowsOk(last, w, h) && 0 <= w && 0 < height && lines + height <= h
    requires Matches(want, last, lines, height)
    ensures Matches(want, ShiftedUp(last, lines + height - 1, lines, w), 0, height)
  {
  }

  lemma ShiftNoWrap(last: seq<Row>, w: int, h: int, bottom: int, n: nat)
    requires NoWraps(last, w, h) && 0 <= bottom < h
    ensures NoWraps(ShiftedUp(last, bottom, n, w), w, h)
  {
  }

  /** Rows that match need no drawing. */
  lemma MatchingDrawn(exact: bool, shown: seq<Row>, want: seq<Row>, last: seq<Row>, w: int, h: int, height: nat)
    requires RowsOk(shown, w, h) && RowsOk(want, w, h) && RowsOk(last, w, h) && height <= h
    requires Kept(exact, shown, last, w, h, 0, 0) && Matches(want, last, 0, height)
    ensures Drawn(exact, shown, want, w, h, height, 0) && Kept(exact, shown, last, w, h, height, 0)
  {
    hide Looks;
    forall r, c | 0 <= r < h && 0 <= c < w ensures Looks(exact, shown[r][c], last[r][c]) {
      assert !Before(r, c, 0, 0);
    }
  }

  /** Rows of the new frame match the last one's, some lines further down. */
  predicate Matches(want: seq<Row>, last: seq<Row>, lines: nat, height: nat)
    requires height <= |want| && lines + height <= |last|
  {
    forall i | 0 <= i < height :: want[i] == last[lines + i]
  }

  /** Rows 0 to bottom move up by n; blank rows follow. */
  function ShiftedUp(rows: seq<Row>, bottom: int, n: nat, w: int): (r: seq<Row>)
    requires 0 <= w && 0 <= bottom < |rows|
    ensures |r| == |rows|
  {
    var blank := BlankRow(w, 0);
    seq(|rows|, i requires 0 <= i < |rows| =>
      if i + n <= bottom then rows[i + n] else if i <= bottom then blank else rows[i])
  }

  lemma ShiftedByNone(rows: seq<Row>, bottom: int, w: int)
    requires 0 <= w && 0 <= bottom < |rows|
    ensures ShiftedUp(rows, bottom, 0, w) == rows
  {
  }

  lemma ShiftedByOneMore(rows: seq<Row>, bottom: int, n: nat, w: int)
    requires 0 <= w && 0 <= bottom < |rows|
    ensures var s := ShiftedUp(rows, bottom, n, w);
      ShiftedUp(rows, bottom, n + 1, w) == s[1..bottom + 1] + [BlankRow(w, 0)] + s[bottom + 1..]
  {
  }

  lemma ResetSelects(r: Renditions)
    ensures ApplySgr(r, [0]) == Plain(0)
  {
    assert SetAll(r, [0]) == SetRendition(SetAll(r, [0][..0]), 0);
  }

  /** No row wraps to the next. */
  predicate NoWraps(rows: seq<Row>, w: int, h: int) {
    0 < w && RowsOk(rows, w, h) && forall r | 0 <= r < h :: !rows[r][w - 1].wrap
  }

  lemma KeepsItself(exact: bool, rows: seq<Row>, w: int, h: int, y: int, x: int)
    requires RowsOk(rows, w, h)
    ensures Kept(exact, rows, rows, w, h, y, x)
  {
  }

  /** Erasing from a column on leaves the cells before it as they were. */
  lemma ErasedTail(wc: Char -> Columns, shown: seq<Row>, want: seq<Row>, w: int, h: int, y: int, x: int,
                   background: int)
    requires RowsOk(shown, w, h) && RowsOk(want, w, h) && NarrowRows(wc, want)
    requires 0 <= y < h && 0 <= x < w && Drawn(false, shown, want, w, h, y, w)
    requires x + 1 == w || (EmptyRun(want[y], x, w) && want[y][x].renditions.background == background)
    ensures var rows := shown[y := Cleared(shown[y], x, w - 1, background)];
      && RowsOk(rows, w, h)
      && Drawn(false, rows, want, w, h, y, x)
      && (forall c | x < c < w :: rows[y][c] == want[y][c])
  {
    hide Looks, NarrowRows;
    forall c | x < c < w ensures want[y][c] == Blank(background) {
      CellIsNarrow(wc, want, y, c);
      CellIsNarrow(wc, want, y, x);
    }
  }

  lemma TailStays(wc: Char -> Columns, shown: seq<Row>, behind: seq<Row>, want: seq<Row>, w: int, h: int, y: int,
                  x: int)
    requires RowsOk(shown, w, h) && RowsOk(behind, w, h) && RowsOk(want, w, h) && 0 <= y < h && 0 <= x
    requires Drawn(false, shown, want, w, h, y, x + 1) && Kept(false, shown, behind, w, h, y, x + 1)
    requires forall c | x < c < w :: behind[y][c] == want[y][c]
    ensures Drawn(false, shown, want, w, h, y, w)
  {
    hide Looks;
    forall r, c | 0 <= r < h && 0 <= c < w && Before(r, c, y, w) ensures Looks(false, shown[r][c], want[r][c]) {
      if !Before(r, c, y, x + 1) {
        assert Looks(false, shown[r][c], behind[r][c]);
      }
    }
  }

  lemma NarrowIsValid(wc: Char -> Columns, cell: Cell)
    requires Narrow(wc, cell)
    ensures Valid(cell.renditions)
  {
  }

  function WithCell(rows: seq<Row>, y: int, x: int, cell: Cell): seq<Row>
    requires 0 <= y < |rows| && 0 <= x < |rows[y]|
  {
    rows[y := rows[y][x := cell]]
  }

  predicate CursorInside(v: View, w: int) {
    0 <= v.row < |v.rows| && 0 <= v.col < |v.rows[v.row]| == w
  }

  /** After one spacing character and its combining ones. */
  function Printed(v: View, w: int, contents: seq<Char>): View
    requires CursorInside(v, w)
  {
    v.(rows := WithCell(v.rows, v.row, v.col, Cell(contents, false, 1, v.renditions, false)),
       col := if v.col + 1 < w then v.col + 1 else v.col,
       wrapNext := v.col + 1 >= w)
  }

  lemma PrintedMore(v: View, w: int, contents: seq<Char>, ch: Char)
    requires CursorInside(v, w)
    ensures var p := Printed(v, w, contents);
      && 0 <= v.row < |p.rows| && 0 <= v.col < |p.rows[v.row]|
      && p.rows[v.row][v.col].contents == contents
      && p.(rows := WithCell(p.rows, v.row, v.col, p.rows[v.row][v.col].(contents := contents + [ch])))
         == Printed(v, w, contents + [ch])
  {
    var p := Printed(v, w, contents);
    var q := Printed(v, w, contents + [ch]);
    assert p.rows[v.row][v.col := q.rows[v.row][v.col]] == q.rows[v.row];
  }

  lemma CombinesAt(wc: Char -> Columns, contents: seq<Char>, i: int)
    requires 1 <= i < |contents| && CombiningOnly(wc, contents[1..])
    ensures WidthOf(wc, contents[i]) == 0
  {
    assert contents[1..][i - 1] == contents[i];
  }

  lemma ContentsChange(wc: Char -> Columns, exact: bool, row: Row, want: Row, x: int)
    requires |row| == |want| && 0 <= x < |row|
    requires Narrow(wc, want[x]) && want[x].contents != []
    ensures RowChange(exact, row, row[x := want[x]], want, x, x + 1)
    ensures want[x] == Cell(want[x].contents, false, 1, want[x].renditions, false)
    ensures |want[x].contents| <= 16 && WidthOf(wc, want[x].contents[0]) == 1
    ensures CombiningOnly(wc, want[x].contents[1..])
    ensures PrintableAll(want[x].contents)
  {
    hide CombiningOnly;
  }

  predicate HasContents(rows: seq<Row>, y: int, x: int, contents: seq<Char>) {
    0 <= y < |rows| && 0 <= x < |rows[y]| && rows[y][x].contents == contents
  }

  lemma CellHasContents(rows: seq<Row>, y: int, x: int, row: Row)
    requires 0 <= y < |rows| && 0 <= x < |row|
    ensures HasContents(rows[y := row], y, x, row[x].contents)
  {
  }

  lemma ErasedHasNone(rows: seq<Row>, y: int, x: int, end: int, background: int)
    requires 0 <= y < |rows| && 0 <= x < |rows[y]| && x <= end
    ensures HasContents(rows[y := Cleared(rows[y], x, end, background)], y, x, [])
  {
    var row := Cleared(rows[y], x, end, background);
    assert row[x] == Blank(background);
  }

  lemma RunStops(row: Row, x: int, x1: int)
    requires 0 <= x < |row| && x1 <= |row| && !EmptyRun(row, x, x1)
    ensures !EmptyRun(row, x, |row|)
  {
  }

  /** An erase serves for the blank cell: it keeps the background, and reaches to the end of the line or can be told
      how far to go. Otherwise a space is printed, and the cell shown has contents where the wanted one has none. */
  predicate CanErase(d: Display, f: Screen, y: int, x: int)
    requires Shaped(f) && 0 <= y < f.ds.height && 0 <= x < f.ds.width
  {
    (d.hasBce || f.rows[y][x].renditions == Plain(0)) && (d.hasEch || EmptyRun(f.rows[y], x, f.ds.width))
  }

  /** The cells from x up to x1 are empty and carry the renditions of the first. */
  predicate EmptyRun(row: Row, x: int, x1: int)
    requires 0 <= x < |row| && x1 <= |row|
  {
    forall c | x <= c < x1 :: row[c].contents == [] && row[c].renditions == row[x].renditions
  }

  lemma EraseChanges(wc: Char -> Columns, exact: bool, row: Row, want: seq<Row>, y: int, x: int, x1: int)
    requires NarrowRows(wc, want) && 0 <= y < |want| && |row| == |want[y]| && 0 <= x < x1 <= |row|
    requires EmptyRun(want[y], x, x1)
    ensures RowChange(exact, row, Cleared(row, x, x1 - 1, want[y][x].renditions.background), want[y], x, x1)
  {
    hide NarrowRows;
    forall c | x <= c < x1 ensures want[y][c] == Blank(want[y][x].renditions.background) {
      CellIsNarrow(wc, want, y, c);
      CellIsNarrow(wc, want, y, x);
    }
  }

  lemma SpaceChanges(wc: Char -> Columns, row: Row, want: Row, x: int)
    requires |row| == |want| && 0 <= x < |row|
    requires Narrow(wc, want[x]) && want[x].contents == []
    ensures RowChange(false, row, row[x := Cell([0x20], false, 1, want[x].renditions, false)], want, x, x + 1)
  {
  }

  lemma CellIsNarrow(wc: Char -> Columns, rows: seq<Row>, r: int, c: int)
    requires NarrowRows(wc, rows) && 0 <= r < |rows| && 0 <= c < |rows[r]|
    ensures Narrow(wc, rows[r][c])
  {
  }

  lemma SgrIsShort(r: Renditions, i: int)
    requires Valid(r) && 0 <= i < |TerminalRenditions.Sgr(r)|
    ensures OpOk(Op.Sgr(TerminalRenditions.Sgr(r)[i]))
  {
    hide Attributes;
    AttributesAreShort(r);
  }

  lemma FlagIsShort(p: seq<int>, on: bool, num: int)
    requires NumbersOk(p) && (on ==> 0 <= num <= PARAM_MAX)
    ensures NumbersOk(p + Flag(on, num)) && |p| <= |p + Flag(on, num)| <= |p| + 1
  {
  }

  lemma AttributesAreShort(r: Renditions)
    requires Valid(r)
    ensures 0 < |Attributes(r)| <= 16 && NumbersOk(Attributes(r))
  {
    hide Flag, NumbersOk;
    var p0 := [0];
    assert NumbersOk(p0) by {
      NoNumbers([]);
      FlagIsShort([], true, 0);
      FlagOn(0);
      assert [] + Flag(true, 0) == p0;
    }
    FlagIsShort(p0, r.bold, 1);
    var p1 := p0 + Flag(r.bold, 1);
    FlagIsShort(p1, r.underlined, 4);
    var p2 := p1 + Flag(r.underlined, 4);
    FlagIsShort(p2, r.blink, 5);
    var p3 := p2 + Flag(r.blink, 5);
    FlagIsShort(p3, r.inverse, 7);
    var p4 := p3 + Flag(r.inverse, 7);
    FlagIsShort(p4, r.invisible, 8);
    var p5 := p4 + Flag(r.invisible, 8);
    FlagIsShort(p5, r.foreground != 0 && r.foreground <= 37, r.foreground);
    var p6 := p5 + Flag(r.foreground != 0 && r.foreground <= 37, r.foreground);
    FlagIsShort(p6, r.background != 0 && r.background <= 47, r.background);
  }

  lemma NoNumbers(p: seq<int>)
    requires p == []
    ensures NumbersOk(p)
  {
  }

  lemma NoSequence(r: Renditions, s: seq<seq<int>>)
    requires s == []
    ensures ApplyAll(r, s) == r
  {
  }
}
