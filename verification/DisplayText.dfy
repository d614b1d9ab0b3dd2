/**
 * The operations as the characters a display writes, and the proof that an emulator
 * which reads those characters carries out exactly the operations.
 */
module DisplayText {
  import opened Outcomes
  import opened TerminalParser
  import opened TerminalRenditions
  import opened Screens
  import opened DisplayOps
  import opened ControlFunctions
  import opened Dispatchers
  import opened Emulators

  // ---------------------------------------------------------------- encoding

  function Digits(n: nat): (s: seq<Char>)
    ensures 0 < |s|
  {
    if n < 10 then [0x30 + n] else Digits(n / 10) + [0x30 + n % 10]
  }

  /** Numbers separated by semicolons. */
  function Listed(params: seq<int>): seq<Char>
    requires NumbersOk(params)
  {
    if params == [] then []
    else if |params| == 1 then Digits(params[0])
    else Digits(params[0]) + [SEMICOLON] + Listed(params[1..])
  }

  predicate NumbersOk(params: seq<int>) {
    forall i | 0 <= i < |params| :: 0 <= params[i] <= PARAM_MAX
  }

  predicate OpOk(op: Op) {
    match op
    case Margins(first, last) => 0 < first <= PARAM_MAX && 0 < last <= PARAM_MAX
    case Sgr(params) => 0 < |params| <= 16 && NumbersOk(params)
    case MoveTo(line, column) => 0 < line <= PARAM_MAX && 0 < column <= PARAM_MAX
    case EraseChars(count) => 0 < count <= PARAM_MAX
    case Put(ch) => Printable(ch)
    case _ => true
  }

  /** A control sequence: introducer, private marker if any, parameters, final character. */
  function Csi(mark: seq<Char>, params: seq<int>, final: Char): seq<Char>
    requires NumbersOk(params)
  {
    [0x1B, 0x5B] + mark + Listed(params) + [final]
  }

  function Encode(op: Op): seq<Char>
    requires OpOk(op)
  {
    match op
    case Bell => [0x07]
    case Reverse(on) => Csi([0x3F], [5], if on then 0x68 else 0x6C)
    case Show(on) => Csi([0x3F], [25], if on then 0x68 else 0x6C)
    case Margins(first, last) => Csi([], [first, last], 0x72)
    case Sgr(params) => Csi([], params, 0x6D)
    case Home => Csi([], [], 0x48)
    case MoveTo(line, column) => Csi([], [line, column], 0x48)
    case ClearScreen => Csi([], [2], 0x4A)
    case LineFeed => [0x0A]
    case EraseLine => Csi([], [], 0x4B)
    case EraseChars(count) => Csi([], if count == 1 then [] else [count], 0x58)
    case Put(ch) => [ch]
  }

  // ---------------------------------------------------------------- numbers

  predicate AllDigits(s: seq<Char>) {
    forall i | 0 <= i < |s| :: 0x30 <= s[i] <= 0x39
  }

  lemma {:induction false} DigitsRoundTrip(n: nat)
    ensures Decimal(Digits(n)) == n && AllDigits(Digits(n))
    ensures n < 100000 ==> |Digits(n)| <= 5
    ensures n < 10000 ==> |Digits(n)| <= 4
    ensures n < 1000 ==> |Digits(n)| <= 3
    ensures n < 100 ==> |Digits(n)| <= 2
    ensures n < 10 ==> |Digits(n)| <= 1
  {
    if n >= 10 {
      DigitsRoundTrip(n / 10);
      assert Digits(n)[..|Digits(n)| - 1] == Digits(n / 10);
    } else {
      assert Digits(n)[..0] == [];
      assert Decimal(Digits(n)[..0]) == 0;
    }
  }

  /** Whatever number is written, with zeros before it, its value is the number up to the limit, and else -1. */
  lemma {:induction false} WrittenValue(zeros: nat, n: nat)
    ensures SegmentValue(seq(zeros, _ => 0x30) + Digits(n)) == if n <= PARAM_MAX then n else -1
  {
    DigitsRoundTrip(n);
    ZerosBefore(zeros, Digits(n));
  }

  lemma {:induction false} ZerosBefore(zeros: nat, d: seq<Char>)
    ensures Decimal(seq(zeros, _ => 0x30) + d) == Decimal(d)
    decreases zeros + |d|
  {
    var z := seq(zeros, _ => 0x30);
    var s := z + d;
    if d != [] {
      assert s[..|s| - 1] == z + d[..|d| - 1];
      ZerosBefore(zeros, d[..|d| - 1]);
    } else if zeros > 0 {
      assert s[..|s| - 1] == seq(zeros - 1, _ => 0x30) + d;
      ZerosBefore(zeros - 1, d);
    }
  }

  lemma {:induction false} ListedParses(before: seq<Char>, params: seq<int>)
    requires NumbersOk(params) && params != []
    ensures ParseFrom(before + Listed(params), |before|) == params
    decreases |params|
  {
    hide ParseFrom, SegmentEnd, Decimal, Digits, NumbersOk;
    assert 0 <= params[0] <= PARAM_MAX && NumbersOk(params[1..]) by { NumbersRest(params); }
    var d := Digits(params[0]);
    DigitsRoundTrip(params[0]);
    var rest := if |params| == 1 then [] else [SEMICOLON] + Listed(params[1..]);
    assert before + Listed(params) == before + d + rest;
    assert SEMICOLON !in d;
    ParseOne(before, d, rest);
    if |params| > 1 {
      var before1 := before + d + [SEMICOLON];
      assert before + d + rest == before1 + Listed(params[1..]);
      ListedParses(before1, params[1..]);
    }
  }

  lemma NumbersRest(params: seq<int>)
    requires NumbersOk(params) && params != []
    ensures 0 <= params[0] <= PARAM_MAX && NumbersOk(params[1..])
  {
  }

  lemma ListedRoundTrip(params: seq<int>)
    requires NumbersOk(params)
    ensures ParseParams(Listed(params)) == if params == [] then [-1] else params
  {
    if params != [] {
      ListedParses([], params);
      assert [] + Listed(params) == Listed(params);
    }
  }

  predicate ParamChars(s: seq<Char>) {
    forall i | 0 <= i < |s| :: ParamChar(s[i])
  }

  lemma {:induction false} ListedIsShort(params: seq<int>)
    requires NumbersOk(params)
    ensures ParamChars(Listed(params)) && |Listed(params)| <= 6 * |params|
  {
    if params != [] {
      DigitsRoundTrip(params[0]);
      if |params| > 1 {
        ListedIsShort(params[1..]);
      }
    }
  }

  // ---------------------------------------------------------------- reading

  function Type(wc: Char -> Columns, e: Emulator, chars: seq<Char>): (r: Outcome<Emulator>)
    requires Shaped(e.screen)
    ensures OkShaped(r)
    decreases |chars|
  {
    if chars == [] then Ok(e) else
      var e1 :- Step(wc, e, Character(chars[0]));
      Type(wc, e1, chars[1..])
  }

  lemma {:induction false} TypeBoth(wc: Char -> Columns, e: Emulator, a: seq<Char>, b: seq<Char>)
    requires Shaped(e.screen) && Type(wc, e, a).Ok?
    ensures Type(wc, e, a + b) == Type(wc, Type(wc, e, a).value, b)
    decreases |a|
  {
    hide Step, Shaped;
    if a == [] {
      assert a + b == b;
    } else {
      assert (a + b)[1..] == a[1..] + b;
      TypeBoth(wc, Step(wc, e, Character(a[0])).value, a[1..], b);
    }
  }

  lemma TypeOne(wc: Char -> Columns, e: Emulator, ch: Char)
    requires Shaped(e.screen)
    ensures Type(wc, e, [ch]) == Step(wc, e, Character(ch))
  {
    hide Step, Shaped;
    var r := Step(wc, e, Character(ch));
    if r.Ok? {
      assert [ch][1..] == [];
      assert Type(wc, r.value, [ch][1..]) == Ok(r.value);
    }
  }

  /** Feeding a character that causes at most one action. */
  lemma StepOneEvent(wc: Char -> Columns, e: Emulator, ch: Char, next: TerminalParser.State, event: Event)
    requires Shaped(e.screen) && Feed(e.state, ch) == (next, [event])
    ensures Step(wc, e, Character(ch)) == Act(wc, e.(state := next), event)
  {
    hide Feed, Act, Shaped;
    var e0 := e.(state := next);
    var r := Act(wc, e0, event);
    assert [event][1..] == [];
    if r.Ok? {
      assert ActAll(wc, r.value, [event][1..]) == Ok(r.value);
    }
  }

  lemma FeedEnters(state: TerminalParser.State, ch: Char, next: TerminalParser.State)
    requires Input(state, ch) == To(Ignore, next) && Exit(state) == Ignore && Enter(next) != Ignore
    ensures Feed(state, ch) == (next, [Event(Enter(next), None)])
  {
    hide Input;
    assert [] + [] + [Event(Enter(next), None)] == [Event(Enter(next), None)];
  }

  lemma FeedStays(state: TerminalParser.State, ch: Char, action: Action)
    requires Input(state, ch) == Stay(action) && action != Ignore
    ensures Feed(state, ch) == (state, [Event(action, Some(ch))])
  {
    hide Input;
  }

  lemma FeedActs(state: TerminalParser.State, ch: Char, action: Action, next: TerminalParser.State)
    requires action != Ignore && Exit(state) == Ignore && Enter(next) == Ignore
    requires Input(state, ch) == To(action, next) || (Input(state, ch) == Stay(action) && next == state)
    ensures Feed(state, ch) == (next, [Event(action, Some(ch))])
  {
    hide Input;
    assert [] + [Event(action, Some(ch))] + [] == [Event(action, Some(ch))];
  }

  lemma StepIntroducer(wc: Char -> Columns, k: Keys, s: Screen)
    requires Shaped(s)
    ensures Step(wc, Emulator(Ground, k, s), Character(0x1B)) == Ok(Emulator(Escape, Keys([], [], k.osc), s))
    ensures Step(wc, Emulator(Escape, k, s), Character(0x5B)) == Ok(Emulator(CsiEntry, Keys([], [], k.osc), s))
  {
    hide Step, Shaped, Feed;
    FeedEnters(Ground, 0x1B, Escape);
    StepOneEvent(wc, Emulator(Ground, k, s), 0x1B, Escape, Event(Clear, None));
    FeedEnters(Escape, 0x5B, CsiEntry);
    StepOneEvent(wc, Emulator(Escape, k, s), 0x5B, CsiEntry, Event(Clear, None));
  }

  lemma StepMark(wc: Char -> Columns, k: Keys, s: Screen)
    requires Shaped(s) && k.chars == []
    ensures Step(wc, Emulator(CsiEntry, k, s), Character(0x3F)) == Ok(Emulator(CsiParam, k.(chars := [0x3F]), s))
  {
    hide Step, Shaped, Feed;
    FeedActs(CsiEntry, 0x3F, Collect, CsiParam);
    assert k.chars + [0x3F] == [0x3F];
    StepOneEvent(wc, Emulator(CsiEntry, k, s), 0x3F, CsiParam, Event(Collect, Some(0x3F)));
  }

  predicate InCsi(state: TerminalParser.State) {
    state == CsiEntry || state == CsiParam
  }

  lemma StepParam(wc: Char -> Columns, state: TerminalParser.State, k: Keys, s: Screen, ch: Char)
    requires Shaped(s) && InCsi(state) && ParamChar(ch) && |k.params| < 100
    ensures Step(wc, Emulator(state, k, s), Character(ch)) == Ok(Emulator(CsiParam, k.(params := k.params + [ch]), s))
  {
    hide Step, Shaped, Feed;
    FeedActs(state, ch, Param, CsiParam);
    StepOneEvent(wc, Emulator(state, k, s), ch, CsiParam, Event(Param, Some(ch)));
  }

  lemma StepFinal(wc: Char -> Columns, state: TerminalParser.State, k: Keys, s: Screen, ch: Char)
    requires Shaped(s) && InCsi(state) && 0x40 <= ch <= 0x7E && |k.chars| < 8
    ensures Step(wc, Emulator(state, k, s), Character(ch))
         == Ok(Emulator(Ground, k.(chars := k.chars + [ch]),
                        Dispatch(s, CsiTable(k.chars + [ch]), ParseParams(k.params))))
  {
    hide Step, Shaped, Feed, Dispatch, ParseParams, CsiTable;
    FeedActs(state, ch, CsiDispatch, Ground);
    StepOneEvent(wc, Emulator(state, k, s), ch, Ground, Event(CsiDispatch, Some(ch)));
  }

  lemma {:induction false} TypeParams(wc: Char -> Columns, state: TerminalParser.State, k: Keys, s: Screen,
                                      chars: seq<Char>)
    requires Shaped(s) && InCsi(state) && ParamChars(chars) && |k.params| + |chars| <= 100
    ensures Type(wc, Emulator(state, k, s), chars)
         == Ok(Emulator(if chars == [] then state else CsiParam, k.(params := k.params + chars), s))
    decreases |chars|
  {
    hide Step, Shaped, ParamChar;
    if chars == [] {
      assert k.params + chars == k.params;
    } else {
      StepParam(wc, state, k, s, chars[0]);
      assert k.params + [chars[0]] + chars[1..] == k.params + chars;
      TypeParams(wc, CsiParam, k.(params := k.params + [chars[0]]), s, chars[1..]);
    }
  }

  /** The emulator is ready for more, and its screen is s. */
  predicate Reads(r: Outcome<Emulator>, s: Screen) {
    r.Ok? && r.value.state == Ground && r.value.screen == s
  }

  lemma TypeIntroducer(wc: Char -> Columns, k: Keys, s: Screen, mark: seq<Char>)
    requires Shaped(s) && (mark == [] || mark == [0x3F])
    ensures Type(wc, Emulator(Ground, k, s), [0x1B, 0x5B] + mark)
         == Ok(Emulator(if mark == [] then CsiEntry else CsiParam, Keys([], mark, k.osc), s))
  {
    hide Type, Shaped, Step;
    var e0 := Emulator(Ground, k, s);
    var e1 := Emulator(Escape, Keys([], [], k.osc), s);
    var e2 := Emulator(CsiEntry, Keys([], [], k.osc), s);
    StepIntroducer(wc, k, s);
    TypeOne(wc, e0, 0x1B);
    StepIntroducer(wc, e1.keys, s);
    TypeOne(wc, e1, 0x5B);
    TypeBoth(wc, e0, [0x1B], [0x5B]);
    assert [0x1B] + [0x5B] == [0x1B, 0x5B];
    if mark == [] {
      assert [0x1B, 0x5B] + mark == [0x1B, 0x5B];
    } else {
      StepMark(wc, e2.keys, s);
      TypeOne(wc, e2, 0x3F);
      TypeBoth(wc, e0, [0x1B, 0x5B], [0x3F]);
    }
  }

  function Given(params: seq<int>): seq<int> {
    if params == [] then [-1] else params
  }

  lemma CsiRuns(wc: Char -> Columns, e: Emulator, mark: seq<Char>, params: seq<int>, final: Char)
    requires Shaped(e.screen) && e.state == Ground && (mark == [] || mark == [0x3F])
    requires NumbersOk(params) && |params| <= 16 && 0x40 <= final <= 0x7E
    ensures Reads(Type(wc, e, Csi(mark, params, final)), Dispatch(e.screen, CsiTable(mark + [final]), Given(params)))
  {
    hide Type, Shaped, Step, Listed, Dispatch, CsiTable, ParseParams, NumbersOk;
    var s, list := e.screen, Listed(params);
    ListedIsShort(params);
    ListedRoundTrip(params);
    TypeIntroducer(wc, e.keys, s, mark);
    var intro := [0x1B, 0x5B] + mark;
    var e1 := Emulator(if mark == [] then CsiEntry else CsiParam, Keys([], mark, e.keys.osc), s);
    TypeParams(wc, e1.state, e1.keys, s, list);
    TypeBoth(wc, e, intro, list);
    var e2 := Emulator(if list == [] then e1.state else CsiParam, e1.keys.(params := [] + list), s);
    assert [] + list == list;
    StepFinal(wc, e2.state, e2.keys, s, final);
    TypeOne(wc, e2, final);
    TypeBoth(wc, e, intro + list, [final]);
    assert Csi(mark, params, final) == intro + list + [final];
  }

  lemma ControlRuns(wc: Char -> Columns, e: Emulator, ch: Char)
    requires Shaped(e.screen) && e.state == Ground && (ch == 0x07 || ch == 0x0A)
    ensures Reads(Type(wc, e, [ch]), Dispatch(e.screen, ControlTable(ch), ParseParams(e.keys.params)))
  {
    hide Type, Shaped, Step, Dispatch, ParseParams, ControlTable, Feed;
    FeedActs(Ground, ch, Execute, Ground);
    StepOneEvent(wc, e, ch, Ground, Event(Execute, Some(ch)));
    TypeOne(wc, e, ch);
  }

  lemma PrintRuns(wc: Char -> Columns, e: Emulator, ch: Char)
    requires Shaped(e.screen) && e.state == Ground && Printable(ch) && !PrintStops(e.screen, WidthOf(wc, ch))
    ensures Reads(Type(wc, e, [ch]), Screens.Print(e.screen, ch, WidthOf(wc, ch)))
  {
    hide Type, Shaped, Step, Screens.Print, Feed, PrintStops;
    FeedActs(Ground, ch, Print, Ground);
    StepOneEvent(wc, e, ch, Ground, Event(Print, Some(ch)));
    TypeOne(wc, e, ch);
  }

  // ---------------------------------------------------------------- dispatch

  lemma TableEntries()
    ensures CsiTable([0x3F] + [0x68]) == Some(DECSM) && CsiTable([0x3F] + [0x6C]) == Some(DECRM)
    ensures CsiTable([] + [0x72]) == Some(DECSTBM) && CsiTable([] + [0x6D]) == Some(SGR)
    ensures CsiTable([] + [0x48]) == Some(Position) && CsiTable([] + [0x4A]) == Some(ED)
    ensures CsiTable([] + [0x4B]) == Some(EL) && CsiTable([] + [0x58]) == Some(ECH)
    ensures ControlTable(0x07) == Some(BEL) && ControlTable(0x0A) == Some(LF)
  {
  }

  lemma ModePerforms(wc: Char -> Columns, s: Screen, mode: int, on: bool)
    requires Shaped(s) && (mode == 5 || mode == 25)
    ensures Dispatch(s, Some(if on then DECSM else DECRM), Given([mode]))
         == Apply(wc, s, if mode == 5 then Reverse(on) else Show(on))
  {
    assert SetDecModes(s, [mode], 0, on) == s;
    assert SetDecModes(s, [mode], 1, on) == SetDecMode(s, mode, on);
  }

  lemma MotionPerforms(wc: Char -> Columns, s: Screen, a: int, b: int)
    requires Shaped(s) && 0 < a && 0 < b
    ensures Dispatch(s, Some(DECSTBM), Given([a, b])) == Apply(wc, s, Margins(a, b))
    ensures Dispatch(s, Some(Position), Given([a, b])) == Apply(wc, s, MoveTo(a, b))
    ensures Dispatch(s, Some(Position), Given([])) == Apply(wc, s, Home)
  {
    hide SetMargins, CursorTo, CancelWrap;
  }

  lemma SelectionPerforms(wc: Char -> Columns, s: Screen, params: seq<int>)
    requires Shaped(s) && params != []
    ensures Dispatch(s, Some(SGR), Given(params)) == Apply(wc, s, Op.Sgr(params))
  {
    hide ApplySgr;
  }

  lemma ErasurePerforms(wc: Char -> Columns, s: Screen, count: int)
    requires Shaped(s) && 0 < count
    ensures Dispatch(s, Some(ECH), Given(if count == 1 then [] else [count])) == Apply(wc, s, EraseChars(count))
  {
    hide EraseCharacters, CancelWrap;
  }

  lemma ClearingPerforms(wc: Char -> Columns, s: Screen)
    requires Shaped(s)
    ensures Dispatch(s, Some(ED), Given([2])) == Apply(wc, s, ClearScreen)
    ensures Dispatch(s, Some(EL), Given([])) == Apply(wc, s, EraseLine)
  {
    hide EraseInDisplay, EraseInLine, CancelWrap;
  }

  lemma ControlsPerform(wc: Char -> Columns, s: Screen, p: seq<int>)
    requires Shaped(s)
    ensures Dispatch(s, Some(BEL), p) == Apply(wc, s, Bell)
    ensures Dispatch(s, Some(LF), p) == Apply(wc, s, LineFeed)
  {
    hide AutoScroll;
  }

  /** An emulator that reads the characters of an operation carries out the operation. */
  lemma OpRuns(wc: Char -> Columns, e: Emulator, op: Op)
    requires Shaped(e.screen) && e.state == Ground && OpOk(op) && !OpStops(wc, e.screen, op)
    ensures Reads(Type(wc, e, Encode(op)), Apply(wc, e.screen, op))
  {
    hide Type, Shaped, Dispatch, CsiTable, ControlTable, ParseParams, Csi, Screens.Print, NumbersOk, PrintStops;
    TableEntries();
    match op
    case Bell => ControlRuns(wc, e, 0x07); ControlsPerform(wc, e.screen, ParseParams(e.keys.params));
    case LineFeed => ControlRuns(wc, e, 0x0A); ControlsPerform(wc, e.screen, ParseParams(e.keys.params));
    case Put(ch) => PrintRuns(wc, e, ch);
    case _ => SequenceRuns(wc, e, op);
  }

  lemma SequenceRuns(wc: Char -> Columns, e: Emulator, op: Op)
    requires Shaped(e.screen) && e.state == Ground && OpOk(op) && op != Bell && op != LineFeed && !op.Put?
    ensures Reads(Type(wc, e, Encode(op)), Apply(wc, e.screen, op))
  {
    hide Type, Shaped, Dispatch, CsiTable, Csi, Apply, Given;
    TableEntries();
    match op
    case Reverse(on) => ModePerforms(wc, e.screen, 5, on); CsiRuns(wc, e, [0x3F], [5], if on then 0x68 else 0x6C);
    case Show(on) => ModePerforms(wc, e.screen, 25, on); CsiRuns(wc, e, [0x3F], [25], if on then 0x68 else 0x6C);
    case Margins(a, b) => MotionPerforms(wc, e.screen, a, b); CsiRuns(wc, e, [], [a, b], 0x72);
    case MoveTo(a, b) => MotionPerforms(wc, e.screen, a, b); CsiRuns(wc, e, [], [a, b], 0x48);
    case Home => MotionPerforms(wc, e.screen, 1, 1); CsiRuns(wc, e, [], [], 0x48);
    case Sgr(params) => SelectionPerforms(wc, e.screen, params); CsiRuns(wc, e, [], params, 0x6D);
    case ClearScreen => ClearingPerforms(wc, e.screen); CsiRuns(wc, e, [], [2], 0x4A);
    case EraseLine => ClearingPerforms(wc, e.screen); CsiRuns(wc, e, [], [], 0x4B);
    case EraseChars(n) => ErasurePerforms(wc, e.screen, n); CsiRuns(wc, e, [], if n == 1 then [] else [n], 0x58);
  }

  // ---------------------------------------------------------------- whole texts

  predicate OpsOk(ops: seq<Op>) {
    forall i | 0 <= i < |ops| :: OpOk(ops[i])
  }

  function EncodeAll(ops: seq<Op>): seq<Char>
    requires OpsOk(ops)
  {
    if ops == [] then [] else EncodeAll(ops[..|ops| - 1]) + Encode(ops[|ops| - 1])
  }

  /** Reading the text of some operations is running them. */
  lemma {:induction false} TextRuns(wc: Char -> Columns, e: Emulator, ops: seq<Op>)
    requires Shaped(e.screen) && e.state == Ground && OpsOk(ops) && Clean(wc, e.screen, ops)
    ensures Reads(Type(wc, e, EncodeAll(ops)), Run(wc, e.screen, ops))
    decreases |ops|
  {
    hide Type, Shaped, Apply, OpOk, Encode, OpStops;
    if ops == [] {
      TypeNothing(wc, e);
    } else {
      var front, op := ops[..|ops| - 1], ops[|ops| - 1];
      TextRuns(wc, e, front);
      var e1 := Type(wc, e, EncodeAll(front)).value;
      TypeBoth(wc, e, EncodeAll(front), Encode(op));
      OpRuns(wc, e1, op);
    }
  }

  lemma TypeNothing(wc: Char -> Columns, e: Emulator)
    requires Shaped(e.screen)
    ensures Type(wc, e, []) == Ok(e)
  {
  }

  // ---------------------------------------------------------------- a text that stops the emulator

  lemma PrintedOne(wc: Char -> Columns, w: int, h: int, ch: Char)
    requires 2 <= w && 0 < h && WidthOf(wc, ch) == 1
    ensures var s := Screens.Print(InitialScreen(w, h), ch, 1);
      && s.ds.row == 0 && s.ds.col == 1 && s.ds.combiningRow == 0 && s.ds.combiningCol == 0
      && s.ds.width == w && s.ds.height == h
  {
    hide BlankRows;
  }

  lemma ErasedIsStray(s: Screen)
    requires Shaped(s) && s.ds.row == 0 && s.ds.col == 1 && s.ds.combiningRow == 0 && s.ds.combiningCol == 0
    ensures Stray(Dispatch(s, Some(EL), Given([2])))
  {
    var s1 := CancelWrap(s);
    assert Dispatch(s, Some(EL), Given([2])) == ClearRows(s1, 0, 1);
    assert ClearRows(s1, 0, 1).rows[0] == NewRow(s1);
    assert NewRow(s1)[0] == Blank(s1.ds.renditions.background);
  }

  lemma StrayStops(wc: Char -> Columns, e: Emulator, c: Char)
    requires Shaped(e.screen) && e.state == Ground && Printable(c) && WidthOf(wc, c) == 0 && Stray(e.screen)
    ensures Type(wc, e, [c]) == AssertFailed
  {
    hide Shaped, Step, Screens.Print, Feed;
    FeedActs(Ground, c, Print, Ground);
    StepOneEvent(wc, e, c, Ground, Event(Print, Some(c)));
    TypeOne(wc, e, c);
  }

  /** A character, an erase of the whole line and a combining character: its cell is empty and not at the cursor. */
  lemma CombiningCanStop(wc: Char -> Columns, w: int, h: int, ch: Char, c: Char)
    requires 2 <= w && 0 < h && Printable(ch) && WidthOf(wc, ch) == 1 && Printable(c) && WidthOf(wc, c) == 0
    ensures Type(wc, InitialEmulator(w, h), [ch] + [0x1B, 0x5B, 0x32, 0x4B] + [c]) == AssertFailed
  {
    hide Type, Dispatch, Screens.Print, PrintStops, Stray, CsiTable, InitialScreen, Csi, Shaped;
    var e := InitialEmulator(w, h);
    assert !PrintStops(e.screen, 1) by { SpacingIsFine(e.screen); }
    PrintRuns(wc, e, ch);
    PrintedOne(wc, w, h, ch);
    var e1 := Type(wc, e, [ch]).value;
    EraseText();
    assert CsiTable([] + [0x4B]) == Some(EL) by { TableEntries(); }
    CsiRuns(wc, e1, [], [2], 0x4B);
    ErasedIsStray(e1.screen);
    var e2 := Type(wc, e1, [0x1B, 0x5B, 0x32, 0x4B]).value;
    StrayStops(wc, e2, c);
    TypeBoth(wc, e, [ch], [0x1B, 0x5B, 0x32, 0x4B]);
    TypeBoth(wc, e, [ch] + [0x1B, 0x5B, 0x32, 0x4B], [c]);
  }

  lemma SpacingIsFine(s: Screen)
    requires Shaped(s)
    ensures !PrintStops(s, 1)
  {
  }

  lemma EraseText()
    ensures NumbersOk([2]) && Csi([], [2], 0x4B) == [0x1B, 0x5B, 0x32, 0x4B]
  {
    assert Digits(2) == [0x32];
    assert Listed([2]) == [0x32];
  }
}
