/**
 * The emulator: characters go through the parser, and the actions that result
 * collect keys, print or dispatch functions (alfalfa/src/terminal/terminal.cc).
 */
module Emulators {
  import opened Outcomes
  import opened TerminalParser
  import opened TerminalRenditions
  import opened Screens
  import opened DisplayOps
  import opened ControlFunctions
  import opened Dispatchers
  import opened TerminalColours

  datatype Emulator = Emulator(state: TerminalParser.State, keys: Keys, screen: Screen)

  predicate ScreenOk(s: Screen) {
    Shaped(s) && Coloured(s)
  }

  predicate EmulatorOk(e: Emulator) {
    ScreenOk(e.screen) && forall c | c in e.keys.params :: ParamChar(c)
  }

  function InitialEmulator(width: int, height: int): (e: Emulator)
    requires 0 < width && 0 < height
    ensures EmulatorOk(e)
  {
    InitialColoured(width, height);
    Emulator(Ground, Keys([], [], []), InitialScreen(width, height))
  }

  function DispatchControl(e: Emulator, ch: Char): (r: Outcome<Emulator>)
    requires Shaped(e.screen)
    ensures OkShaped(r)
  {
    if ch > 255 then AssertFailed
    else Ok(e.(screen := Dispatch(e.screen, ControlTable(ch), ParseParams(e.keys.params))))
  }

  function DispatchEscape(e: Emulator, ch: Char): (r: Emulator)
    requires Shaped(e.screen)
    ensures Shaped(r.screen)
  {
    var keys := AddKey(e.keys, ch);
    e.(keys := keys, screen := Dispatch(e.screen, EscapeTable(keys.chars), ParseParams(keys.params)))
  }

  function DispatchCsi(e: Emulator, ch: Char): (r: Emulator)
    requires Shaped(e.screen)
    ensures Shaped(r.screen)
  {
    var keys := AddKey(e.keys, ch);
    e.(keys := keys, screen := Dispatch(e.screen, CsiTable(keys.chars), ParseParams(keys.params)))
  }

  /** An operating system command may set the icon name, the title, or both. */
  function DispatchOsc(s: Screen, osc: seq<Char>): (r: Screen)
    requires Shaped(s)
    ensures Shaped(r)
  {
    if |osc| >= 2 && 0x30 <= osc[0] <= 0x32 && osc[1] == 0x3B then
      s.(icon := if osc[0] == 0x32 then s.icon else osc[2..], title := if osc[0] == 0x31 then s.title else osc[2..])
    else s
  }

  predicate OkShaped(r: Outcome<Emulator>) {
    r.Ok? ==> Shaped(r.value.screen)
  }

  /** An action that comes with a character. */
  function ActOn(wc: Char -> Columns, e: Emulator, action: Action, ch: Char): (r: Outcome<Emulator>)
    requires Shaped(e.screen)
    ensures OkShaped(r)
  {
    if action == Print then
      if PrintStops(e.screen, WidthOf(wc, ch)) then AssertFailed
      else Ok(e.(screen := Screens.Print(e.screen, ch, WidthOf(wc, ch))))
    else if action == Param then if ParamChar(ch) then Ok(e.(keys := AddParam(e.keys, ch))) else AssertFailed
    else if action == Collect then Ok(e.(keys := AddKey(e.keys, ch)))
    else if action == OscPut then Ok(e.(keys := AddOsc(e.keys, ch)))
    else if action == Execute then DispatchControl(e, ch)
    else if action == CsiDispatch then Ok(DispatchCsi(e, ch))
    else if action == EscDispatch then
      if |e.keys.chars| == 0 && 0x40 <= ch <= 0x5F then DispatchControl(e, ch + 0x40) else Ok(DispatchEscape(e, ch))
    else Ok(e)
  }

  predicate NeedsCharacter(action: Action) {
    action == Print || action == Param || action == Collect || action == OscPut || action == Execute
    || action == CsiDispatch || action == EscDispatch
  }

  /** One action. An assertion of a handler that does not hold stops the program. */
  function Act(wc: Char -> Columns, e: Emulator, event: Event): (r: Outcome<Emulator>)
    requires Shaped(e.screen)
    ensures OkShaped(r)
  {
    if NeedsCharacter(event.action) then
      if event.ch.None? then AssertFailed else ActOn(wc, e, event.action, event.ch.value)
    else if event.action == Clear then Ok(e.(keys := e.keys.(params := [], chars := [])))
    else if event.action == OscStart then Ok(e.(keys := e.keys.(osc := [])))
    else if event.action == OscEnd then Ok(e.(screen := DispatchOsc(e.screen, e.keys.osc)))
    else Ok(e)
  }

  function ActAll(wc: Char -> Columns, e: Emulator, events: seq<Event>): (r: Outcome<Emulator>)
    requires Shaped(e.screen)
    ensures OkShaped(r)
    decreases |events|
  {
    if events == [] then Ok(e) else
      var e1 :- Act(wc, e, events[0]);
      ActAll(wc, e1, events[1..])
  }

  datatype Stimulus = Character(ch: Char) | Resized(width: int, height: int)

  function Step(wc: Char -> Columns, e: Emulator, i: Stimulus): (r: Outcome<Emulator>)
    requires Shaped(e.screen)
    ensures OkShaped(r)
  {
    match i
    case Resized(width, height) =>
      if width <= 0 || height <= 0 then AssertFailed else Ok(e.(screen := Resize(e.screen, width, height)))
    case Character(ch) =>
      var (state, events) := Feed(e.state, ch);
      ActAll(wc, e.(state := state), events)
  }

  function RunInputs(wc: Char -> Columns, e: Emulator, inputs: seq<Stimulus>): (r: Outcome<Emulator>)
    requires Shaped(e.screen)
    ensures OkShaped(r)
    decreases |inputs|
  {
    if inputs == [] then Ok(e) else
      var e1 :- Step(wc, e, inputs[0]);
      RunInputs(wc, e1, inputs[1..])
  }

  // ---------------------------------------------------------------- shape over every run

  /** Every dispatch, whatever it looks up, leaves the screen in order. */
  lemma DispatchKeeps(s: Screen, f: Option<Fn>, p: seq<int>)
    requires ScreenOk(s)
    ensures ScreenOk(Dispatch(s, f, p))
  {
    hide Shaped, Coloured, Dispatch;
    DispatchColoured(s, f, p);
  }

  lemma TitleKeeps(s: Screen, osc: seq<Char>)
    requires ScreenOk(s)
    ensures ScreenOk(DispatchOsc(s, osc))
  {
    hide Shaped;
    SameRowsColoured(s, DispatchOsc(s, osc));
  }

  lemma PrintKeeps(s: Screen, ch: Char, w: Columns)
    requires ScreenOk(s)
    ensures ScreenOk(Screens.Print(s, ch, w))
  {
    hide Shaped, Coloured, Screens.Print;
    PrintColoured(s, ch, w);
  }

  /** A combining character that comes when the cell printed last was emptied and the cursor is elsewhere. */
  predicate Stops(wc: Char -> Columns, s: Screen, event: Event)
    requires Shaped(s)
  {
    event.action == Print && event.ch.Some? && WidthOf(wc, event.ch.value) == 0 && Stray(s)
  }

  /** Empty cells are one column wide, so only the place of the cell can fail the print. */
  lemma PrintStopsIff(s: Screen, w: Columns)
    requires ScreenOk(s)
    ensures PrintStops(s, w) <==> w == 0 && Stray(s)
  {
    hide Valid;
    if CombiningOnScreen(s.ds) {
      CellIsColoured(s, s.ds.combiningRow, s.ds.combiningCol);
    }
  }

  /** One action succeeds, and keeps the emulator in order, unless it is such a print. */
  lemma ActKeeps(wc: Char -> Columns, e: Emulator, event: Event)
    requires EmulatorOk(e) && EventOk(event)
    ensures Act(wc, e, event) == AssertFailed <==> Stops(wc, e.screen, event)
    ensures Act(wc, e, event).Ok? ==> EmulatorOk(Act(wc, e, event).value)
  {
    hide ParamChar, ParseParams, ControlTable, EscapeTable, CsiTable, Dispatch, Shaped, Coloured, DispatchOsc,
         Screens.Print, PrintStops, Stray;
    var s, p := e.screen, ParseParams(e.keys.params);
    TitleKeeps(s, e.keys.osc);
    if event.ch.Some? {
      var ch := event.ch.value;
      var keys := AddKey(e.keys, ch);
      PrintStopsIff(s, WidthOf(wc, ch));
      PrintKeeps(s, ch, WidthOf(wc, ch));
      DispatchKeeps(s, ControlTable(ch), p);
      DispatchKeeps(s, ControlTable(ch + 0x40), p);
      DispatchKeeps(s, EscapeTable(keys.chars), ParseParams(keys.params));
      DispatchKeeps(s, CsiTable(keys.chars), ParseParams(keys.params));
    }
  }

  lemma {:induction false} ActAllKeeps(wc: Char -> Columns, e: Emulator, events: seq<Event>)
    requires EmulatorOk(e) && forall x | x in events :: EventOk(x) && x.action != Print
    ensures ActAll(wc, e, events).Ok? && EmulatorOk(ActAll(wc, e, events).value)
    decreases |events|
  {
    hide EmulatorOk, EventOk, Act;
    if events != [] {
      ActKeeps(wc, e, events[0]);
      OkIsShaped(e);
      var e1 := Act(wc, e, events[0]).value;
      OkIsShaped(e1);
      ActAllKeeps(wc, e1, events[1..]);
    }
  }

  lemma OkIsShaped(e: Emulator)
    requires EmulatorOk(e)
    ensures Shaped(e.screen)
  {
  }

  predicate StimulusOk(i: Stimulus) {
    i.Resized? ==> 0 < i.width && 0 < i.height
  }

  /** A printed character of no width stops the emulator exactly when the cell printed last is stray. */
  predicate StepStops(wc: Char -> Columns, e: Emulator, i: Stimulus)
    requires Shaped(e.screen)
  {
    i.Character? && e.state == Ground && Printable(i.ch) && WidthOf(wc, i.ch) == 0 && Stray(e.screen)
  }

  lemma StepKeeps(wc: Char -> Columns, e: Emulator, i: Stimulus)
    requires EmulatorOk(e) && StimulusOk(i)
    ensures Step(wc, e, i) == AssertFailed <==> StepStops(wc, e, i)
    ensures Step(wc, e, i).Ok? ==> EmulatorOk(Step(wc, e, i).value)
  {
    hide Feed, ActAll, ParamChar, EventOk, Resize, Shaped, Coloured, Stray, Act;
    match i
    case Resized(width, height) => ResizeColoured(e.screen, width, height);
    case Character(ch) =>
      FeedIsOk(e.state, ch);
      FeedPrints(e.state, ch);
      var (state, events) := Feed(e.state, ch);
      var e1 := e.(state := state);
      if e.state == Ground && Printable(ch) {
        ActOne(wc, e1, events[0]);
        ActKeeps(wc, e1, events[0]);
      } else {
        ActAllKeeps(wc, e1, events);
      }
  }

  lemma ActOne(wc: Char -> Columns, e: Emulator, event: Event)
    requires Shaped(e.screen)
    ensures ActAll(wc, e, [event]) == Act(wc, e, event)
  {
    hide Act;
  }

  /** After the first k inputs, all in order, the next one stops the emulator. */
  predicate StopsAt(wc: Char -> Columns, e: Emulator, inputs: seq<Stimulus>, k: nat)
    requires Shaped(e.screen)
  {
    && k < |inputs| && RunInputs(wc, e, inputs[..k]).Ok?
    && EmulatorOk(RunInputs(wc, e, inputs[..k]).value) && StepStops(wc, RunInputs(wc, e, inputs[..k]).value, inputs[k])
  }

  lemma StopsLater(wc: Char -> Columns, e: Emulator, e1: Emulator, inputs: seq<Stimulus>, k: nat)
    requires Shaped(e.screen) && inputs != [] && Step(wc, e, inputs[0]) == Ok(e1) && Shaped(e1.screen)
    ensures StopsAt(wc, e, inputs, k + 1) <==> StopsAt(wc, e1, inputs[1..], k)
  {
    hide Step, EmulatorOk, StepStops;
    if k + 1 < |inputs| {
      assert inputs[..k + 1][0] == inputs[0] && inputs[..k + 1][1..] == inputs[1..][..k];
    }
  }

  lemma StopsNow(wc: Char -> Columns, e: Emulator, inputs: seq<Stimulus>)
    requires EmulatorOk(e) && inputs != []
    ensures StopsAt(wc, e, inputs, 0) <==> StepStops(wc, e, inputs[0])
  {
    hide EmulatorOk, StepStops;
    assert inputs[..0] == [];
    OkIsShaped(e);
  }

  /**
   * Whatever characters and resizes arrive, no assertion fails but that of a stray combining character. Up to then
   * rows, cursor, region, tab stops and the combining position stay within the screen, the colours of all cells, of
   * the renditions and of the saved ones stay in range, and empty cells are one column wide.
   */
  lemma {:induction false} ShapeAlwaysHolds(wc: Char -> Columns, e: Emulator, inputs: seq<Stimulus>)
    requires EmulatorOk(e) && forall i | i in inputs :: StimulusOk(i)
    ensures RunInputs(wc, e, inputs).Ok? ==> EmulatorOk(RunInputs(wc, e, inputs).value)
    ensures RunInputs(wc, e, inputs) == AssertFailed <==> exists k: nat :: StopsAt(wc, e, inputs, k)
    decreases |inputs|
  {
    hide EmulatorOk, Step, StimulusOk, StepStops, StopsAt;
    OkIsShaped(e);
    if inputs == [] {
      NothingStops(wc, e, inputs);
    } else {
      StepKeeps(wc, e, inputs[0]);
      StopsNow(wc, e, inputs);
      if Step(wc, e, inputs[0]).Ok? {
        var e1 := Step(wc, e, inputs[0]).value;
        OkIsShaped(e1);
        ShapeAlwaysHolds(wc, e1, inputs[1..]);
        if k: nat :| StopsAt(wc, e1, inputs[1..], k) {
          StopsLater(wc, e, e1, inputs, k);
        }
        if k: nat :| StopsAt(wc, e, inputs, k) {
          assert k > 0;
          StopsLater(wc, e, e1, inputs, k - 1);
        }
      }
    }
  }

  lemma NothingStops(wc: Char -> Columns, e: Emulator, inputs: seq<Stimulus>)
    requires Shaped(e.screen) && inputs == []
    ensures !exists k: nat :: StopsAt(wc, e, inputs, k)
  {
  }
}
