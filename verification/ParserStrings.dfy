/**
 * What whole strings of characters do that are no control sequences: titles, device control strings and escape
 * sequences (alfalfa/src/terminal/parserstate.cc, terminal.cc, terminalfunctions.cc).
 */
module ParserStrings {
  import opened Outcomes
  import opened TerminalParser
  import opened Screens
  import opened DisplayOps
  import opened ControlFunctions
  import opened Dispatchers
  import opened Emulators
  import opened DisplayText

  // ---------------------------------------------------------------- starting over

  /** In every state an escape character starts over: whatever was collected is forgotten. Only a title that it ends
      is set. */
  lemma EscapeStartsOver(wc: Char -> Columns, e: Emulator)
    requires Shaped(e.screen)
    ensures Step(wc, e, Character(0x1B)) == Ok(Emulator(Escape, Keys([], [], e.keys.osc),
      if e.state == OscString then DispatchOsc(e.screen, e.keys.osc) else e.screen))
  {
    hide DispatchOsc, Shaped, ActOn, Step, Feed, ActAll;
    if Exit(e.state) == Ignore {
      FeedEnters(e.state, 0x1B, Escape);
      StepOneEvent(wc, e, 0x1B, Escape, Event(Clear, None));
    } else {
      FeedRestarts(e.state);
      TwoEvents(wc, e.(state := Escape), Event(Exit(e.state), None), Event(Clear, None));
      StepIs(wc, e, 0x1B);
    }
  }

  lemma FeedRestarts(state: TerminalParser.State)
    requires Exit(state) != Ignore
    ensures Feed(state, 0x1B) == (Escape, [Event(Exit(state), None), Event(Clear, None)])
  {
    assert [Event(Exit(state), None)] + [] + [Event(Clear, None)]
        == [Event(Exit(state), None), Event(Clear, None)];
  }

  /** The control codes that break off whatever is being read, in every state. */
  predicate BreaksOff(ch: Char) {
    ch == 0x18 || ch == 0x1A || 0x80 <= ch <= 0x8F || 0x91 <= ch <= 0x97 || ch == 0x99 || ch == 0x9A
  }

  /** In every state such a code ends what is being read and runs. Only a title that it ends is set before. */
  lemma CodeBreaksOff(wc: Char -> Columns, e: Emulator, ch: Char)
    requires Shaped(e.screen) && BreaksOff(ch)
    ensures Step(wc, e, Character(ch)) == Ok(Emulator(Ground, e.keys,
      Dispatch(if e.state == OscString then DispatchOsc(e.screen, e.keys.osc) else e.screen, ControlTable(ch),
               ParseParams(e.keys.params))))
  {
    hide DispatchOsc, Shaped, Dispatch, ControlTable, ParseParams, Step, Feed, ActAll;
    var e0 := e.(state := Ground);
    var code := Event(Execute, Some(ch));
    if Exit(e.state) == Ignore {
      FeedActs(e.state, ch, Execute, Ground);
      StepOneEvent(wc, e, ch, Ground, code);
    } else {
      var exit := Event(Exit(e.state), None);
      FeedBreaks(e.state, ch);
      TwoEvents(wc, e0, exit, code);
      StepIs(wc, e, ch);
    }
  }

  lemma FeedBreaks(state: TerminalParser.State, ch: Char)
    requires BreaksOff(ch) && Exit(state) != Ignore
    ensures Feed(state, ch) == (Ground, [Event(Exit(state), None), Event(Execute, Some(ch))])
  {
    assert [Event(Exit(state), None)] + [Event(Execute, Some(ch))] + []
        == [Event(Exit(state), None), Event(Execute, Some(ch))];
  }

  lemma StepIs(wc: Char -> Columns, e: Emulator, ch: Char)
    requires Shaped(e.screen)
    ensures Step(wc, e, Character(ch)) == ActAll(wc, e.(state := Feed(e.state, ch).0), Feed(e.state, ch).1)
  {
    hide Shaped, Feed, ActAll;
  }

  lemma TwoEvents(wc: Char -> Columns, e: Emulator, a: Event, b: Event)
    requires Shaped(e.screen) && Act(wc, e, a).Ok?
    ensures ActAll(wc, e, [a, b]) == Act(wc, Act(wc, e, a).value, b)
  {
    hide Act, Shaped;
    var e1 := Act(wc, e, a).value;
    assert [a, b][1..] == [b] && [b][1..] == [];
    var r := Act(wc, e1, b);
    if r.Ok? {
      assert ActAll(wc, r.value, []) == Ok(r.value);
    }
    assert ActAll(wc, e1, [b]) == r;
  }

  // ---------------------------------------------------------------- escape sequences

  /** An escape sequence of one character does what the table says; from 0x40 to 0x5F it is the control code 0x40
      further on. */
  lemma EscapeRuns(wc: Char -> Columns, k: Keys, s: Screen, ch: Char)
    requires Shaped(s) && 0x30 <= ch <= 0x7E && ch !in {0x50, 0x58, 0x5B, 0x5D, 0x5E, 0x5F}
    ensures Reads(Type(wc, Emulator(Ground, k, s), [0x1B, ch]),
      if 0x40 <= ch <= 0x5F then Dispatch(s, ControlTable(ch + 0x40), ParseParams([]))
      else Dispatch(s, EscapeTable([ch]), ParseParams([])))
  {
    hide Shaped, Dispatch, ControlTable, EscapeTable, ParseParams, Step, Feed;
    var e0, e1 := Emulator(Ground, k, s), Emulator(Escape, Keys([], [], k.osc), s);
    StepIntroducer(wc, k, s);
    assert Input(Escape, ch) == To(EscDispatch, Ground);
    FeedActs(Escape, ch, EscDispatch, Ground);
    StepOneEvent(wc, e1, ch, Ground, Event(EscDispatch, Some(ch)));
    assert [] + [ch] == [ch];
    TypeOne(wc, e0, 0x1B);
    TypeOne(wc, e1, ch);
    TypeBoth(wc, e0, [0x1B], [ch]);
    assert [0x1B] + [ch] == [0x1B, ch];
  }

  // ---------------------------------------------------------------- titles

  predicate TitleText(text: seq<Char>) {
    forall i | 0 <= i < |text| :: Printable(text[i])
  }

  lemma {:induction false} TypeTitle(wc: Char -> Columns, k: Keys, s: Screen, text: seq<Char>)
    requires Shaped(s) && TitleText(text) && |k.osc| + |text| <= 256
    ensures Type(wc, Emulator(OscString, k, s), text) == Ok(Emulator(OscString, k.(osc := k.osc + text), s))
    decreases |text|
  {
    hide Shaped, Step, Feed;
    if text == [] {
      assert k.osc + text == k.osc;
    } else {
      var e := Emulator(OscString, k, s);
      StepTitle(wc, k, s, text[0]);
      assert k.osc + [text[0]] + text[1..] == k.osc + text;
      TypeTitle(wc, k.(osc := k.osc + [text[0]]), s, text[1..]);
    }
  }

  lemma StepTitle(wc: Char -> Columns, k: Keys, s: Screen, ch: Char)
    requires Shaped(s) && Printable(ch) && |k.osc| < 256
    ensures Step(wc, Emulator(OscString, k, s), Character(ch)) == Ok(Emulator(OscString, k.(osc := k.osc + [ch]), s))
  {
    hide Shaped, Step, Feed;
    assert Input(OscString, ch) == Stay(OscPut);
    assert Feed(OscString, ch) == (OscString, [Event(OscPut, Some(ch))]) by { FeedStays(OscString, ch, OscPut); }
    StepOneEvent(wc, Emulator(OscString, k, s), ch, OscString, Event(OscPut, Some(ch)));
  }

  lemma StartTitle(wc: Char -> Columns, k: Keys, s: Screen)
    requires Shaped(s)
    ensures Step(wc, Emulator(Escape, k, s), Character(0x5D)) == Ok(Emulator(OscString, k.(osc := []), s))
  {
    hide Shaped, Step, Feed, DispatchOsc, ActOn;
    FeedEnters(Escape, 0x5D, OscString);
    StepOneEvent(wc, Emulator(Escape, k, s), 0x5D, OscString, Event(OscStart, None));
  }

  lemma EndTitle(wc: Char -> Columns, k: Keys, s: Screen)
    requires Shaped(s)
    ensures Step(wc, Emulator(OscString, k, s), Character(0x07)) == Ok(Emulator(Ground, k, DispatchOsc(s, k.osc)))
  {
    hide Shaped, Step, Feed, DispatchOsc, ActOn;
    FeedExits(OscString, 0x07);
    StepOneEvent(wc, Emulator(OscString, k, s), 0x07, Ground, Event(OscEnd, None));
  }

  lemma FeedExits(state: TerminalParser.State, ch: Char)
    requires Input(state, ch) == To(Ignore, Ground) && Exit(state) != Ignore
    ensures Feed(state, ch) == (Ground, [Event(Exit(state), None)])
  {
    hide Input;
    assert [Event(Exit(state), None)] + [] + [] == [Event(Exit(state), None)];
  }

  /** The operating system command 0, 1 or 2 with a title of at most 254 characters sets the icon's name, the window's
      title, or both, to exactly that text, and changes nothing else. */
  lemma TitleRuns(wc: Char -> Columns, k: Keys, s: Screen, digit: Char, text: seq<Char>)
    requires Shaped(s) && 0x30 <= digit <= 0x32 && TitleText(text) && |text| <= 254
    ensures Reads(Type(wc, Emulator(Ground, k, s), [0x1B, 0x5D] + ([digit, SEMICOLON] + text) + [0x07]), s.(
      icon := if digit == 0x32 then s.icon else text, title := if digit == 0x31 then s.title else text))
  {
    hide Shaped, Step, Type, TitleText;
    var e0, e1 := Emulator(Ground, k, s), Emulator(Escape, Keys([], [], k.osc), s);
    var osc := [digit, SEMICOLON] + text;
    assert TitleText(osc) by { TitleMore(digit, text); }
    StepIntroducer(wc, k, s);
    TypeOne(wc, e0, 0x1B);
    StartTitle(wc, e1.keys, s);
    TypeOne(wc, e1, 0x5D);
    TypeBoth(wc, e0, [0x1B], [0x5D]);
    assert [0x1B] + [0x5D] == [0x1B, 0x5D];
    var e2 := Emulator(OscString, Keys([], [], []), s);
    TypeTitle(wc, e2.keys, s, osc);
    assert [] + osc == osc;
    TypeBoth(wc, e0, [0x1B, 0x5D], osc);
    var e3 := Emulator(OscString, Keys([], [], osc), s);
    EndTitle(wc, e3.keys, s);
    TypeOne(wc, e3, 0x07);
    TypeBoth(wc, e0, [0x1B, 0x5D] + osc, [0x07]);
    assert osc[2..] == text;
  }

  lemma TitleMore(digit: Char, text: seq<Char>)
    requires 0x30 <= digit <= 0x32 && TitleText(text)
    ensures TitleText([digit, SEMICOLON] + text)
  {
  }

  // ---------------------------------------------------------------- strings that are skipped

  /** A string meant for a device. */
  predicate InString(state: TerminalParser.State) {
    state in {DcsEntry, DcsParam, DcsIntermediate, DcsPassthrough, DcsIgnore, SosPmApcString}
  }

  predicate Quiet(e: Event) {
    e.action in {Clear, Collect, Param, Hook, Action.Put, Unhook}
  }

  lemma {:induction false} QuietActs(wc: Char -> Columns, e: Emulator, events: seq<Event>)
    requires Shaped(e.screen) && forall i | 0 <= i < |events| :: Quiet(events[i]) && EventOk(events[i])
    ensures var r := ActAll(wc, e, events); r.Ok? && r.value.screen == e.screen && r.value.state == e.state
    decreases |events|
  {
    hide Shaped;
    if events != [] {
      assert Quiet(events[0]) && EventOk(events[0]);
      var r := Act(wc, e, events[0]);
      assert r.Ok? && r.value.screen == e.screen && r.value.state == e.state;
      QuietActs(wc, r.value, events[1..]);
    }
  }

  /** A character that does not end a string, whatever else it is. */
  predicate Inside(ch: Char) {
    AnywhereRule(ch).next.None?
  }

  lemma StringFeeds(state: TerminalParser.State, ch: Char)
    requires InString(state)
    ensures Inside(ch) ==> InString(Feed(state, ch).0)
    ensures ch == 0x9C ==> Feed(state, ch).0 == Ground
    ensures Inside(ch) || ch == 0x9C ==> forall i | 0 <= i < |Feed(state, ch).1| :: Quiet(Feed(state, ch).1[i])
  {
  }

  lemma StringStep(wc: Char -> Columns, e: Emulator, ch: Char)
    requires Shaped(e.screen) && InString(e.state) && (Inside(ch) || ch == 0x9C)
    ensures var r := Step(wc, e, Character(ch));
      && r.Ok? && r.value.screen == e.screen
      && (Inside(ch) ==> InString(r.value.state)) && (ch == 0x9C ==> r.value.state == Ground)
  {
    hide Shaped, Feed, Quiet, EventOk, InString, ActAll, Inside;
    StringFeeds(e.state, ch);
    FeedIsOk(e.state, ch);
    var (state, events) := Feed(e.state, ch);
    QuietActs(wc, e.(state := state), events);
  }

  /** Device control strings and the strings of SOS, PM and APC are skipped as a whole: up to their terminator no
      character changes the screen. */
  lemma {:induction false} StringsAreSkipped(wc: Char -> Columns, e: Emulator, text: seq<Char>)
    requires Shaped(e.screen) && InString(e.state) && forall i | 0 <= i < |text| :: Inside(text[i])
    ensures Reads(Type(wc, e, text + [0x9C]), e.screen)
    decreases |text|
  {
    hide Shaped, Step, InString, Inside;
    if text == [] {
      assert text + [0x9C] == [0x9C];
      StringStep(wc, e, 0x9C);
      TypeOne(wc, e, 0x9C);
    } else {
      assert (text + [0x9C])[0] == text[0] && (text + [0x9C])[1..] == text[1..] + [0x9C];
      StringStep(wc, e, text[0]);
      var r := Step(wc, e, Character(text[0])).value;
      StringsAreSkipped(wc, r, text[1..]);
    }
  }
}
