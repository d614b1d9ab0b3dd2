/**
 * Control sequences as a whole: which strings after an escape and a bracket run a function, with which parameters, and
 * which are ignored (alfalfa/src/terminal/parserstate.cc, terminaldispatcher.cc).
 */
module ControlSequences {
  import opened Outcomes
  import opened TerminalParser
  import opened Screens
  import opened DisplayOps
  import opened ControlFunctions
  import opened Dispatchers
  import opened Emulators
  import opened DisplayText

  // ---------------------------------------------------------------- well-formed bodies

  predicate MarkChar(ch: Char) {
    0x3C <= ch <= 0x3F
  }

  predicate IntermediateChar(ch: Char) {
    0x20 <= ch <= 0x2F
  }

  /** At most one private mark, then parameters up to j, then intermediate characters. */
  predicate Splits(body: seq<Char>, i: nat, j: nat) {
    && i <= j <= |body| && i <= 1
    && (forall k | 0 <= k < i :: MarkChar(body[k]))
    && (forall k | i <= k < j :: ParamChar(body[k]))
    && (forall k | j <= k < |body| :: IntermediateChar(body[k]))
  }

  predicate WellFormed(body: seq<Char>) {
    exists i: nat, j: nat :: i <= j <= |body| && Splits(body, i, j)
  }

  lemma NotAfter(body: seq<Char>, i: nat, j: nat, k: nat, l: nat)
    requires Splits(body, i, j) && Splits(body, k, l)
    ensures i <= k && j <= l
  {
    var n := |body|;
    assert k < n ==> !MarkChar(body[k]);
    assert l < n && k <= l ==> !ParamChar(body[l]) && !MarkChar(body[l]);
  }

  lemma SplitsOnce(body: seq<Char>, i: nat, j: nat, k: nat, l: nat)
    requires Splits(body, i, j) && Splits(body, k, l)
    ensures i == k && j == l
  {
    NotAfter(body, i, j, k, l);
    NotAfter(body, k, l, i, j);
  }

  lemma WellFormedFront(body: seq<Char>, ch: Char)
    requires WellFormed(body + [ch])
    ensures WellFormed(body)
  {
    var i: nat, j: nat :| i <= j <= |body + [ch]| && Splits(body + [ch], i, j);
    var n := |body|;
    assert forall k | 0 <= k < n :: body[k] == (body + [ch])[k];
    assert Splits(body, if i <= n then i else n, if j <= n then j else n);
  }

  function Capped(s: seq<Char>, n: nat): seq<Char> {
    if |s| <= n then s else s[..n]
  }

  lemma CappedMore(s: seq<Char>, ch: Char, n: nat)
    ensures Capped(s + [ch], n) == if |Capped(s, n)| < n then Capped(s, n) + [ch] else Capped(s, n)
  {
  }

  /** What is collected of a body: at most 100 characters of parameters, and at most 8 others. */
  function Collected(body: seq<Char>, i: nat, j: nat, osc: seq<Char>): Keys
    requires i <= j <= |body|
  {
    Keys(Capped(body[i..j], 100), Capped(body[..i] + body[j..], 8), osc)
  }

  // ---------------------------------------------------------------- reading a body

  /** Where the parser is once it has read a body. */
  ghost predicate Has(e: Emulator, body: seq<Char>, osc: seq<Char>) {
    match e.state
    case CsiEntry => body == [] && e.keys == Keys([], [], osc)
    case CsiParam => body != [] && exists i: nat ::
      i <= |body| && Splits(body, i, |body|) && e.keys == Collected(body, i, |body|, osc)
    case CsiIntermediate => exists i: nat, j: nat ::
      i <= j < |body| && Splits(body, i, j) && e.keys == Collected(body, i, j, osc)
    case CsiIgnore => !WellFormed(body)
    case _ => false
  }

  lemma FeedSilent(state: TerminalParser.State, ch: Char, next: TerminalParser.State)
    requires Exit(state) == Ignore && Enter(next) == Ignore
    requires Input(state, ch) == To(Ignore, next) || (Input(state, ch) == Stay(Ignore) && next == state)
    ensures Feed(state, ch) == (next, [])
  {
    hide Input;
    var none: seq<Event> := [];
    assert none + none + none == none;
  }

  lemma StepSilent(wc: Char -> Columns, e: Emulator, ch: Char, next: TerminalParser.State)
    requires Shaped(e.screen) && Exit(e.state) == Ignore && Enter(next) == Ignore
    requires Input(e.state, ch) == To(Ignore, next) || (Input(e.state, ch) == Stay(Ignore) && next == e.state)
    ensures Step(wc, e, Character(ch)) == Ok(e.(state := next))
  {
    hide Input, Shaped;
    FeedSilent(e.state, ch, next);
  }

  lemma StepCollects(wc: Char -> Columns, e: Emulator, ch: Char, next: TerminalParser.State, action: Action)
    requires Shaped(e.screen) && Exit(e.state) == Ignore && Enter(next) == Ignore
    requires (action == Param && ParamChar(ch)) || action == Collect
    requires Input(e.state, ch) == To(action, next) || (Input(e.state, ch) == Stay(action) && next == e.state)
    ensures Step(wc, e, Character(ch))
         == Ok(Emulator(next, if action == Param then AddParam(e.keys, ch) else AddKey(e.keys, ch), e.screen))
  {
    hide Input, Shaped, Feed, Step;
    FeedActs(e.state, ch, action, next);
    StepOneEvent(wc, e, ch, next, Event(action, Some(ch)));
  }

  /** One character that is no control code and does not end the sequence. */
  predicate BodyChar(ch: Char) {
    0x20 <= ch <= 0x3F
  }

  lemma MarkSplits(ch: Char, osc: seq<Char>)
    requires MarkChar(ch)
    ensures Splits([ch], 1, 1) && Collected([ch], 1, 1, osc) == AddKey(Keys([], [], osc), ch)
  {
    var body := [ch];
    assert body[1..1] == [] && body[..1] + body[1..] == [ch];
  }

  lemma ParamSplits(body: seq<Char>, i: nat, ch: Char, osc: seq<Char>)
    requires ParamChar(ch) && i <= |body| && Splits(body, i, |body|)
    ensures Splits(body + [ch], i, |body| + 1)
    ensures Collected(body + [ch], i, |body| + 1, osc) == AddParam(Collected(body, i, |body|, osc), ch)
  {
    var more, n := body + [ch], |body|;
    assert more[i..n + 1] == body[i..n] + [ch];
    assert more[..i] + more[n + 1..] == body[..i] + body[n..];
    CappedMore(body[i..n], ch, 100);
  }

  lemma IntermediateSplits(body: seq<Char>, i: nat, j: nat, ch: Char, osc: seq<Char>)
    requires IntermediateChar(ch) && i <= j <= |body| && Splits(body, i, j)
    ensures Splits(body + [ch], i, j)
    ensures Collected(body + [ch], i, j, osc) == AddKey(Collected(body, i, j, osc), ch)
  {
    var more := body + [ch];
    assert more[i..j] == body[i..j];
    assert more[..i] + more[j..] == body[..i] + body[j..] + [ch];
    CappedMore(body[..i] + body[j..], ch, 8);
  }

  /** A colon, a mark that is not first, and a parameter behind an intermediate character break a sequence. */
  lemma Breaks(body: seq<Char>, i: nat, j: nat, ch: Char)
    requires Splits(body, i, j) && BodyChar(ch) && !IntermediateChar(ch)
    requires ch == 0x3A || (MarkChar(ch) && body != []) || j < |body|
    ensures !WellFormed(body + [ch])
  {
    var more, n := body + [ch], |body|;
    assert more[n] == ch;
    assert j < n ==> IntermediateChar(more[j]);
    forall k: nat, l: nat | k <= l <= |more|
      ensures !Splits(more, k, l)
    {
    }
  }

  lemma ReadEntry(wc: Char -> Columns, e: Emulator, osc: seq<Char>, ch: Char) returns (e1: Emulator)
    requires Shaped(e.screen) && e.state == CsiEntry && Has(e, [], osc) && BodyChar(ch)
    ensures Step(wc, e, Character(ch)) == Ok(e1) && e1.screen == e.screen && Has(e1, [ch], osc)
  {
    hide Step, Shaped, Splits, WellFormed, Collected, AddParam, AddKey;
    assert Splits([], 0, 0) && Collected([], 0, 0, osc) == Keys([], [], osc) by { EmptySplits(osc); }
    assert [] + [ch] == [ch];
    if ParamChar(ch) {
      StepCollects(wc, e, ch, CsiParam, Param);
      ParamSplits([], 0, ch, osc);
    } else if MarkChar(ch) {
      StepCollects(wc, e, ch, CsiParam, Collect);
      MarkSplits(ch, osc);
    } else if IntermediateChar(ch) {
      StepCollects(wc, e, ch, CsiIntermediate, Collect);
      IntermediateSplits([], 0, 0, ch, osc);
    } else {
      StepSilent(wc, e, ch, CsiIgnore);
      Breaks([], 0, 0, ch);
    }
    e1 := Step(wc, e, Character(ch)).value;
  }

  lemma EmptySplits(osc: seq<Char>)
    ensures Splits([], 0, 0) && Collected([], 0, 0, osc) == Keys([], [], osc)
  {
    var none: seq<Char> := [];
    assert none[0..0] == [] && none[..0] + none[0..] == [];
  }

  lemma ReadParam(wc: Char -> Columns, e: Emulator, body: seq<Char>, osc: seq<Char>, ch: Char) returns (e1: Emulator)
    requires Shaped(e.screen) && e.state == CsiParam && Has(e, body, osc) && BodyChar(ch)
    ensures Step(wc, e, Character(ch)) == Ok(e1) && e1.screen == e.screen && Has(e1, body + [ch], osc)
  {
    hide Step, Shaped, Splits, WellFormed, Collected, AddParam, AddKey;
    var i: nat :| i <= |body| && Splits(body, i, |body|) && e.keys == Collected(body, i, |body|, osc);
    if ParamChar(ch) {
      StepCollects(wc, e, ch, CsiParam, Param);
      ParamSplits(body, i, ch, osc);
    } else if IntermediateChar(ch) {
      StepCollects(wc, e, ch, CsiIntermediate, Collect);
      IntermediateSplits(body, i, |body|, ch, osc);
    } else {
      StepSilent(wc, e, ch, CsiIgnore);
      Breaks(body, i, |body|, ch);
    }
    e1 := Step(wc, e, Character(ch)).value;
  }

  lemma ReadIntermediate(wc: Char -> Columns, e: Emulator, body: seq<Char>, osc: seq<Char>, ch: Char)
    returns (e1: Emulator)
    requires Shaped(e.screen) && e.state == CsiIntermediate && Has(e, body, osc) && BodyChar(ch)
    ensures Step(wc, e, Character(ch)) == Ok(e1) && e1.screen == e.screen && Has(e1, body + [ch], osc)
  {
    hide Step, Shaped, Splits, WellFormed, Collected, AddParam, AddKey;
    var i: nat, j: nat :| i <= j < |body| && Splits(body, i, j) && e.keys == Collected(body, i, j, osc);
    if IntermediateChar(ch) {
      StepCollects(wc, e, ch, CsiIntermediate, Collect);
      IntermediateSplits(body, i, j, ch, osc);
    } else {
      StepSilent(wc, e, ch, CsiIgnore);
      Breaks(body, i, j, ch);
    }
    e1 := Step(wc, e, Character(ch)).value;
  }

  lemma ReadIgnored(wc: Char -> Columns, e: Emulator, body: seq<Char>, osc: seq<Char>, ch: Char)
    requires Shaped(e.screen) && e.state == CsiIgnore && Has(e, body, osc) && BodyChar(ch)
    ensures Step(wc, e, Character(ch)) == Ok(e) && Has(e, body + [ch], osc)
  {
    hide Step, Shaped, WellFormed;
    StepSilent(wc, e, ch, CsiIgnore);
    if WellFormed(body + [ch]) {
      WellFormedFront(body, ch);
    }
  }

  // ---------------------------------------------------------------- control codes in between

  /** A character that neither ends the sequence nor breaks it off. */
  predicate InnerChar(ch: Char) {
    BodyChar(ch) || C0Prime(ch) || ch == 0x7F
  }

  /** The characters of a text that belong to the sequence. */
  function BodyOf(text: seq<Char>): (r: seq<Char>)
    ensures forall i | 0 <= i < |r| :: BodyChar(r[i])
  {
    if text == [] then []
    else BodyOf(text[..|text| - 1]) + if BodyChar(text[|text| - 1]) then [text[|text| - 1]] else []
  }

  /** The screen after the control codes in a text. */
  function AfterCodes(s: Screen, text: seq<Char>): (r: Screen)
    requires Shaped(s)
    ensures Shaped(r)
  {
    if text == [] then s
    else
      var r := AfterCodes(s, text[..|text| - 1]);
      if C0Prime(text[|text| - 1]) then Dispatch(r, ControlTable(text[|text| - 1]), []) else r
  }

  lemma {:induction false} ReadText(wc: Char -> Columns, e: Emulator, osc: seq<Char>, text: seq<Char>)
    returns (e1: Emulator)
    requires Shaped(e.screen) && e.state == CsiEntry && Has(e, [], osc)
    requires forall i | 0 <= i < |text| :: InnerChar(text[i])
    ensures Type(wc, e, text) == Ok(e1) && e1.screen == AfterCodes(e.screen, text) && Has(e1, BodyOf(text), osc)
    decreases |text|
  {
    hide Type, Shaped, Has, Step, InnerChar, BodyChar, C0Prime, Dispatch, ControlTable;
    if text == [] {
      TypeNothing(wc, e);
      e1 := e;
    } else {
      var n := |text| - 1;
      var front, ch := text[..n], text[n];
      e1 := ReadText(wc, e, osc, front);
      TypeBoth(wc, e, front, [ch]);
      TypeOne(wc, e1, ch);
      assert front + [ch] == text;
      e1 := ReadOne(wc, e1, BodyOf(front), osc, ch);
    }
  }

  /** One character more: it belongs to the sequence, is a control code that runs at once, or is skipped. */
  lemma ReadOne(wc: Char -> Columns, e: Emulator, body: seq<Char>, osc: seq<Char>, ch: Char) returns (e1: Emulator)
    requires Shaped(e.screen) && Has(e, body, osc) && InnerChar(ch)
    ensures Step(wc, e, Character(ch)) == Ok(e1)
    ensures e1.screen == if C0Prime(ch) then Dispatch(e.screen, ControlTable(ch), []) else e.screen
    ensures Has(e1, body + if BodyChar(ch) then [ch] else [], osc)
  {
    hide Step, Shaped, Splits, WellFormed, Collected, Dispatch, ControlTable;
    if BodyChar(ch) {
      e1 := ReadNext(wc, e, body, osc, ch);
    } else {
      assert body + [] == body;
      if C0Prime(ch) {
        e1 := e.(screen := Dispatch(e.screen, ControlTable(ch), []));
        CodeRuns(wc, e, ch);
      } else {
        e1 := e;
        StepSkips(wc, e, ch);
      }
    }
  }

  lemma StepSkips(wc: Char -> Columns, e: Emulator, ch: Char)
    requires Shaped(e.screen) && Input(e.state, ch) == Stay(Ignore)
    ensures Step(wc, e, Character(ch)) == Ok(e)
  {
    hide Input, Shaped;
  }

  /** In a sequence a control code runs at once, and the sequence goes on. */
  lemma CodeRuns(wc: Char -> Columns, e: Emulator, ch: Char)
    requires Shaped(e.screen) && C0Prime(ch)
    requires e.state in {Ground, Escape, EscapeIntermediate, CsiEntry, CsiParam, CsiIntermediate, CsiIgnore}
    ensures Step(wc, e, Character(ch)) == Ok(e.(screen := Dispatch(e.screen, ControlTable(ch), [])))
  {
    hide Step, Feed, Shaped, Dispatch, ControlTable, ParseParams;
    FeedStays(e.state, ch, Execute);
    StepOneEvent(wc, e, ch, e.state, Event(Execute, Some(ch)));
    CodesTakeNoParameters(e.screen, ch, ParseParams(e.keys.params));
  }

  lemma CodesTakeNoParameters(s: Screen, ch: Char, p: seq<int>)
    requires Shaped(s)
    ensures Dispatch(s, ControlTable(ch), p) == Dispatch(s, ControlTable(ch), [])
  {
    hide Shaped, Perform, PerformControl;
    var f := ControlTable(ch);
    if f.Some? {
      var t := if ClearsWrap(f.value) then CancelWrap(s) else s;
      assert Shaped(t);
      PerformsCode(t, f.value, p);
      PerformsCode(t, f.value, []);
    }
  }

  lemma PerformsCode(s: Screen, f: Fn, p: seq<int>)
    requires Shaped(s) && f in {LF, CR, BS, RI, NEL, HT, HTS, BEL}
    ensures Perform(s, f, p) == PerformControl(s, f)
  {
    hide Shaped, PerformControl;
  }

  lemma ReadNext(wc: Char -> Columns, e: Emulator, body: seq<Char>, osc: seq<Char>, ch: Char) returns (e1: Emulator)
    requires Shaped(e.screen) && Has(e, body, osc) && BodyChar(ch)
    ensures Step(wc, e, Character(ch)) == Ok(e1) && e1.screen == e.screen && Has(e1, body + [ch], osc)
  {
    hide Step, Shaped, Splits, WellFormed, Collected, BodyChar;
    if e.state == CsiEntry {
      assert body + [ch] == [ch];
      e1 := ReadEntry(wc, e, osc, ch);
    } else if e.state == CsiParam {
      e1 := ReadParam(wc, e, body, osc, ch);
    } else if e.state == CsiIntermediate {
      e1 := ReadIntermediate(wc, e, body, osc, ch);
    } else {
      ReadIgnored(wc, e, body, osc, ch);
      e1 := e;
    }
  }

  // ---------------------------------------------------------------- the whole sequence

  /** The screen that a sequence of this body and final character leaves. */
  ghost predicate Leaves(s: Screen, body: seq<Char>, final: Char, r: Screen)
    requires Shaped(s)
  {
    && (!WellFormed(body) ==> r == s)
    && forall i: nat, j: nat | i <= j <= |body| && Splits(body, i, j) ::
      r == Dispatch(s, CsiTable(Capped(body[..i] + body[j..] + [final], 8)), ParseParams(Capped(body[i..j], 100)))
  }

  lemma EndCollected(wc: Char -> Columns, e: Emulator, body: seq<Char>, osc: seq<Char>, i: nat, j: nat, final: Char)
    returns (r: Screen)
    requires Shaped(e.screen) && e.state in {CsiEntry, CsiParam, CsiIntermediate} && 0x40 <= final <= 0x7E
    requires i <= j <= |body| && Splits(body, i, j) && e.keys == Collected(body, i, j, osc)
    ensures Reads(Step(wc, e, Character(final)), r) && Leaves(e.screen, body, final, r)
  {
    hide Step, Shaped, Splits, Dispatch, CsiTable, ParseParams, Feed;
    FeedActs(e.state, final, CsiDispatch, Ground);
    StepOneEvent(wc, e, final, Ground, Event(CsiDispatch, Some(final)));
    CappedMore(body[..i] + body[j..], final, 8);
    r := Dispatch(e.screen, CsiTable(Capped(body[..i] + body[j..] + [final], 8)), ParseParams(Capped(body[i..j], 100)));
    forall k: nat, l: nat | k <= l <= |body| && Splits(body, k, l)
      ensures k == i && l == j
    {
      SplitsOnce(body, i, j, k, l);
    }
    assert WellFormed(body);
  }

  lemma EndSequence(wc: Char -> Columns, e: Emulator, body: seq<Char>, osc: seq<Char>, final: Char)
    returns (r: Screen)
    requires Shaped(e.screen) && Has(e, body, osc) && 0x40 <= final <= 0x7E
    ensures Reads(Step(wc, e, Character(final)), r) && Leaves(e.screen, body, final, r)
  {
    hide Step, Shaped, Splits, Collected, Dispatch, CsiTable, ParseParams;
    if e.state == CsiIgnore {
      r := e.screen;
      StepSilent(wc, e, final, Ground);
    } else if e.state == CsiEntry {
      EmptySplits(osc);
      r := EndCollected(wc, e, body, osc, 0, 0, final);
    } else if e.state == CsiParam {
      var i: nat :| i <= |body| && Splits(body, i, |body|) && e.keys == Collected(body, i, |body|, osc);
      r := EndCollected(wc, e, body, osc, i, |body|, final);
    } else {
      var i: nat, j: nat :| i <= j < |body| && Splits(body, i, j) && e.keys == Collected(body, i, j, osc);
      r := EndCollected(wc, e, body, osc, i, j, final);
    }
  }

  /** Every control sequence: the control codes in it run first. Then, if what is left is well-formed, the function of
      its mark, intermediate and final characters runs with the numbers of its parameters; if not, nothing more
      happens. */
  lemma SequenceLeaves(wc: Char -> Columns, k: Keys, s: Screen, text: seq<Char>, final: Char) returns (r: Screen)
    requires Shaped(s) && 0x40 <= final <= 0x7E && forall i | 0 <= i < |text| :: InnerChar(text[i])
    ensures Reads(Type(wc, Emulator(Ground, k, s), [0x1B, 0x5B] + text + [final]), r)
    ensures Leaves(AfterCodes(s, text), BodyOf(text), final, r)
  {
    hide Type, Shaped, Step, Has, Leaves, BodyChar, InnerChar, AfterCodes, BodyOf;
    var e0 := Emulator(Ground, k, s);
    TypeIntroducer(wc, k, s, []);
    assert [0x1B, 0x5B] + [] == [0x1B, 0x5B];
    var e1 := Emulator(CsiEntry, Keys([], [], k.osc), s);
    assert Has(e1, [], k.osc) by { StartHas(e1, k.osc); }
    var e2 := ReadText(wc, e1, k.osc, text);
    TypeBoth(wc, e0, [0x1B, 0x5B], text);
    r := EndSequence(wc, e2, BodyOf(text), k.osc, final);
    TypeOne(wc, e2, final);
    TypeBoth(wc, e0, [0x1B, 0x5B] + text, [final]);
  }

  lemma StartHas(e: Emulator, osc: seq<Char>)
    requires e.state == CsiEntry && e.keys == Keys([], [], osc)
    ensures Has(e, [], osc)
  {
  }

  // ---------------------------------------------------------------- escape sequences

  /** After an escape character and some intermediate ones. */
  lemma {:induction false} ReadIntermediates(wc: Char -> Columns, k: Keys, s: Screen, inter: seq<Char>)
    requires Shaped(s) && forall i | 0 <= i < |inter| :: IntermediateChar(inter[i])
    ensures Type(wc, Emulator(Ground, k, s), [0x1B] + inter)
         == Ok(Emulator(if inter == [] then Escape else EscapeIntermediate, Keys([], Capped(inter, 8), k.osc), s))
    decreases |inter|
  {
    hide Shaped, Step, Type;
    var e0 := Emulator(Ground, k, s);
    if inter == [] {
      assert [0x1B] + inter == [0x1B];
      TypeOne(wc, e0, 0x1B);
      StepIntroducer(wc, k, s);
    } else {
      var n := |inter| - 1;
      var front, ch := inter[..n], inter[n];
      ReadIntermediates(wc, k, s, front);
      var e1 := Type(wc, e0, [0x1B] + front).value;
      StepCollects(wc, e1, ch, EscapeIntermediate, Collect);
      TypeOne(wc, e1, ch);
      TypeBoth(wc, e0, [0x1B] + front, [ch]);
      assert [0x1B] + front + [ch] == [0x1B] + inter && front + [ch] == inter;
      CappedMore(front, ch, 8);
    }
  }

  /** Every escape sequence with intermediate characters runs the function of these and the final one, or cancels a
      pending wrap if there is none. */
  lemma EscapeSequenceRuns(wc: Char -> Columns, k: Keys, s: Screen, inter: seq<Char>, final: Char)
    requires Shaped(s) && inter != [] && (forall i | 0 <= i < |inter| :: IntermediateChar(inter[i]))
    requires 0x30 <= final <= 0x7E
    ensures Reads(Type(wc, Emulator(Ground, k, s), [0x1B] + inter + [final]),
                  Dispatch(s, EscapeTable(Capped(inter + [final], 8)), ParseParams([])))
  {
    hide Shaped, Step, Type, Feed, Dispatch, EscapeTable, ParseParams;
    ReadIntermediates(wc, k, s, inter);
    var e0, e1 := Emulator(Ground, k, s), Emulator(EscapeIntermediate, Keys([], Capped(inter, 8), k.osc), s);
    FeedActs(EscapeIntermediate, final, EscDispatch, Ground);
    StepOneEvent(wc, e1, final, Ground, Event(EscDispatch, Some(final)));
    CappedMore(inter, final, 8);
    TypeOne(wc, e1, final);
    TypeBoth(wc, e0, [0x1B] + inter, [final]);
  }

  // ---------------------------------------------------------------- from the middle

  /** A character that does not end an ignored sequence and is no control code. */
  predicate IgnoredChar(ch: Char) {
    0x20 <= ch <= 0x3F || ch == 0x7F
  }

  /** Once a sequence is ignored, everything up to its final character is, and that too. */
  lemma {:induction false} IgnoredToTheEnd(wc: Char -> Columns, e: Emulator, text: seq<Char>, final: Char)
    requires Shaped(e.screen) && e.state == CsiIgnore && forall i | 0 <= i < |text| :: IgnoredChar(text[i])
    requires 0x40 <= final <= 0x7E || 0xA0 <= final
    ensures Reads(Type(wc, e, text + [final]), e.screen)
    decreases |text|
  {
    hide Shaped, Step;
    if text == [] {
      assert text + [final] == [final];
      StepSilent(wc, e, final, Ground);
      TypeOne(wc, e, final);
    } else {
      assert (text + [final])[0] == text[0] && (text + [final])[1..] == text[1..] + [final];
      StepSilent(wc, e, text[0], CsiIgnore);
      IgnoredToTheEnd(wc, e, text[1..], final);
    }
  }
}
