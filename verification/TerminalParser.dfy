/**
 * The VT parser's state machine (alfalfa/src/terminal/parserstate.cc, parser.cc):
 * from characters to actions.
 */
module TerminalParser {
  import opened Outcomes

  type Char = nat

  datatype State =
    | Ground | Escape | EscapeIntermediate
    | CsiEntry | CsiParam | CsiIntermediate | CsiIgnore
    | DcsEntry | DcsParam | DcsIntermediate | DcsPassthrough | DcsIgnore
    | OscString | SosPmApcString

  datatype Action =
    | Ignore | Print | Execute | Clear | Collect | Param | EscDispatch | CsiDispatch
    | Hook | Put | Unhook | OscStart | OscPut | OscEnd

  datatype Transition = Transition(action: Action, next: Option<State>)

  function To(action: Action, next: State): Transition {
    Transition(action, Some(next))
  }

  function Stay(action: Action): Transition {
    Transition(action, None)
  }

  predicate C0Prime(ch: Char) {
    ch <= 0x17 || ch == 0x19 || 0x1C <= ch <= 0x1F
  }

  predicate GlGr(ch: Char) {
    0x20 <= ch <= 0x7F || 0xA0 <= ch <= 0xFF
  }

  predicate ParamChar(ch: Char) {
    0x30 <= ch <= 0x39 || ch == 0x3B
  }

  function AnywhereRule(ch: Char): Transition {
    if ch == 0x18 || ch == 0x1A || 0x80 <= ch <= 0x8F || 0x91 <= ch <= 0x97 || ch == 0x99 || ch == 0x9A then
      To(Execute, Ground)
    else if ch == 0x9C then To(Ignore, Ground)
    else if ch == 0x1B then To(Ignore, Escape)
    else if ch == 0x98 || ch == 0x9E || ch == 0x9F then To(Ignore, SosPmApcString)
    else if ch == 0x90 then To(Ignore, DcsEntry)
    else if ch == 0x9D then To(Ignore, OscString)
    else if ch == 0x9B then To(Ignore, CsiEntry)
    else Stay(Ignore)
  }

  function EscapeRule(ch: Char): Transition {
    if C0Prime(ch) then Stay(Execute)
    else if 0x20 <= ch <= 0x2F then To(Collect, EscapeIntermediate)
    else if
      || 0x30 <= ch <= 0x4F || 0x51 <= ch <= 0x57 || ch == 0x59 || ch == 0x5A || ch == 0x5C
      || 0x60 <= ch <= 0x7E then
      To(EscDispatch, Ground)
    else if ch == 0x5B then To(Ignore, CsiEntry)
    else if ch == 0x5D then To(Ignore, OscString)
    else if ch == 0x50 then To(Ignore, DcsEntry)
    else if ch == 0x58 || ch == 0x5E || ch == 0x5F then To(Ignore, SosPmApcString)
    else Stay(Ignore)
  }

  function EscapeIntermediateRule(ch: Char): Transition {
    if C0Prime(ch) then Stay(Execute)
    else if 0x20 <= ch <= 0x2F then Stay(Collect)
    else if 0x30 <= ch <= 0x7E then To(EscDispatch, Ground)
    else Stay(Ignore)
  }

  function CsiEntryRule(ch: Char): Transition {
    if C0Prime(ch) then Stay(Execute)
    else if 0x40 <= ch <= 0x7E then To(CsiDispatch, Ground)
    else if ParamChar(ch) then To(Param, CsiParam)
    else if 0x3C <= ch <= 0x3F then To(Collect, CsiParam)
    else if ch == 0x3A then To(Ignore, CsiIgnore)
    else if 0x20 <= ch <= 0x2F then To(Collect, CsiIntermediate)
    else Stay(Ignore)
  }

  function CsiParamRule(ch: Char): Transition {
    if C0Prime(ch) then Stay(Execute)
    else if ParamChar(ch) then Stay(Param)
    else if ch == 0x3A || 0x3C <= ch <= 0x3F then To(Ignore, CsiIgnore)
    else if 0x20 <= ch <= 0x2F then To(Collect, CsiIntermediate)
    else if 0x40 <= ch <= 0x7E then To(CsiDispatch, Ground)
    else Stay(Ignore)
  }

  function CsiIntermediateRule(ch: Char): Transition {
    if C0Prime(ch) then Stay(Execute)
    else if 0x20 <= ch <= 0x2F then Stay(Collect)
    else if 0x40 <= ch <= 0x7E then To(CsiDispatch, Ground)
    else if 0x30 <= ch <= 0x3F then To(Ignore, CsiIgnore)
    else Stay(Ignore)
  }

  function CsiIgnoreRule(ch: Char): Transition {
    if C0Prime(ch) then Stay(Execute)
    else if 0x40 <= ch <= 0x7E then To(Ignore, Ground)
    else Stay(Ignore)
  }

  function DcsEntryRule(ch: Char): Transition {
    if 0x20 <= ch <= 0x2F then To(Collect, DcsIntermediate)
    else if ch == 0x3A then To(Ignore, DcsIgnore)
    else if ParamChar(ch) then To(Param, DcsParam)
    else if 0x3C <= ch <= 0x3F then To(Collect, DcsParam)
    else if 0x40 <= ch <= 0x7E then To(Ignore, DcsPassthrough)
    else Stay(Ignore)
  }

  function DcsParamRule(ch: Char): Transition {
    if ParamChar(ch) then Stay(Param)
    else if ch == 0x3A || 0x3C <= ch <= 0x3F then To(Ignore, DcsIgnore)
    else if 0x20 <= ch <= 0x2F then To(Collect, DcsIntermediate)
    else if 0x40 <= ch <= 0x7E then To(Ignore, DcsPassthrough)
    else Stay(Ignore)
  }

  function DcsIntermediateRule(ch: Char): Transition {
    if 0x20 <= ch <= 0x2F then Stay(Collect)
    else if 0x40 <= ch <= 0x7E then To(Ignore, DcsPassthrough)
    else if 0x30 <= ch <= 0x3F then To(Ignore, DcsIgnore)
    else Stay(Ignore)
  }

  function InputRule(state: State, ch: Char): Transition {
    match state
    case Ground => if C0Prime(ch) then Stay(Execute) else if GlGr(ch) then Stay(Print) else Stay(Ignore)
    case Escape => EscapeRule(ch)
    case EscapeIntermediate => EscapeIntermediateRule(ch)
    case CsiEntry => CsiEntryRule(ch)
    case CsiParam => CsiParamRule(ch)
    case CsiIntermediate => CsiIntermediateRule(ch)
    case CsiIgnore => CsiIgnoreRule(ch)
    case DcsEntry => DcsEntryRule(ch)
    case DcsParam => DcsParamRule(ch)
    case DcsIntermediate => DcsIntermediateRule(ch)
    case DcsPassthrough =>
      if C0Prime(ch) || 0x20 <= ch <= 0x7E then Stay(Put) else if ch == 0x9C then To(Ignore, Ground) else Stay(Ignore)
    case DcsIgnore => if ch == 0x9C then To(Ignore, Ground) else Stay(Ignore)
    case OscString =>
      if 0x20 <= ch <= 0x7F then Stay(OscPut) else if ch == 0x9C || ch == 0x07 then To(Ignore, Ground) else Stay(Ignore)
    case SosPmApcString => if ch == 0x9C then To(Ignore, Ground) else Stay(Ignore)
  }

  /** Characters beyond the C1 set are treated as a letter, whatever they are. */
  function Input(state: State, ch: Char): Transition {
    var anywhere := AnywhereRule(ch);
    if anywhere.next.Some? then anywhere
    else if ch >= 0xA0 then InputRule(state, 0x41)
    else InputRule(state, ch)
  }

  function Enter(state: State): Action {
    match state
    case Escape | CsiEntry | DcsEntry => Clear
    case DcsPassthrough => Hook
    case OscString => OscStart
    case _ => Ignore
  }

  function Exit(state: State): Action {
    match state
    case DcsPassthrough => Unhook
    case OscString => OscEnd
    case _ => Ignore
  }

  /** An action to be carried out, and the character that caused it where it has one. */
  datatype Event = Event(action: Action, ch: Option<Char>)

  function Unless(action: Action, ch: Option<Char>): seq<Event> {
    if action == Ignore then [] else [Event(action, ch)]
  }

  /** The actions one character causes, and the state it leads to. */
  function Feed(state: State, ch: Char): (State, seq<Event>) {
    var t := Input(state, ch);
    match t.next
    case None => (state, Unless(t.action, Some(ch)))
    case Some(next) => (next, Unless(Exit(state), None) + Unless(t.action, Some(ch)) + Unless(Enter(next), None))
  }

  /** A character that prints in the ground state. */
  predicate Printable(ch: Char) {
    0x20 <= ch <= 0x7F || 0xA0 <= ch
  }

  /** Characters are printed only in the ground state, and then that is all they cause. */
  lemma FeedPrints(state: State, ch: Char)
    ensures state == Ground && Printable(ch) ==> Feed(state, ch) == (Ground, [Event(Print, Some(ch))])
    ensures !(state == Ground && Printable(ch)) ==> forall e | e in Feed(state, ch).1 :: e.action != Print
  {
    hide Feed;
    InputPrints(state, ch);
    FeedIs(state, ch);
  }

  lemma InputPrints(state: State, ch: Char)
    ensures if state == Ground && Printable(ch) then Input(state, ch) == Stay(Print)
            else Input(state, ch).action != Print
    ensures Enter(state) != Print && Exit(state) != Print
  {
  }

  lemma FeedIs(state: State, ch: Char)
    ensures Input(state, ch).next.None? ==> Feed(state, ch) == (state, Unless(Input(state, ch).action, Some(ch)))
    ensures forall e | e in Feed(state, ch).1 ::
      e.action == Input(state, ch).action || e.action == Exit(state) || (exists next :: e.action == Enter(next))
  {
    hide Input;
  }

  // ---------------------------------------------------------------- what dispatch relies on

  /** Actions that need a character have one; parameter characters and control codes are what they should be. */
  predicate EventOk(e: Event) {
    match e.action
    case Print | Collect | OscPut | CsiDispatch | EscDispatch => e.ch.Some?
    case Param => e.ch.Some? && ParamChar(e.ch.value)
    case Execute => e.ch.Some? && e.ch.value <= 255
    case _ => true
  }

  lemma InputIsOk(state: State, ch: Char)
    ensures EventOk(Event(Input(state, ch).action, Some(ch)))
  {
  }

  /** In every state, whatever the character, every action satisfies what its handler asserts. */
  lemma FeedIsOk(state: State, ch: Char)
    ensures forall e | e in Feed(state, ch).1 :: EventOk(e)
  {
    hide Input, EventOk;
    InputIsOk(state, ch);
    EnterExitOk(state);
    if Input(state, ch).next.Some? {
      EnterExitOk(Input(state, ch).next.value);
    }
  }

  lemma EnterExitOk(state: State)
    ensures EventOk(Event(Enter(state), None)) && EventOk(Event(Exit(state), None))
  {
  }
}
