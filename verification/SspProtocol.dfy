/** Two transports joined by a network that loses, duplicates, delays and reorders.

    A run is a sequence of steps of either party. The network is the set of all instructions
    ever sent: delivering one leaves it there (duplication), delivering none is loss, and any
    order is allowed. Beside the two endpoints the system keeps, for each direction, a ledger of
    what really happened: everything the user pushed, how much of it each state number stood for
    when the sender recorded it, and everything the reading side has been handed. */
module SspProtocol {
  import opened Outcomes
  import opened UserStreams
  import opened TransportSenders
  import opened Transports

  /** `hist[n]` is the length of the logical stream recorded under number n; `cut` and `readCut`
      are the lengths of the prefixes that the sender and the receiver have dropped. */
  datatype Ledger =
    Ledger(pushed: Stream, hist: map<nat, nat>, cut: nat, readCut: nat, delivered: Stream)

  datatype Endpoint = Endpoint(sender: SenderState, receiver: ReceiverState)

  /** `ab` holds the instructions sent by a; `la` is the ledger of the direction from a to b. Each
      party reads a clock of its own: `clockA` is the latest reading at a, and `clockB` that at b. */
  datatype System = System(a: Endpoint, b: Endpoint, ab: set<Instruction>, ba: set<Instruction>,
                           la: Ledger, lb: Ledger, clockA: nat, clockB: nat)

  datatype Action =
    | Push(event: UserEvent)
    | TickAction(env: Env)
    | WaitAction(waitEnv: Env)
    | Deliver(inst: Instruction, at: nat)
    | Read
    | Shutdown

  datatype Event = Event(byA: bool, action: Action)

  function Swap(sys: System): System {
    System(sys.b, sys.a, sys.ba, sys.ab, sys.lb, sys.la, sys.clockB, sys.clockA)
  }

  function InitialSystem(nowA: nat, nowB: nat, delayA: nat, delayB: nat): System {
    var ledger := Ledger([], map[0 := 0], 0, 0, []);
    System(Endpoint(InitialSender(nowA, delayA), InitialReceiver(nowA)),
           Endpoint(InitialSender(nowB, delayB), InitialReceiver(nowB)),
           {}, {}, ledger, ledger, nowA, nowB)
  }

  // ---- steps of party a ----

  function Recording(g: Ledger, known: nat, s: SenderState, sent: Option<Instruction>): Ledger
    requires s.sent != []
  {
    var g1 := g.(cut := g.cut + known);
    match sent
    case None => g1
    case Some(i) => g1.(hist := g1.hist[i.newNum := g1.cut + |s.sent[|s.sent| - 1].state|])
  }

  function Act(sys: System, action: Action): Outcome<System> {
    var s, r := sys.a.sender, sys.a.receiver;
    if s.sent == [] || r.received == [] then AssertFailed else
    match action
    case Push(e) =>
      if s.shutdown then AssertFailed
      else Ok(sys.(a := sys.a.(sender := s.(current := s.current + [e])),
                   la := sys.la.(pushed := sys.la.pushed + [e])))
    case TickAction(env) =>
      var (s1, sent) :- Tick(s, env);
      if s1.sent == [] then AssertFailed else
      Ok(sys.(a := sys.a.(sender := s1),
              ab := if sent.Some? then sys.ab + {sent.value} else sys.ab,
              la := Recording(sys.la, |s.sent[0].state|, s1, sent),
              clockA := env.sendNow))
    case WaitAction(env) =>
      var s1 :- CalculateTimers(s, env);
      if s1.sent == [] then AssertFailed else
      Ok(sys.(a := sys.a.(sender := s1),
              la := Recording(sys.la, |s.sent[0].state|, s1, None),
              clockA := env.now))
    case Deliver(inst, at) =>
      var (s1, r1) :- Recv(s, r, inst, at);
      Ok(sys.(a := Endpoint(s1, r1), clockA := at))
    case Read =>
      var (r1, diff) :- GetRemoteDiff(r);
      Ok(sys.(a := sys.a.(receiver := r1),
              lb := sys.lb.(readCut := sys.lb.readCut + |r.received[0].state|,
                            delivered := sys.lb.delivered + Events(diff))))
    case Shutdown =>
      Ok(sys.(a := sys.a.(sender := s.(shutdown := true))))
  }

  function Step(sys: System, ev: Event): Outcome<System> {
    if ev.byA then Act(sys, ev.action)
    else
      var next :- Act(Swap(sys), ev.action);
      Ok(Swap(next))
  }

  function Run(sys: System, events: seq<Event>): Outcome<System>
    decreases |events|
  {
    if events == [] then Ok(sys)
    else
      var next :- Step(sys, events[0]);
      Run(next, events[1..])
  }

  // ---- what a run may do ----

  predicate Timely(clock: nat, e: Env) {
    clock <= e.now <= e.tickNow <= e.sendNow
  }

  /** The branch that loses events: an empty ack is due while the window is closed, and the state
      it would record differs from the state its diff starts from. */
  predicate LosesEvents(s: SenderState, e: Env)
    requires s.sent != []
  {
    match CalculateTimers(s, e)
    case AssertFailed => false
    case Ok(s1) =>
      && e.hasRemoteAddr && e.window <= WINDOW_GATE && e.tickNow >= s1.nextAckTime
      && 0 <= s1.assumed < |s1.sent| && s1.current != s1.sent[s1.assumed].state
  }

  /** A party's own clock does not run backwards, only genuine instructions arrive, nothing is pushed after
      a shutdown, numbers are not exhausted, and no empty ack loses events. */
  predicate Allowed(sys: System, action: Action) {
    match action
    case Push(_) => !sys.a.sender.shutdown
    case TickAction(env) =>
      && Timely(sys.clockA, env)
      && sys.a.sender.sent != []
      && (sys.a.sender.shutdown || sys.a.sender.sent[|sys.a.sender.sent| - 1].num + 1 < MAX_NUM)
      && !LosesEvents(sys.a.sender, env)
    case WaitAction(env) => Timely(sys.clockA, env)
    case Deliver(inst, at) => inst in sys.ba && sys.clockA <= at
    case Read => true
    case Shutdown => true
  }

  predicate AllowedRun(sys: System, events: seq<Event>)
    decreases |events|
  {
    events == [] ||
    (&& Allowed(if events[0].byA then sys else Swap(sys), events[0].action)
     && (Step(sys, events[0]).Ok? ==> AllowedRun(Step(sys, events[0]).value, events[1..])))
  }

  // ---- the invariant of one direction ----

  predicate NumsSorted(states: seq<TimestampedState>) {
    forall i, j | 0 <= i < j < |states| ::
      states[i].num < states[j].num || states[i].num == states[j].num == MAX_NUM
  }

  /** A held state is the part after `from` of the logical stream recorded under its number. */
  predicate Denotes(t: TimestampedState, pushed: Stream, hist: map<nat, nat>, from: nat) {
    && t.num in hist
    && from <= hist[t.num] <= |pushed|
    && t.state == pushed[from..hist[t.num]]
  }

  predicate AllDenote(states: seq<TimestampedState>, pushed: Stream, hist: map<nat, nat>, from: nat) {
    forall i | 0 <= i < |states| :: Denotes(states[i], pushed, hist, from)
  }

  /** Later numbers stand for longer streams. */
  predicate HistoryInv(hist: map<nat, nat>, length: nat, top: nat) {
    && top in hist
    && (forall n | n in hist :: n <= top && hist[n] <= length)
    && (forall m, n | m in hist && n in hist && m <= n :: hist[m] <= hist[n])
  }

  predicate SenderInv(s: SenderState, g: Ledger, clock: nat) {
    && 1 <= |s.sent| <= MAX_SENT_STATES
    && TimesSorted(s.sent) && s.sent[|s.sent| - 1].timestamp <= clock
    && NumsSorted(s.sent)
    && AllDenote(s.sent, g.pushed, g.hist, g.cut)
    && g.cut <= |g.pushed| && s.current == g.pushed[g.cut..]
    && var top := s.sent[|s.sent| - 1].num;
    && HistoryInv(g.hist, |g.pushed|, top)
    && top <= MAX_NUM
    && (top == MAX_NUM ==> s.shutdown && g.hist[MAX_NUM] == |g.pushed|)
  }

  /** A diff carries exactly the events between its two states, and a sender never asks the
      receiver to drop the state that the diff starts from. */
  predicate InstructionInv(i: Instruction, pushed: Stream, hist: map<nat, nat>, front: nat) {
    && i.oldNum in hist && i.newNum in hist
    && i.throwawayNum <= i.oldNum <= i.newNum && i.throwawayNum <= front
    && hist[i.oldNum] <= hist[i.newNum] <= |pushed|
    && Events(i.diff) == pushed[hist[i.oldNum]..hist[i.newNum]]
  }

  predicate NetworkInv(out: set<Instruction>, pushed: Stream, hist: map<nat, nat>, front: nat) {
    forall i | i in out :: InstructionInv(i, pushed, hist, front)
  }

  predicate StrictlySorted(states: seq<TimestampedState>) {
    forall i, j | 0 <= i < j < |states| :: states[i].num < states[j].num
  }

  predicate ReceiverInv(r: ReceiverState, g: Ledger) {
    && r.received != []
    && StrictlySorted(r.received)
    && AllDenote(r.received, g.pushed, g.hist, g.readCut)
    && r.received[|r.received| - 1].num in g.hist
    && g.readCut <= |g.delivered| <= g.hist[r.received[|r.received| - 1].num]
    && |g.delivered| <= |g.pushed|
    && r.last == g.pushed[g.readCut..|g.delivered|]
    && g.delivered == g.pushed[..|g.delivered|]
  }

  /** The receiver still holds the state the sender counts as acknowledged, and every state whose
      acknowledgment could still advance the sender. */
  predicate AckInv(r: ReceiverState, ackNum: nat, acks: set<Instruction>, front: nat) {
    && r.received != []
    && ackNum == r.received[|r.received| - 1].num
    && HasNum(r.received, front)
    && (forall i | i in acks :: i.ackNum <= ackNum && (front <= i.ackNum ==> HasNum(r.received, i.ackNum)))
  }

  predicate Direction(s: SenderState, r: ReceiverState, ackNum: nat, out: set<Instruction>,
                      acks: set<Instruction>, g: Ledger, clock: nat)
  {
    && SenderInv(s, g, clock)
    && NetworkInv(out, g.pushed, g.hist, s.sent[0].num)
    && ReceiverInv(r, g)
    && AckInv(r, ackNum, acks, s.sent[0].num)
  }

  predicate Inv(sys: System) {
    && Direction(sys.a.sender, sys.b.receiver, sys.b.sender.ackNum, sys.ab, sys.ba, sys.la, sys.clockA)
    && Direction(sys.b.sender, sys.a.receiver, sys.a.sender.ackNum, sys.ba, sys.ab, sys.lb, sys.clockB)
  }

  // ---- slices of the pushed stream ----

  lemma SliceDrop(p: Stream, a: nat, b: nat, c: nat)
    requires a <= b <= c <= |p|
    ensures p[a..b] <= p[a..c]
    ensures p[a..c][b - a..] == p[b..c]
    ensures p[a..b] + p[b..c] == p[a..c]
  {
  }

  lemma TailDrop(p: Stream, a: nat, b: nat)
    requires a <= b <= |p|
    ensures p[a..b] <= p[a..]
    ensures p[a..][b - a..] == p[b..]
    ensures p[a..b] + p[b..] == p[a..]
  {
  }

  // ---- pushing ----

  lemma PushKeepsStates(states: seq<TimestampedState>, p: Stream, e: UserEvent, hist: map<nat, nat>, from: nat)
    requires AllDenote(states, p, hist, from)
    ensures AllDenote(states, p + [e], hist, from)
  {
    forall i | 0 <= i < |states| ensures Denotes(states[i], p + [e], hist, from) {
      assert Denotes(states[i], p, hist, from);
      assert (p + [e])[from..hist[states[i].num]] == p[from..hist[states[i].num]];
    }
  }

  lemma PushKeepsNetwork(out: set<Instruction>, p: Stream, e: UserEvent, hist: map<nat, nat>, front: nat)
    requires NetworkInv(out, p, hist, front)
    ensures NetworkInv(out, p + [e], hist, front)
  {
    forall i | i in out ensures InstructionInv(i, p + [e], hist, front) {
      assert InstructionInv(i, p, hist, front);
      var lo, hi := hist[i.oldNum], hist[i.newNum];
      assert (p + [e])[lo..hi] == p[lo..hi];
    }
  }

  lemma PushKeeps(s: SenderState, r: ReceiverState, ackNum: nat, out: set<Instruction>,
                  acks: set<Instruction>, g: Ledger, clock: nat, e: UserEvent)
    requires Direction(s, r, ackNum, out, acks, g, clock) && !s.shutdown
    ensures Direction(s.(current := s.current + [e]), r, ackNum, out, acks, g.(pushed := g.pushed + [e]), clock)
  {
    PushKeepsStates(s.sent, g.pushed, e, g.hist, g.cut);
    PushKeepsStates(r.received, g.pushed, e, g.hist, g.readCut);
    PushKeepsNetwork(out, g.pushed, e, g.hist, s.sent[0].num);
    hide AllDenote, NetworkInv, AckInv, NumsSorted, TimesSorted, StrictlySorted;
    var p := g.pushed + [e];
    assert p[g.cut..] == g.pushed[g.cut..] + [e];
    assert p[..|g.delivered|] == g.pushed[..|g.delivered|];
    assert p[g.readCut..|g.delivered|] == g.pushed[g.readCut..|g.delivered|];
  }

  // ---- timers: choosing the assumed state and cutting the common prefix ----

  lemma CutDenotes(t: TimestampedState, p: Stream, hist: map<nat, nat>, from: nat, cut: nat)
    requires Denotes(t, p, hist, from) && from <= cut <= hist[t.num]
    ensures p[from..cut] <= t.state
    ensures Denotes(Cut(t, cut - from), p, hist, cut)
  {
    SliceDrop(p, from, cut, hist[t.num]);
  }

  /** Dropping the first state's events from every state of a sorted list moves the cut up. */
  lemma CutAllDenote(states: seq<TimestampedState>, p: Stream, hist: map<nat, nat>, top: nat, from: nat)
    requires states != [] && NumsSorted(states) && HistoryInv(hist, |p|, top)
    requires AllDenote(states, p, hist, from)
    ensures AllExtend(states, states[0].state)
    ensures from + |states[0].state| == hist[states[0].num]
    ensures from + |states[0].state| <= |p| && states[0].state == p[from..from + |states[0].state|]
    ensures AllDenote(CutAll(states, states[0].state), p, hist, from + |states[0].state|)
  {
    var known := states[0].state;
    assert Denotes(states[0], p, hist, from);
    forall i | 0 <= i < |states|
      ensures known <= states[i].state
      ensures Denotes(Cut(states[i], |known|), p, hist, from + |known|)
    {
      assert Denotes(states[i], p, hist, from);
      assert states[0].num <= states[i].num;
      CutDenotes(states[i], p, hist, from, from + |known|);
    }
  }

  lemma CutAllKeepsOrder(states: seq<TimestampedState>, known: Stream)
    requires AllExtend(states, known)
    ensures var r := CutAll(states, known);
            && |r| == |states|
            && (forall i | 0 <= i < |r| :: r[i].num == states[i].num && r[i].timestamp == states[i].timestamp)
            && (NumsSorted(states) ==> NumsSorted(r))
            && (TimesSorted(states) ==> TimesSorted(r))
            && (StrictlySorted(states) ==> StrictlySorted(r))
  {
  }

  lemma RationalizeKeeps(s: SenderState, g: Ledger, clock: nat) returns (s1: SenderState)
    requires SenderInv(s, g, clock)
    ensures Rationalize(s) == Ok(s1)
    ensures SenderInv(s1, g.(cut := g.cut + |s.sent[0].state|), clock)
    ensures s1 == s.(current := s1.current, sent := s1.sent) && |s1.sent| == |s.sent|
    ensures s1.sent[0].num == s.sent[0].num
    ensures s1.sent[|s1.sent| - 1].num == s.sent[|s.sent| - 1].num
  {
    hide AllDenote, NumsSorted, TimesSorted, HistoryInv, AllExtend;
    CutAllDenote(s.sent, g.pushed, g.hist, s.sent[|s.sent| - 1].num, g.cut);
    CutAllKeepsOrder(s.sent, s.sent[0].state);
    TailDrop(g.pushed, g.cut, g.cut + |s.sent[0].state|);
    s1 := Rationalize(s).value;
  }

  lemma ChooseAssumed(s: SenderState, e: Env) returns (s1: SenderState)
    requires s.sent != [] && TimesSorted(s.sent) && s.sent[|s.sent| - 1].timestamp <= e.now
    ensures UpdateAssumed(s, e.now, e.timeout) == Ok(s1)
    ensures s1 == s.(assumed := 0) || s1 == s.(assumed := |s.sent| - 1)
  {
    AssumedIsFirstOrLast(s.sent, e.now, e.timeout, 1);
    s1 := UpdateAssumed(s, e.now, e.timeout).value;
  }

  lemma TimersKeep(s: SenderState, g: Ledger, clock: nat, e: Env) returns (s1: SenderState)
    requires SenderInv(s, g, clock) && clock <= e.now
    ensures CalculateTimers(s, e) == Ok(s1)
    ensures SenderInv(s1, g.(cut := g.cut + |s.sent[0].state|), e.now)
    ensures s1.assumed == 0 || s1.assumed == |s1.sent| - 1
    ensures s1.sent[0].num == s.sent[0].num && s1.shutdown == s.shutdown && s1.ackNum == s.ackNum
    ensures s1.sent[|s1.sent| - 1].num == s.sent[|s.sent| - 1].num
  {
    hide AllDenote, NumsSorted, TimesSorted, HistoryInv, AllExtend, Rationalize, SendTime, AckTime;
    var s0 := ChooseAssumed(s, e);
    var s2 := RationalizeKeeps(s0, g, clock);
    s1 := SetTimers(s2, e);
  }

  // ---- recording and sending a state ----

  predicate Extends(h: map<nat, nat>, h': map<nat, nat>) {
    forall n | n in h :: n in h' && h'[n] == h[n]
  }

  lemma RecordKeepsHistory(hist: map<nat, nat>, length: nat, top: nat, num: nat)
    requires HistoryInv(hist, length, top)
    requires num > top || (num == top && hist[top] == length)
    ensures HistoryInv(hist[num := length], length, num)
    ensures Extends(hist, hist[num := length])
  {
  }

  lemma ExtendKeepsStates(states: seq<TimestampedState>, p: Stream, h: map<nat, nat>, h': map<nat, nat>, from: nat)
    requires AllDenote(states, p, h, from) && Extends(h, h')
    ensures AllDenote(states, p, h', from)
  {
    forall i | 0 <= i < |states| ensures Denotes(states[i], p, h', from) {
      assert Denotes(states[i], p, h, from);
    }
  }

  lemma ExtendKeepsNetwork(out: set<Instruction>, p: Stream, h: map<nat, nat>, h': map<nat, nat>, front: nat)
    requires NetworkInv(out, p, h, front) && Extends(h, h')
    ensures NetworkInv(out, p, h', front)
  {
    forall i | i in out ensures InstructionInv(i, p, h', front) {
      assert InstructionInv(i, p, h, front);
    }
  }

  lemma ExtendKeepsReceiver(r: ReceiverState, g: Ledger, h': map<nat, nat>)
    requires ReceiverInv(r, g) && Extends(g.hist, h')
    ensures ReceiverInv(r, g.(hist := h'))
  {
    ExtendKeepsStates(r.received, g.pushed, g.hist, h', g.readCut);
    hide AllDenote, StrictlySorted;
  }

  lemma AppendSorted(states: seq<TimestampedState>, t: TimestampedState,
                     p: Stream, hist: map<nat, nat>, from: nat)
    requires states != [] && NumsSorted(states) && TimesSorted(states) && AllDenote(states, p, hist, from)
    requires Denotes(t, p, hist, from)
    requires var back := states[|states| - 1];
             back.timestamp <= t.timestamp && (back.num < t.num || back.num == t.num == MAX_NUM)
    requires t.num <= MAX_NUM
    ensures var r := states + [t];
            NumsSorted(r) && TimesSorted(r) && AllDenote(r, p, hist, from)
  {
    assert forall i | 0 <= i < |states| :: states[i].num <= states[|states| - 1].num;
    hide Denotes;
  }

  lemma EraseSorted(states: seq<TimestampedState>, k: nat, p: Stream, hist: map<nat, nat>, from: nat)
    requires k < |states| && NumsSorted(states) && TimesSorted(states) && AllDenote(states, p, hist, from)
    ensures var r := states[..k] + states[k + 1..];
            NumsSorted(r) && TimesSorted(r) && AllDenote(r, p, hist, from)
  {
  }

  /** The list after `add_sent_state`: sorted, at most 32 long, with its first element still the
      acknowledged state, its last the new one, and the assumed iterator on the same element. */
  lemma AddKeepsList(s: SenderState, t: TimestampedState, p: Stream, hist: map<nat, nat>, from: nat)
    returns (s1: SenderState)
    requires 1 <= |s.sent| <= MAX_SENT_STATES && NumsSorted(s.sent) && TimesSorted(s.sent)
    requires AllDenote(s.sent, p, hist, from) && Denotes(t, p, hist, from)
    requires s.assumed == 0 || s.assumed == |s.sent| - 1
    requires var back := s.sent[|s.sent| - 1];
             back.timestamp <= t.timestamp && (back.num < t.num || back.num == t.num == MAX_NUM)
    requires t.num <= MAX_NUM
    ensures s1 == AddSentState(s, t.timestamp, t.num, t.state)
    ensures s1 == s.(sent := s1.sent, assumed := s1.assumed)
    ensures 2 <= |s1.sent| <= MAX_SENT_STATES && NumsSorted(s1.sent) && TimesSorted(s1.sent)
    ensures AllDenote(s1.sent, p, hist, from)
    ensures s1.sent[0] == s.sent[0] && s1.sent[|s1.sent| - 1] == t
    ensures 0 <= s1.assumed < |s1.sent| && s1.sent[s1.assumed] == s.sent[s.assumed]
  {
    hide NumsSorted, TimesSorted, AllDenote, Denotes;
    AppendSorted(s.sent, t, p, hist, from);
    var all := s.sent + [t];
    if |all| > MAX_SENT_STATES {
      EraseSorted(all, |all| - 16, p, hist, from);
    }
    s1 := AddSentState(s, t.timestamp, t.num, t.state);
  }

  /** `inst` was sent by `s`, and its new state recorded in `s1` and the ledger. */
  predicate Committed(s: SenderState, g: Ledger, e: Env, s1: SenderState, inst: Instruction)
    requires s.sent != []
  {
    var hist := g.hist[inst.newNum := |g.pushed|];
    && Extends(g.hist, hist)
    && SenderInv(s1, g.(hist := hist), e.sendNow)
    && InstructionInv(inst, g.pushed, hist, s1.sent[0].num)
    && s1.sent[0].num == s.sent[0].num == inst.throwawayNum && s1.ackNum == s.ackNum == inst.ackNum
    && g.cut + |s1.sent[|s1.sent| - 1].state| == |g.pushed|
  }

  /** Recording the current state keeps the sender's lists, whatever diff is sent with it. */
  lemma RecordKeeps(s: SenderState, g: Ledger, clock: nat, e: Env, diff: Diff)
    returns (s1: SenderState, inst: Instruction)
    requires SenderInv(s, g, clock) && clock <= e.sendNow
    requires s.assumed == 0 || s.assumed == |s.sent| - 1
    requires s.shutdown || s.sent[|s.sent| - 1].num + 1 < MAX_NUM
    ensures Commit(s, e, s.current, diff) == Ok((s1, inst))
    ensures inst == Instruction(s.sent[s.assumed].num, NextNum(s), s.ackNum, s.sent[0].num, diff)
    ensures Extends(g.hist, g.hist[inst.newNum := |g.pushed|])
    ensures AllDenote(s.sent, g.pushed, g.hist[inst.newNum := |g.pushed|], g.cut)
    ensures SenderInv(s1, g.(hist := g.hist[inst.newNum := |g.pushed|]), e.sendNow)
    ensures s1.sent[0].num == s.sent[0].num && s1.ackNum == s.ackNum
    ensures s1.sent[|s1.sent| - 1].state == s.current && s1.sent[|s1.sent| - 1].num == inst.newNum
    ensures s1.shutdown == s.shutdown
  {
    hide AllDenote, NumsSorted, TimesSorted, HistoryInv, AddSentState;
    var num := NextNum(s);
    RecordKeepsHistory(g.hist, |g.pushed|, s.sent[|s.sent| - 1].num, num);
    var hist := g.hist[num := |g.pushed|];
    ExtendKeepsStates(s.sent, g.pushed, g.hist, hist, g.cut);
    var s2 := AddKeepsList(s, TimestampedState(e.sendNow, num, s.current), g.pushed, hist, g.cut);
    var sent := SendInFragments(s2, diff, num).value;
    s1, inst := sent.0.(nextAckTime := e.sendNow + ACK_INTERVAL, nextSendTime := NEVER), sent.1;
  }

  /** Sending a diff that leads from the assumed state to the current one, recorded as such. */
  lemma CommitKeeps(s: SenderState, g: Ledger, clock: nat, e: Env, diff: Diff)
    returns (s1: SenderState, inst: Instruction)
    requires SenderInv(s, g, clock) && clock <= e.sendNow
    requires s.assumed == 0 || s.assumed == |s.sent| - 1
    requires s.sent[s.assumed].state + Events(diff) == s.current
    requires s.shutdown || s.sent[|s.sent| - 1].num + 1 < MAX_NUM
    ensures Commit(s, e, s.current, diff) == Ok((s1, inst))
    ensures Committed(s, g, e, s1, inst)
  {
    hide AllDenote, NumsSorted, TimesSorted, HistoryInv, Commit, Extends;
    s1, inst := RecordKeeps(s, g, clock, e, diff);
    AssumedFacts(s, g.pushed, g.hist[inst.newNum := |g.pushed|], g.cut, inst.newNum, diff);
  }

  lemma AssumedFacts(s: SenderState, p: Stream, hist: map<nat, nat>, cut: nat, num: nat, diff: Diff)
    requires s.sent != [] && NumsSorted(s.sent) && AllDenote(s.sent, p, hist, cut)
    requires 0 <= s.assumed < |s.sent|
    requires cut <= |p| && s.current == p[cut..]
    requires s.sent[s.assumed].state + Events(diff) == s.current
    requires num in hist && hist[num] == |p|
    ensures s.sent[0].num <= s.sent[s.assumed].num <= s.sent[|s.sent| - 1].num
    ensures s.sent[s.assumed].num in hist && hist[s.sent[s.assumed].num] <= |p|
    ensures Events(diff) == p[hist[s.sent[s.assumed].num]..hist[num]]
  {
    assert Denotes(s.sent[s.assumed], p, hist, cut);
    TailDrop(p, cut, hist[s.sent[s.assumed].num]);
    assert Events(diff) == s.current[|s.sent[s.assumed].state|..];
  }

  // ---- acknowledgments ----

  /** On a list sorted by number, dropping the states below `num` drops a prefix. */
  lemma {:induction false} NotBelowIsSuffix(states: seq<TimestampedState>, num: nat) returns (k: nat)
    requires forall i, j | 0 <= i < j < |states| :: states[i].num <= states[j].num
    ensures k <= |states| && NotBelow(states, num) == states[k..]
    ensures forall i | 0 <= i < k :: states[i].num < num
    ensures forall i | k <= i < |states| :: num <= states[i].num
  {
    if states == [] {
      k := 0;
    } else {
      var n := |states| - 1;
      var init := states[..n];
      assert forall i | 0 <= i < n :: init[i] == states[i];
      k := NotBelowIsSuffix(init, num);
      if states[n].num < num {
        assert k == n;
        k := |states|;
      } else {
        assert init[k..] + [states[n]] == states[k..];
      }
    }
  }

  lemma SuffixSorted(states: seq<TimestampedState>, k: nat, p: Stream, hist: map<nat, nat>, from: nat)
    requires k <= |states| && AllDenote(states, p, hist, from)
    ensures NumsSorted(states) ==> NumsSorted(states[k..])
    ensures TimesSorted(states) ==> TimesSorted(states[k..])
    ensures StrictlySorted(states) ==> StrictlySorted(states[k..])
    ensures AllDenote(states[k..], p, hist, from)
  {
    hide Denotes;
  }

  /** What `process_acknowledgment_through` leaves: the old list, or a suffix that starts with
      the acknowledged number. */
  lemma AckSuffix(s: SenderState, ack: nat) returns (s1: SenderState, k: nat)
    requires s.sent != [] && NumsSorted(s.sent)
    ensures ProcessAck(s, ack) == Ok(s1)
    ensures s1 == s.(sent := s1.sent, assumed := s1.assumed)
    ensures k < |s.sent| && s1.sent == s.sent[k..]
    ensures s1.sent[0].num == s.sent[0].num || (s1.sent[0].num == ack && s.sent[0].num <= ack)
  {
    if HasNum(s.sent, ack) {
      k := NotBelowIsSuffix(s.sent, ack);
      var i :| 0 <= i < |s.sent| && s.sent[i].num == ack;
      assert k <= i;
      assert s.sent[k].num <= s.sent[i].num;
      s1 := ProcessAck(s, ack).value;
    } else {
      k := 0;
      s1 := s;
    }
  }

  /** A number in the list leaves exactly the states from that number on; any other changes nothing. */
  lemma AckLeaves(s: SenderState, ack: nat) returns (s1: SenderState, k: nat)
    requires s.sent != [] && NumsSorted(s.sent)
    ensures ProcessAck(s, ack) == Ok(s1)
    ensures HasNum(s.sent, ack) ==> k < |s.sent| && s1.sent == s.sent[k..] && s1.sent[0].num == ack
    ensures HasNum(s.sent, ack) ==> forall i | 0 <= i < |s.sent| :: i < k <==> s.sent[i].num < ack
    ensures !HasNum(s.sent, ack) ==> s1 == s
  {
    hide NotBelow;
    k := NotBelowIsSuffix(s.sent, ack);
    if HasNum(s.sent, ack) {
      var i :| 0 <= i < |s.sent| && s.sent[i].num == ack;
      assert k <= i;
      s1 := ProcessAck(s, ack).value;
    } else {
      s1 := s;
    }
  }

  lemma AckKeeps(s: SenderState, r: ReceiverState, ackNum: nat, out: set<Instruction>,
                 acks: set<Instruction>, g: Ledger, clock: nat, inst: Instruction)
    returns (s1: SenderState)
    requires Direction(s, r, ackNum, out, acks, g, clock) && inst in acks
    ensures ProcessAck(s, inst.ackNum) == Ok(s1)
    ensures Direction(s1, r, ackNum, out, acks, g, clock)
    ensures s1 == s.(sent := s1.sent, assumed := s1.assumed)
    ensures s1.sent[|s1.sent| - 1] == s.sent[|s.sent| - 1]
  {
    hide NumsSorted, TimesSorted, AllDenote, HistoryInv, ProcessAck, StrictlySorted;
    var k;
    s1, k := AckSuffix(s, inst.ackNum);
    SuffixSorted(s.sent, k, g.pushed, g.hist, g.cut);
  }

  // ---- receiving ----

  /** The received list after the throwaway step: a suffix that still holds the reference, the
      newest state, the sender's acknowledged state and everything acknowledged since. */
  lemma ThrowawayKeeps(r: ReceiverState, ackNum: nat, acks: set<Instruction>, g: Ledger,
                       inst: Instruction, front: nat)
    returns (r1: ReceiverState)
    requires ReceiverInv(r, g) && AckInv(r, ackNum, acks, front)
    requires InstructionInv(inst, g.pushed, g.hist, front) && HasNum(r.received, inst.oldNum)
    ensures r1 == r.(received := NotBelow(r.received, inst.throwawayNum))
    ensures ReceiverInv(r1, g) && AckInv(r1, ackNum, acks, front)
    ensures forall n :: HasNum(r1.received, n) ==> HasNum(r.received, n)
  {
    hide AllDenote, StrictlySorted, NotBelow, HasNum;
    var k := ThrowawaySuffix(r.received, inst.throwawayNum, inst.oldNum);
    SuffixSorted(r.received, k, g.pushed, g.hist, g.readCut);
    SuffixHolds(r.received, k, inst.throwawayNum);
    r1 := r.(received := r.received[k..]);
    assert r1.received[|r1.received| - 1] == r.received[|r.received| - 1];
  }

  lemma ThrowawaySuffix(states: seq<TimestampedState>, num: nat, held: nat) returns (k: nat)
    requires StrictlySorted(states) && HasNum(states, held) && num <= held
    ensures k < |states| && NotBelow(states, num) == states[k..]
    ensures forall i | 0 <= i < k :: states[i].num < num
  {
    k := NotBelowIsSuffix(states, num);
    var ref :| 0 <= ref < |states| && states[ref].num == held;
    assert k <= ref;
  }

  lemma SuffixHolds(states: seq<TimestampedState>, k: nat, num: nat)
    requires k <= |states|
    requires forall i | 0 <= i < k :: states[i].num < num
    ensures forall n | num <= n :: HasNum(states, n) ==> HasNum(states[k..], n)
    ensures forall n :: HasNum(states[k..], n) ==> HasNum(states, n)
  {
    forall n | HasNum(states[k..], n) ensures HasNum(states, n) {
      var i :| 0 <= i < |states| - k && states[k..][i].num == n;
      assert states[k + i].num == n;
    }
    forall n | num <= n && HasNum(states, n) ensures HasNum(states[k..], n) {
      var i :| 0 <= i < |states| && states[i].num == n;
      assert states[k..][i - k].num == n;
    }
  }

  /** Inserting a state whose number is new keeps the received list in order. */
  lemma InsertKeeps(s2: SenderState, r: ReceiverState, acks: set<Instruction>, g: Ledger, front: nat,
                    t: TimestampedState, hasDiff: bool, top: nat)
    requires ReceiverInv(r, g) && AckInv(r, s2.ackNum, acks, front)
    requires HistoryInv(g.hist, |g.pushed|, top)
    requires !HasNum(r.received, t.num) && Denotes(t, g.pushed, g.hist, g.readCut)
    ensures var (s2', received) := Accept(s2, r.received, t, hasDiff);
            && ReceiverInv(r.(received := received), g)
            && AckInv(r.(received := received), s2'.ackNum, acks, front)
            && s2.ackNum <= s2'.ackNum
            && s2' == s2.(ackNum := s2'.ackNum, lastHeard := s2'.lastHeard, pendingDataAck := s2'.pendingDataAck)
  {
    hide AllDenote, StrictlySorted, HasNum, HistoryInv;
    var k := FirstAbove(r.received, t.num);
    InsertSorted(r.received, t, k, g.pushed, g.hist, g.readCut);
    InsertHolds(r.received, t, k);
    var received := r.received[..k] + [t] + r.received[k..];
    var back := r.received[|r.received| - 1];
    if k == |r.received| {
      Monotone(g.hist, |g.pushed|, top, back.num, t.num);
      assert received[|received| - 1] == t;
    } else {
      assert received[|received| - 1] == back;
    }
  }

  lemma Monotone(hist: map<nat, nat>, length: nat, top: nat, m: nat, n: nat)
    requires HistoryInv(hist, length, top) && m in hist && n in hist && m <= n
    ensures hist[m] <= hist[n] <= length
  {
  }

  lemma InsertSorted(states: seq<TimestampedState>, t: TimestampedState, k: nat,
                     p: Stream, hist: map<nat, nat>, from: nat)
    requires StrictlySorted(states) && AllDenote(states, p, hist, from) && Denotes(t, p, hist, from)
    requires !HasNum(states, t.num) && k == FirstAbove(states, t.num)
    ensures StrictlySorted(states[..k] + [t] + states[k..])
    ensures AllDenote(states[..k] + [t] + states[k..], p, hist, from)
  {
    hide Denotes;
    var a, b := states[..k], states[k..];
    forall i | 0 <= i < |a| ensures a[i].num < t.num {
      assert states[i].num != t.num;
    }
    forall i | 0 <= i < |b| ensures t.num < b[i].num {
      assert states[k].num <= states[k + i].num;
    }
    ConcatSorted(a, t, b);
    ConcatDenote(a, t, b, p, hist, from);
  }

  lemma ConcatSorted(a: seq<TimestampedState>, t: TimestampedState, b: seq<TimestampedState>)
    requires StrictlySorted(a) && StrictlySorted(b)
    requires (forall i | 0 <= i < |a| :: a[i].num < t.num) && (forall i | 0 <= i < |b| :: t.num < b[i].num)
    ensures StrictlySorted(a + [t] + b)
  {
  }

  lemma ConcatDenote(a: seq<TimestampedState>, t: TimestampedState, b: seq<TimestampedState>,
                     p: Stream, hist: map<nat, nat>, from: nat)
    requires AllDenote(a, p, hist, from) && Denotes(t, p, hist, from) && AllDenote(b, p, hist, from)
    ensures AllDenote(a + [t] + b, p, hist, from)
  {
    hide Denotes;
  }

  lemma InsertHolds(states: seq<TimestampedState>, t: TimestampedState, k: nat)
    requires k <= |states|
    ensures forall n :: HasNum(states, n) ==> HasNum(states[..k] + [t] + states[k..], n)
    ensures HasNum(states[..k] + [t] + states[k..], t.num)
  {
    var r := states[..k] + [t] + states[k..];
    assert r[k] == t;
    forall n | HasNum(states, n) ensures HasNum(r, n) {
      var i :| 0 <= i < |states| && states[i].num == n;
      assert r[if i < k then i else i + 1].num == n;
    }
  }

  lemma IncorporateKeeps(s: SenderState, s2: SenderState, r: ReceiverState, out: set<Instruction>,
                         acks: set<Instruction>, g: Ledger, clock: nat, inst: Instruction, now: nat)
    returns (s3: SenderState, r1: ReceiverState)
    requires Direction(s, r, s2.ackNum, out, acks, g, clock) && inst in out
    ensures Incorporate(s2, r, inst, now) == Ok((s3, r1))
    ensures Direction(s, r1, s3.ackNum, out, acks, g, clock)
    ensures s3 == s2.(ackNum := s3.ackNum, lastHeard := s3.lastHeard, pendingDataAck := s3.pendingDataAck)
    ensures s2.ackNum <= s3.ackNum
  {
    hide AllDenote, NumsSorted, TimesSorted, ReceiverInv, AckInv, Denotes, Accept, HistoryInv;
    assert InstructionInv(inst, g.pushed, g.hist, s.sent[0].num);
    var ref := Find(r.received, inst.oldNum);
    if HasNum(r.received, inst.newNum) || ref == |r.received| {
      s3, r1 := s2, r;
    } else {
      assert r.received[ref].num == inst.oldNum;
      var r2 := ThrowawayKeeps(r, s2.ackNum, acks, g, inst, s.sent[0].num);
      NonEmpty(r2, g);
      if |r2.received| > MAX_RECEIVED_STATES {
        s3, r1 := s2, r2;
      } else {
        var t := TimestampedState(now, inst.newNum, r.received[ref].state + Events(inst.diff));
        ApplyDenotes(r, g, ref, inst, s.sent[0].num, now);
        var top := Top(s, g, clock);
        InsertKeeps(s2, r2, acks, g, s.sent[0].num, t, inst.diff != [], top);
        var acc := Accept(s2, r2.received, t, inst.diff != []);
        s3, r1 := acc.0, r.(received := acc.1);
      }
    }
  }

  lemma NonEmpty(r: ReceiverState, g: Ledger)
    requires ReceiverInv(r, g)
    ensures r.received != []
  {
  }

  lemma Top(s: SenderState, g: Ledger, clock: nat) returns (top: nat)
    requires SenderInv(s, g, clock)
    ensures HistoryInv(g.hist, |g.pushed|, top)
  {
    top := s.sent[|s.sent| - 1].num;
  }

  lemma ApplyDenotes(r: ReceiverState, g: Ledger, ref: nat, inst: Instruction, front: nat, now: nat)
    requires ReceiverInv(r, g) && ref < |r.received| && r.received[ref].num == inst.oldNum
    requires InstructionInv(inst, g.pushed, g.hist, front)
    ensures Denotes(TimestampedState(now, inst.newNum, r.received[ref].state + Events(inst.diff)),
                    g.pushed, g.hist, g.readCut)
  {
    assert Denotes(r.received[ref], g.pushed, g.hist, g.readCut);
    SliceDrop(g.pushed, g.readCut, g.hist[inst.oldNum], g.hist[inst.newNum]);
  }

  // ---- reading ----

  lemma ReadKeeps(r: ReceiverState, g: Ledger, top: nat) returns (r1: ReceiverState, diff: Diff)
    requires ReceiverInv(r, g) && HistoryInv(g.hist, |g.pushed|, top)
    ensures GetRemoteDiff(r) == Ok((r1, diff))
    ensures ReceiverInv(r1, g.(readCut := g.readCut + |r.received[0].state|, delivered := g.delivered + Events(diff)))
    ensures |r1.received| == |r.received|
    ensures forall i | 0 <= i < |r.received| :: r1.received[i].num == r.received[i].num
    ensures g.hist[r.received[|r.received| - 1].num] <= |g.pushed|
    ensures g.delivered + Events(diff) == g.pushed[..g.hist[r.received[|r.received| - 1].num]]
  {
    hide AllDenote, StrictlySorted, HistoryInv, AllExtend, Denotes, Encode, Events;
    var back := r.received[|r.received| - 1];
    BackFacts(r, g);
    var oldest := r.received[0].state;
    StrictIsSorted(r.received);
    CutAllDenote(r.received, g.pushed, g.hist, top, g.readCut);
    CutAllKeepsOrder(r.received, oldest);
    var rest := back.state[|r.last|..];
    EncodeRoundTrip(rest);
    diff := Encode(rest);
    CutBack(r, g, top);
    r1 := ReadBuilds(CutAll(r.received, oldest), g, g.readCut + |oldest|, g.delivered + Events(diff),
                     back.state[|oldest|..]);
  }

  lemma ReadBuilds(states: seq<TimestampedState>, g: Ledger, cut: nat, delivered: Stream, last: Stream)
    returns (r: ReceiverState)
    requires states != [] && StrictlySorted(states) && AllDenote(states, g.pushed, g.hist, cut)
    requires states[|states| - 1].num in g.hist
    requires cut <= g.hist[states[|states| - 1].num] <= |g.pushed|
    requires delivered == g.pushed[..g.hist[states[|states| - 1].num]]
    requires last == g.pushed[cut..g.hist[states[|states| - 1].num]]
    ensures r == ReceiverState(states, last)
    ensures ReceiverInv(r, g.(readCut := cut, delivered := delivered))
  {
    hide AllDenote, StrictlySorted;
    r := ReceiverState(states, last);
  }

  lemma StrictIsSorted(states: seq<TimestampedState>)
    requires StrictlySorted(states)
    ensures NumsSorted(states)
  {
  }

  lemma BackFacts(r: ReceiverState, g: Ledger)
    requires ReceiverInv(r, g)
    ensures var back := r.received[|r.received| - 1];
            && Denotes(back, g.pushed, g.hist, g.readCut)
            && r.last <= back.state
            && back.state[|r.last|..] == g.pushed[|g.delivered|..g.hist[back.num]]
            && g.delivered + back.state[|r.last|..] == g.pushed[..g.hist[back.num]]
  {
    var back := r.received[|r.received| - 1];
    assert Denotes(back, g.pushed, g.hist, g.readCut);
    SliceDrop(g.pushed, g.readCut, |g.delivered|, g.hist[back.num]);
    SliceDrop(g.pushed, 0, |g.delivered|, g.hist[back.num]);
  }

  lemma CutBack(r: ReceiverState, g: Ledger, top: nat)
    requires ReceiverInv(r, g) && HistoryInv(g.hist, |g.pushed|, top)
    ensures var back := r.received[|r.received| - 1];
            var cut := g.readCut + |r.received[0].state|;
            && back.num in g.hist && cut <= g.hist[back.num] <= |g.pushed|
            && |r.received[0].state| <= |back.state|
            && back.state[|r.received[0].state|..] == g.pushed[cut..g.hist[back.num]]
  {
    var back := r.received[|r.received| - 1];
    assert Denotes(back, g.pushed, g.hist, g.readCut);
    assert Denotes(r.received[0], g.pushed, g.hist, g.readCut);
    assert r.received[0].num <= back.num;
    SliceDrop(g.pushed, g.readCut, g.hist[r.received[0].num], g.hist[back.num]);
  }

  // ---- one tick ----

  lemma ClockKeeps(s: SenderState, r: ReceiverState, ackNum: nat, out: set<Instruction>,
                   acks: set<Instruction>, g: Ledger, clock: nat, clock': nat)
    requires Direction(s, r, ackNum, out, acks, g, clock) && clock <= clock'
    ensures Direction(s, r, ackNum, out, acks, g, clock')
  {
    hide NumsSorted, TimesSorted, AllDenote, HistoryInv, NetworkInv, ReceiverInv, AckInv;
  }

  lemma DiffBridges(current: Stream, existing: Stream) returns (diff: Diff)
    requires existing <= current
    ensures DiffFrom(current, existing) == Ok(diff)
    ensures existing + Events(diff) == current
    ensures diff == [] <==> current == existing
  {
    diff := Encode(current[|existing|..]);
    EncodeRoundTrip(current[|existing|..]);
  }

  lemma AssumedIsPrefix(s: SenderState, g: Ledger, clock: nat)
    requires SenderInv(s, g, clock) && 0 <= s.assumed < |s.sent|
    ensures s.sent[s.assumed].state <= s.current
  {
    assert Denotes(s.sent[s.assumed], g.pushed, g.hist, g.cut);
    TailDrop(g.pushed, g.cut, g.hist[s.sent[s.assumed].num]);
  }

  lemma SendDiffKeeps(s: SenderState, g: Ledger, clock: nat, e: Env, diff: Diff)
    returns (s1: SenderState, inst: Instruction)
    requires SenderInv(s, g, clock) && clock <= e.sendNow
    requires s.assumed == 0 || s.assumed == |s.sent| - 1
    requires s.sent[s.assumed].state + Events(diff) == s.current
    requires s.shutdown || s.sent[|s.sent| - 1].num + 1 < MAX_NUM
    ensures SendToReceiver(s, diff, e) == Ok((s1, inst))
    ensures Committed(s, g, e, s1.(mindelayClock := NEVER), inst)
  {
    hide NumsSorted, TimesSorted, AllDenote, HistoryInv, Extends, InstructionInv, Commit;
    s1, inst := CommitKeeps(s, g, clock, e, diff);
    s1 := s1.(assumed := |s1.sent| - 1);
  }

  lemma SendAckKeeps(s: SenderState, g: Ledger, clock: nat, e: Env) returns (s1: SenderState, inst: Instruction)
    requires SenderInv(s, g, clock) && clock <= e.sendNow && s.nextAckTime <= e.sendNow
    requires s.assumed == 0 || s.assumed == |s.sent| - 1
    requires s.sent[s.assumed].state == s.current
    requires s.shutdown || s.sent[|s.sent| - 1].num + 1 < MAX_NUM
    ensures SendEmptyAck(s, e) == Ok((s1, inst))
    ensures Committed(s, g, e, s1.(mindelayClock := NEVER), inst)
  {
    hide NumsSorted, TimesSorted, AllDenote, HistoryInv, Extends, InstructionInv, Commit;
    assert s.sent[s.assumed].state + Events([]) == s.current;
    s1, inst := CommitKeeps(s, g, clock, e, []);
  }

  /** What `tick` sends, after the timers: nothing, or an instruction that leads from the assumed
      state to the current one, which is then the newest recorded state. */
  lemma SendKeeps(s: SenderState, g: Ledger, clock: nat, e: Env) returns (s1: SenderState, sent: Option<Instruction>)
    requires SenderInv(s, g, clock) && clock <= e.tickNow <= e.sendNow
    requires s.assumed == 0 || s.assumed == |s.sent| - 1
    requires s.shutdown || s.sent[|s.sent| - 1].num + 1 < MAX_NUM
    requires !(e.hasRemoteAddr && e.window <= WINDOW_GATE && e.tickNow >= s.nextAckTime
               && s.current != s.sent[s.assumed].state)
    ensures SendIfDue(s, e) == Ok((s1, sent))
    ensures sent.None? ==> s1 == s
    ensures sent.Some? ==> Committed(s, g, e, s1, sent.value)
  {
    hide NumsSorted, TimesSorted, AllDenote, HistoryInv, Committed, SendToReceiver, SendEmptyAck;
    AssumedIsPrefix(s, g, clock);
    var diff := DiffBridges(s.current, s.sent[s.assumed].state);
    if !e.hasRemoteAddr || (e.tickNow < s.nextAckTime && e.tickNow < s.nextSendTime) {
      s1, sent := s, None;
    } else if e.window > WINDOW_GATE && diff != [] {
      var inst;
      s1, inst := SendDiffKeeps(s, g, clock, e, diff);
      s1, sent := s1.(mindelayClock := NEVER), Some(inst);
    } else if e.tickNow >= s.nextAckTime {
      var inst;
      s1, inst := SendAckKeeps(s, g, clock, e);
      s1, sent := s1.(mindelayClock := NEVER), Some(inst);
    } else {
      s1, sent := s, None;
    }
  }

  lemma NonEmptyLists(sys: System)
    requires Inv(sys)
    ensures sys.a.sender.sent != [] && sys.a.receiver.received != []
    ensures sys.b.sender.sent != [] && sys.b.receiver.received != []
  {
    hide NumsSorted, TimesSorted, AllDenote, HistoryInv, StrictlySorted, NetworkInv, AckInv;
  }

  /** A tick, in the direction of the party that ticks. */
  lemma TickDirection(s: SenderState, r: ReceiverState, ackNum: nat, out: set<Instruction>,
                      acks: set<Instruction>, g: Ledger, clock: nat, e: Env)
    returns (s2: SenderState, sent: Option<Instruction>, g2: Ledger)
    requires Direction(s, r, ackNum, out, acks, g, clock) && Timely(clock, e)
    requires s.shutdown || s.sent[|s.sent| - 1].num + 1 < MAX_NUM
    requires !LosesEvents(s, e)
    ensures Tick(s, e) == Ok((s2, sent)) && s2.sent != []
    ensures g2 == Recording(g, |s.sent[0].state|, s2, sent)
    ensures Direction(s2, r, ackNum, if sent.Some? then out + {sent.value} else out, acks, g2, e.sendNow)
    ensures s2.ackNum == s.ackNum && (sent.Some? ==> sent.value.ackNum == s.ackNum)
    ensures s2.sent[0].num == s.sent[0].num && (sent.Some? ==> sent.value.throwawayNum == s.sent[0].num)
  {
    hide NumsSorted, TimesSorted, AllDenote, HistoryInv, InstructionInv, CalculateTimers, SendIfDue, StrictlySorted;
    var s1 := TimersKeep(s, g, clock, e);
    var g1 := g.(cut := g.cut + |s.sent[0].state|);
    s2, sent := SendKeeps(s1, g1, e.now, e);
    g2 := Recording(g, |s.sent[0].state|, s2, sent);
    if sent.Some? {
      var hist := g.hist[sent.value.newNum := |g.pushed|];
      ExtendKeepsNetwork(out, g.pushed, g.hist, hist, s.sent[0].num);
      ExtendKeepsReceiver(r, g, hist);
      assert g2.hist == hist;
    }
  }

  lemma TickKeeps(sys: System, e: Env) returns (next: System)
    requires Inv(sys) && Allowed(sys, TickAction(e))
    ensures Act(sys, TickAction(e)) == Ok(next)
    ensures Inv(next)
    ensures next.a.sender.ackNum == sys.a.sender.ackNum && next.b == sys.b && next.ba == sys.ba
    ensures sys.a.sender.sent != [] && next.a.sender.sent != []
    ensures next.a.sender.sent[0].num == sys.a.sender.sent[0].num
    ensures sys.ab <= next.ab && forall i | i in next.ab - sys.ab :: i.throwawayNum == sys.a.sender.sent[0].num
  {
    hide SenderInv, NetworkInv, ReceiverInv, Tick, LosesEvents, Recording;
    NonEmptyLists(sys);
    var s, r, ackNum := sys.a.sender, sys.b.receiver, sys.b.sender.ackNum;
    var s2, sent, g2 := TickDirection(s, r, ackNum, sys.ab, sys.ba, sys.la, sys.clockA, e);
    next := Act(sys, TickAction(e)).value;
    assert AckInv(sys.a.receiver, s.ackNum, next.ab, sys.b.sender.sent[0].num);
  }
}
