/** The theorems about whole runs of the state synchronisation protocol. */
module SspTheorems {
  import opened Outcomes
  import opened UserStreams
  import opened TransportSenders
  import opened Transports
  import opened SspProtocol

  // ---- every step of every allowed run ----

  lemma DeliverKeeps(sys: System, inst: Instruction, at: nat) returns (next: System)
    requires Inv(sys) && Allowed(sys, Deliver(inst, at))
    ensures Act(sys, Deliver(inst, at)) == Ok(next)
    ensures Inv(next)
    ensures sys.a.sender.ackNum <= next.a.sender.ackNum && next.b == sys.b
  {
    hide SenderInv, ReceiverInv, AckInv, NetworkInv, ProcessAck, Incorporate;
    var s, r := sys.a.sender, sys.a.receiver;
    NonEmptyLists(sys);
    var s1 := AckKeeps(s, sys.b.receiver, sys.b.sender.ackNum, sys.ab, sys.ba, sys.la, sys.clockA, inst);
    var s2, r1 := IncorporateKeeps(sys.b.sender, s1, r, sys.ba, sys.ab, sys.lb, sys.clockB, inst, at);
    next := sys.(a := Endpoint(s2, r1), clockA := at);
    SameList(s1, s2, sys.la, sys.clockA);
    ClockKeeps(s2, sys.b.receiver, sys.b.sender.ackNum, sys.ab, sys.ba, sys.la, sys.clockA, at);
  }

  lemma SameList(s: SenderState, s': SenderState, g: Ledger, clock: nat)
    requires SenderInv(s, g, clock)
    requires s'.sent == s.sent && s'.current == s.current && s'.shutdown == s.shutdown
    ensures SenderInv(s', g, clock)
  {
    hide NumsSorted, TimesSorted, AllDenote, HistoryInv;
  }

  lemma ReadActionKeeps(sys: System) returns (next: System)
    requires Inv(sys)
    ensures Act(sys, Read) == Ok(next)
    ensures Inv(next) && next.a.sender == sys.a.sender && next.b == sys.b
    ensures var back := sys.a.receiver.received[|sys.a.receiver.received| - 1];
            && back.num in sys.lb.hist && sys.lb.hist[back.num] <= |sys.lb.pushed|
            && next.lb.delivered == sys.lb.pushed[..sys.lb.hist[back.num]] && next.lb.pushed == sys.lb.pushed
  {
    hide NumsSorted, TimesSorted, AllDenote, HistoryInv, StrictlySorted, NetworkInv, GetRemoteDiff;
    NonEmptyLists(sys);
    var r := sys.a.receiver;
    var r1, diff := ReadKeeps(r, sys.lb, sys.b.sender.sent[|sys.b.sender.sent| - 1].num);
    SameNums(r.received, r1.received);
    next := Act(sys, Read).value;
  }

  lemma SameNums(states: seq<TimestampedState>, states': seq<TimestampedState>)
    requires |states| == |states'|
    requires forall i | 0 <= i < |states| :: states'[i].num == states[i].num
    ensures forall n :: HasNum(states, n) ==> HasNum(states', n)
  {
    forall n | HasNum(states, n) ensures HasNum(states', n) {
      var i :| 0 <= i < |states| && states[i].num == n;
      assert states'[i].num == n;
    }
  }

  lemma WaitKeeps(sys: System, e: Env) returns (next: System)
    requires Inv(sys) && Allowed(sys, WaitAction(e))
    ensures Act(sys, WaitAction(e)) == Ok(next)
    ensures Inv(next) && next.a.sender.ackNum == sys.a.sender.ackNum && next.b == sys.b
    ensures sys.a.sender.sent != [] && next.a.sender.sent != []
    ensures next.a.sender.sent[0].num == sys.a.sender.sent[0].num
  {
    hide NumsSorted, TimesSorted, AllDenote, HistoryInv, StrictlySorted, NetworkInv, CalculateTimers;
    var s1 := TimersKeep(sys.a.sender, sys.la, sys.clockA, e);
    next := Act(sys, WaitAction(e)).value;
  }

  lemma PushActionKeeps(sys: System, e: UserEvent) returns (next: System)
    requires Inv(sys) && Allowed(sys, Push(e))
    ensures Act(sys, Push(e)) == Ok(next)
    ensures Inv(next) && next.a.sender.ackNum == sys.a.sender.ackNum && next.b == sys.b
  {
    hide SenderInv, ReceiverInv, AckInv, NetworkInv;
    NonEmptyLists(sys);
    PushKeeps(sys.a.sender, sys.b.receiver, sys.b.sender.ackNum, sys.ab, sys.ba, sys.la, sys.clockA, e);
    next := Act(sys, Push(e)).value;
  }

  lemma ShutdownKeeps(sys: System) returns (next: System)
    requires Inv(sys)
    ensures Act(sys, Shutdown) == Ok(next)
    ensures Inv(next) && next.a.sender.ackNum == sys.a.sender.ackNum && next.b == sys.b
  {
    hide NumsSorted, TimesSorted, AllDenote, HistoryInv, ReceiverInv, AckInv, NetworkInv;
    NonEmptyLists(sys);
    next := Act(sys, Shutdown).value;
  }

  lemma ActKeeps(sys: System, action: Action) returns (next: System)
    requires Inv(sys) && Allowed(sys, action)
    ensures Act(sys, action) == Ok(next)
    ensures Inv(next)
    ensures sys.a.sender.ackNum <= next.a.sender.ackNum && next.b == sys.b
  {
    hide Inv, Allowed, Act;
    match action {
      case Push(e) => next := PushActionKeeps(sys, e);
      case TickAction(env) => next := TickKeeps(sys, env);
      case WaitAction(env) => next := WaitKeeps(sys, env);
      case Deliver(inst, at) => next := DeliverKeeps(sys, inst, at);
      case Read => next := ReadActionKeeps(sys);
      case Shutdown => next := ShutdownKeeps(sys);
    }
  }

  /** Every step of an allowed run succeeds (no assertion fails, no erased element is used), keeps
      the invariant, and never moves an acknowledgment number back. */
  lemma StepKeeps(sys: System, ev: Event) returns (next: System)
    requires Inv(sys) && Allowed(if ev.byA then sys else Swap(sys), ev.action)
    ensures Step(sys, ev) == Ok(next)
    ensures Inv(next)
    ensures sys.a.sender.ackNum <= next.a.sender.ackNum && sys.b.sender.ackNum <= next.b.sender.ackNum
  {
    hide Direction, Act, Allowed;
    if ev.byA {
      next := ActKeeps(sys, ev.action);
    } else {
      var n := ActKeeps(Swap(sys), ev.action);
      next := Swap(n);
    }
  }

  lemma {:induction false} RunKeeps(sys: System, events: seq<Event>) returns (last: System)
    requires Inv(sys) && AllowedRun(sys, events)
    ensures Run(sys, events) == Ok(last)
    ensures Inv(last)
    ensures sys.a.sender.ackNum <= last.a.sender.ackNum && sys.b.sender.ackNum <= last.b.sender.ackNum
    decreases |events|
  {
    hide Inv, Step, Allowed;
    if events == [] {
      last := sys;
    } else {
      var next := StepKeeps(sys, events[0]);
      last := RunKeeps(next, events[1..]);
    }
  }

  lemma InitiallyHolds(nowA: nat, nowB: nat, delayA: nat, delayB: nat)
    ensures Inv(InitialSystem(nowA, nowB, delayA, delayB))
  {
    var sys := InitialSystem(nowA, nowB, delayA, delayB);
    assert HasNum(sys.a.receiver.received, 0) && HasNum(sys.b.receiver.received, 0) by {
      assert sys.a.receiver.received[0].num == 0 && sys.b.receiver.received[0].num == 0;
    }
  }

  // ---- what it means ----

  /** Both directions at once: what was handed to the reader is a prefix of what was pushed, and
      every state held on either side stands for the stream the sender recorded under its number. */
  predicate Faithful(g: Ledger, sender: SenderState, receiver: ReceiverState) {
    && g.delivered <= g.pushed
    && (forall i | 0 <= i < |sender.sent| :: Denotes(sender.sent[i], g.pushed, g.hist, g.cut))
    && (forall i | 0 <= i < |receiver.received| :: Denotes(receiver.received[i], g.pushed, g.hist, g.readCut))
  }

  lemma DirectionFaithful(s: SenderState, r: ReceiverState, ackNum: nat, out: set<Instruction>,
                          acks: set<Instruction>, g: Ledger, clock: nat)
    requires Direction(s, r, ackNum, out, acks, g, clock)
    ensures Faithful(g, s, r)
    ensures HasNum(r.received, s.sent[0].num) && StrictlySorted(r.received) && |s.sent| <= MAX_SENT_STATES
  {
    hide Denotes;
  }

  /** Exactly-once, in-order delivery: whatever the network loses, duplicates or reorders, no
      assertion of either endpoint fails, and each side has been handed a prefix of exactly what
      the other side pushed. The receiver still holds the state its peer counts as acknowledged. */
  lemma ExactlyOnceInOrder(nowA: nat, nowB: nat, delayA: nat, delayB: nat, events: seq<Event>) returns (last: System)
    requires AllowedRun(InitialSystem(nowA, nowB, delayA, delayB), events)
    ensures Run(InitialSystem(nowA, nowB, delayA, delayB), events) == Ok(last)
    ensures Faithful(last.la, last.a.sender, last.b.receiver)
    ensures Faithful(last.lb, last.b.sender, last.a.receiver)
    ensures last.a.sender.sent != [] && HasNum(last.b.receiver.received, last.a.sender.sent[0].num)
    ensures last.b.sender.sent != [] && HasNum(last.a.receiver.received, last.b.sender.sent[0].num)
    ensures |last.a.sender.sent| <= MAX_SENT_STATES && |last.b.sender.sent| <= MAX_SENT_STATES
    ensures StrictlySorted(last.a.receiver.received) && StrictlySorted(last.b.receiver.received)
  {
    InitiallyHolds(nowA, nowB, delayA, delayB);
    hide SenderInv, ReceiverInv, AckInv, NetworkInv, Faithful, InitialSystem, StrictlySorted;
    last := RunKeeps(InitialSystem(nowA, nowB, delayA, delayB), events);
    NonEmptyLists(last);
    DirectionFaithful(last.a.sender, last.b.receiver, last.b.sender.ackNum, last.ab, last.ba, last.la, last.clockA);
    DirectionFaithful(last.b.sender, last.a.receiver, last.a.sender.ackNum, last.ba, last.ab, last.lb, last.clockB);
  }

  // ---- empty acknowledgments while the window is closed ----

  /** An empty ack for a state the receiver cannot have: recorded as the current state, sent as
      the assumed one. */
  lemma EmptyAckDisagrees(s: SenderState, g: Ledger, clock: nat, e: Env)
    returns (s1: SenderState, inst: Instruction)
    requires SenderInv(s, g, clock) && clock <= e.tickNow <= e.sendNow
    requires s.assumed == 0 || s.assumed == |s.sent| - 1
    requires s.shutdown || s.sent[|s.sent| - 1].num + 1 < MAX_NUM
    requires e.hasRemoteAddr && e.window <= WINDOW_GATE && e.tickNow >= s.nextAckTime
    requires s.current != s.sent[s.assumed].state
    ensures SendIfDue(s, e) == Ok((s1, Some(inst)))
    ensures s1.sent != [] && s1.sent[|s1.sent| - 1].state == s.current
    ensures !InstructionInv(inst, g.pushed, g.hist[inst.newNum := |g.pushed|], s1.sent[0].num)
  {
    hide AllDenote, NumsSorted, TimesSorted, HistoryInv, Commit, Extends;
    s1, inst := RecordKeeps(s, g, clock, e, []);
    s1 := s1.(mindelayClock := NEVER);
    AssumedIsShorter(s, g, clock, inst.newNum);
  }

  lemma AssumedIsShorter(s: SenderState, g: Ledger, clock: nat, num: nat)
    requires SenderInv(s, g, clock) && 0 <= s.assumed < |s.sent|
    requires s.current != s.sent[s.assumed].state && num == NextNum(s)
    ensures var start := s.sent[s.assumed].num; start != num && start in g.hist && g.hist[start] < |g.pushed|
  {
    assert Denotes(s.sent[s.assumed], g.pushed, g.hist, g.cut);
    var start := s.sent[s.assumed].num;
    assert start <= s.sent[|s.sent| - 1].num;
  }

  /** The exact condition: a tick at any point of a run keeps the two sides in agreement if and
      only if it does not send an empty ack, through a closed window, for events not yet sent. */
  lemma TickKeepsAgreementIff(sys: System, e: Env) returns (next: System)
    requires Inv(sys) && Timely(sys.clockA, e)
    requires sys.a.sender.shutdown || sys.a.sender.sent[|sys.a.sender.sent| - 1].num + 1 < MAX_NUM
    ensures Act(sys, TickAction(e)) == Ok(next)
    ensures Inv(next) <==> !LosesEvents(sys.a.sender, e)
  {
    hide NumsSorted, TimesSorted, AllDenote, HistoryInv, CalculateTimers, SendIfDue, ReceiverInv, AckInv,
      InstructionInv;
    NonEmptyLists(sys);
    if LosesEvents(sys.a.sender, e) {
      var s, g := sys.a.sender, sys.la;
      var s1 := TimersKeep(s, g, sys.clockA, e);
      var g1 := g.(cut := g.cut + |s.sent[0].state|);
      var s2, inst := EmptyAckDisagrees(s1, g1, e.now, e);
      next := Act(sys, TickAction(e)).value;
      assert next.la.hist == g.hist[inst.newNum := |g.pushed|];
      assert inst in next.ab;
    } else {
      next := TickKeeps(sys, e);
    }
  }

  /** The endpoint state that matters for the example below. */
  predicate SenderIs(s: SenderState, current: Stream, sent: seq<TimestampedState>, ackNum: nat, nextAckTime: nat) {
    && s.current == current && s.sent == sent && s.ackNum == ackNum && s.nextAckTime == nextAckTime
    && !s.shutdown && !s.pendingDataAck
  }

  lemma TickClosed(s: SenderState, first: TimestampedState, e: Env) returns (s1: SenderState)
    requires SenderIs(s, s.current, [first], s.ackNum, 0) && first.state == [] && s.ackNum < MAX_NUM
    requires e.window <= WINDOW_GATE && e.hasRemoteAddr
    ensures Tick(s, e) == Ok((s1, Some(Instruction(first.num, first.num + 1, s.ackNum, first.num, []))))
    ensures SenderIs(s1, s.current, [first, TimestampedState(e.sendNow, first.num + 1, s.current)],
                     s.ackNum, e.sendNow + ACK_INTERVAL)
  {
    assert LastRecent(s.sent, e.now, e.timeout, 1) == Ok(0);
    assert CutAll(s.sent, []) == s.sent;
    s1 := Tick(s, e).value.0;
  }

  lemma TimersOpen(s: SenderState, first: TimestampedState, y: UserEvent, e: Env) returns (s1: SenderState)
    requires SenderIs(s, first.state + [y], [first], s.ackNum, s.nextAckTime) && s.ackNum < MAX_NUM
    ensures CalculateTimers(s, e) == Ok(s1)
    ensures SenderIs(s1, [y], [first.(state := [])], s.ackNum, s.nextAckTime) && s1.assumed == 0
  {
    assert LastRecent(s.sent, e.now, e.timeout, 1) == Ok(0);
    assert AllExtend(s.sent, first.state) && first.state[|first.state|..] == [];
    var cut := CutAll(s.sent, first.state);
    assert |cut| == 1 && cut[0] == Cut(first, |first.state|) == first.(state := []);
    assert cut == [first.(state := [])];
    assert s.current[|first.state|..] == [y];
    s1 := CalculateTimers(s, e).value;
  }

  lemma TickOpen(s: SenderState, first: TimestampedState, y: UserEvent, e: Env) returns (s1: SenderState, diff: Diff)
    requires SenderIs(s, first.state + [y], [first], s.ackNum, s.nextAckTime) && s.ackNum < MAX_NUM
    requires s.nextAckTime <= e.tickNow && e.window > WINDOW_GATE && e.hasRemoteAddr
    ensures Events(diff) == [y] && diff != []
    ensures Tick(s, e) == Ok((s1, Some(Instruction(first.num, first.num + 1, s.ackNum, first.num, diff))))
    ensures s1.sent != [] && s1.sent[|s1.sent| - 1].state == [y]
  {
    hide CalculateTimers, Encode;
    var s0 := TimersOpen(s, first, y, e);
    EncodeRoundTrip([y]);
    diff := Encode([y]);
    assert [y][0..] == [y];
    s1 := Tick(s, e).value.0;
  }

  lemma FirstDelivery(s: SenderState, r: ReceiverState, zero: TimestampedState, inst: Instruction)
    requires zero == TimestampedState(0, 0, []) && inst == Instruction(0, 1, 0, 0, [])
    requires SenderIs(s, [], [zero], 0, 0) && r == ReceiverState([zero], [])
    ensures var out := Recv(s, r, inst, 0);
            && out.Ok? && SenderIs(out.value.0, [], [zero], 1, 0)
            && out.value.1 == ReceiverState([zero, TimestampedState(0, 1, [])], [])
  {
    assert s.sent[0].num == 0 && r.received[..0] == [];
    assert NotBelow([zero], 0) == [zero];
    assert Find(r.received, 0) == 0;
    assert FirstAbove(r.received, 1) == 1;
    assert zero.state + Events(inst.diff) == [];
    assert [zero][..1] == [zero] && [zero][1..] == [];
  }

  lemma AckDelivery(s: SenderState, r: ReceiverState, zero: TimestampedState, one: TimestampedState, inst: Instruction)
    requires zero == TimestampedState(0, 0, []) && one.num == 1 && inst == Instruction(0, 1, 1, 0, [])
    requires SenderIs(s, one.state, [zero, one], 0, 3000) && r == ReceiverState([zero], [])
    ensures var out := Recv(s, r, inst, 0);
            out.Ok? && SenderIs(out.value.0, one.state, [one], 1, 3000) && out.value.1.received != []
  {
    assert s.sent[1].num == 1 && s.sent[..1] == [zero];
    assert NotBelow([zero], 1) == [] && NotBelow(s.sent, 1) == [one];
    assert r.received[..0] == [] && NotBelow([zero], 0) == [zero];
    assert Find(r.received, 0) == 0;
    assert FirstAbove(r.received, 1) == 1;
  }

  lemma SecondDelivery(s: SenderState, r: ReceiverState, zero: TimestampedState, one: TimestampedState,
                       inst: Instruction, y: UserEvent)
    requires zero == TimestampedState(0, 0, []) && one == TimestampedState(0, 1, [])
    requires inst == Instruction(1, 2, 1, 1, inst.diff) && Events(inst.diff) == [y]
    requires SenderIs(s, [], [zero, one], 1, 3000) && r == ReceiverState([zero, one], [])
    ensures var out := Recv(s, r, inst, 5000);
            out.Ok? && out.value.1 == ReceiverState([one, TimestampedState(5000, 2, [y])], [])
  {
    assert s.sent[1].num == 1 && s.sent[..1] == [zero];
    assert [zero][..0] == [] && NotBelow([zero], 1) == [];
    assert s.sent[|s.sent| - 1] == one;
    assert NotBelow(s.sent, 1) == [one];
    assert [one][..1] == [one] && [one][1..] == [];
    assert !HasNum(r.received, 2);
    assert Find(r.received, 1) == Find(r.received, 1, 1) == 1;
    assert FirstAbove([one], 2) == 1;
    assert [] + [y] == [y];
  }

  lemma LastRead(r: ReceiverState, one: TimestampedState, y: UserEvent)
    requires one == TimestampedState(0, 1, []) && r == ReceiverState([one, TimestampedState(5000, 2, [y])], [])
    ensures GetRemoteDiff(r).Ok? && Events(GetRemoteDiff(r).value.1) == [y]
  {
    EncodeRoundTrip([y]);
    assert [y][0..] == [y];
  }

  /** An empty ack recorded through a closed window loses events: here the first keystroke pushed
      is never delivered, although no assertion fails. Every step but the first tick is allowed. */
  lemma EmptyAckCanLoseEvents(x: UserEvent, y: UserEvent) returns (events: seq<Event>, last: System)
    requires x != y
    ensures Run(InitialSystem(0, 0, 0, 0), events) == Ok(last)
    ensures last.la.pushed == [x, y] && last.la.delivered == [y]
    ensures !(last.la.delivered <= last.la.pushed)
  {
    hide Step, Run, InitialSystem, SenderIs;
    var closed, open := Env(0, 0, 0, 1000, 33, 0, true), Env(5000, 5000, 5000, 1000, 33, 2000, true);
    var fromA, fromB := Instruction(0, 1, 0, 0, []), Instruction(0, 1, 1, 0, []);
    var sys0 := InitialSystem(0, 0, 0, 0);
    var e0, e1 := Event(true, Push(x)), Event(true, TickAction(closed));
    var sys1, sys2 := LossySend(x, closed, sys0, e0, e1);
    var e2, e3, e4 := Event(false, Deliver(fromA, 0)), Event(false, TickAction(closed)), Event(true, Deliver(fromB, 0));
    var sys3, sys4, sys5 := LossyAck(x, closed, sys2, e2, e3, e4);
    var e5, e6 := Event(true, Push(y)), Event(true, TickAction(open));
    var sys6, sys7, second := SendSecond(x, y, open, sys5, e5, e6);
    var e7, e8 := Event(false, Deliver(second, 5000)), Event(false, Read);
    var sys8;
    sys8, last := ReadSecond(x, y, second, sys7, e7, e8);
    events := [e0, e1, e2, e3, e4, e5, e6, e7, e8];
    RunOfNine(events, [sys0, sys1, sys2, sys3, sys4, sys5, sys6, sys7, sys8, last]);
    assert [y][0] != [x, y][0];
  }

  const ZERO := TimestampedState(0, 0, [])
  const EMPTY_ONE := TimestampedState(0, 1, [])

  /** a pushes x, and acknowledges it away. */
  lemma LossySend(x: UserEvent, closed: Env, sys0: System, e0: Event, e1: Event) returns (sys1: System, sys2: System)
    requires closed == Env(0, 0, 0, 1000, 33, 0, true) && sys0 == InitialSystem(0, 0, 0, 0)
    requires e0 == Event(true, Push(x)) && e1 == Event(true, TickAction(closed))
    ensures Step(sys0, e0) == Ok(sys1) && Step(sys1, e1) == Ok(sys2)
    ensures SenderIs(sys2.a.sender, [x], [ZERO, TimestampedState(0, 1, [x])], 0, 3000)
    ensures SenderIs(sys2.b.sender, [], [ZERO], 0, 0)
    ensures sys2.a.receiver == sys2.b.receiver == ReceiverState([ZERO], [])
    ensures sys2.la == Ledger([x], map[0 := 0, 1 := 1], 0, 0, [])
  {
    hide Tick;
    sys1 := Step(sys0, e0).value;
    assert [] + [x] == [x];
    var s := TickClosed(sys1.a.sender, ZERO, closed);
    sys2 := Step(sys1, e1).value;
  }

  /** b accepts state 1 as empty and acknowledges it; a drops what came before state 1. */
  lemma LossyAck(x: UserEvent, closed: Env, sys2: System, e2: Event, e3: Event, e4: Event)
    returns (sys3: System, sys4: System, sys5: System)
    requires closed == Env(0, 0, 0, 1000, 33, 0, true)
    requires SenderIs(sys2.a.sender, [x], [ZERO, TimestampedState(0, 1, [x])], 0, 3000)
    requires SenderIs(sys2.b.sender, [], [ZERO], 0, 0)
    requires sys2.a.receiver == sys2.b.receiver == ReceiverState([ZERO], [])
    requires e2 == Event(false, Deliver(Instruction(0, 1, 0, 0, []), 0))
    requires e3 == Event(false, TickAction(closed))
    requires e4 == Event(true, Deliver(Instruction(0, 1, 1, 0, []), 0))
    ensures Step(sys2, e2) == Ok(sys3) && Step(sys3, e3) == Ok(sys4) && Step(sys4, e4) == Ok(sys5)
    ensures SenderIs(sys5.a.sender, [x], [TimestampedState(0, 1, [x])], 1, 3000)
    ensures SenderIs(sys5.b.sender, [], [ZERO, EMPTY_ONE], 1, 3000)
    ensures sys5.b.receiver == ReceiverState([ZERO, EMPTY_ONE], []) && sys5.la == sys2.la
    ensures sys5.a.receiver.received != []
  {
    hide Tick, Recv;
    FirstDelivery(sys2.b.sender, sys2.b.receiver, ZERO, Instruction(0, 1, 0, 0, []));
    sys3 := Step(sys2, e2).value;
    var s := TickClosed(sys3.b.sender, ZERO, closed);
    sys4 := Step(sys3, e3).value;
    AckDelivery(sys4.a.sender, sys4.a.receiver, ZERO, TimestampedState(0, 1, [x]), Instruction(0, 1, 1, 0, []));
    sys5 := Step(sys4, e4).value;
  }

  /** a pushes y and sends it as the difference to state 1. */
  lemma SendSecond(x: UserEvent, y: UserEvent, open: Env, sys5: System, e5: Event, e6: Event)
    returns (sys6: System, sys7: System, second: Instruction)
    requires open == Env(5000, 5000, 5000, 1000, 33, 2000, true)
    requires SenderIs(sys5.a.sender, [x], [TimestampedState(0, 1, [x])], 1, 3000)
    requires sys5.a.receiver.received != []
    requires sys5.la == Ledger([x], map[0 := 0, 1 := 1], 0, 0, [])
    requires e5 == Event(true, Push(y)) && e6 == Event(true, TickAction(open))
    ensures Step(sys5, e5) == Ok(sys6) && Step(sys6, e6) == Ok(sys7)
    ensures second == Instruction(1, 2, 1, 1, second.diff) && Events(second.diff) == [y]
    ensures sys7.b == sys5.b && sys7.la.pushed == [x, y] && sys7.la.delivered == []
  {
    hide Tick;
    sys6 := Step(sys5, e5).value;
    assert [x] + [y] == [x, y];
    var s, diff := TickOpen(sys6.a.sender, TimestampedState(0, 1, [x]), y, open);
    second := Instruction(1, 2, 1, 1, diff);
    sys7 := Step(sys6, e6).value;
  }

  /** b applies y to its empty state 1, and reads. */
  lemma ReadSecond(x: UserEvent, y: UserEvent, second: Instruction, sys7: System, e7: Event, e8: Event)
    returns (sys8: System, last: System)
    requires SenderIs(sys7.b.sender, [], [ZERO, EMPTY_ONE], 1, 3000)
    requires sys7.b.receiver == ReceiverState([ZERO, EMPTY_ONE], [])
    requires second == Instruction(1, 2, 1, 1, second.diff) && Events(second.diff) == [y]
    requires sys7.la.pushed == [x, y] && sys7.la.delivered == []
    requires e7 == Event(false, Deliver(second, 5000)) && e8 == Event(false, Read)
    ensures Step(sys7, e7) == Ok(sys8) && Step(sys8, e8) == Ok(last)
    ensures last.la.pushed == [x, y] && last.la.delivered == [y]
  {
    hide Recv, GetRemoteDiff;
    SecondDelivery(sys7.b.sender, sys7.b.receiver, ZERO, EMPTY_ONE, second, y);
    sys8 := Step(sys7, e7).value;
    RecvKeepsSent(sys7.b.sender, sys7.b.receiver, second);
    LastRead(sys8.b.receiver, EMPTY_ONE, y);
    last := Step(sys8, e8).value;
  }

  lemma RecvKeepsSent(s: SenderState, r: ReceiverState, inst: Instruction)
    ensures Recv(s, r, inst, 5000).Ok? ==> Recv(s, r, inst, 5000).value.0.sent != []
  {
    hide Find, NotBelow;
  }

  lemma RunOfNine(events: seq<Event>, states: seq<System>)
    requires |events| == 9 && |states| == 10
    requires forall i | 0 <= i < 9 :: Step(states[i], events[i]) == Ok(states[i + 1])
    ensures Run(states[0], events) == Ok(states[9])
  {
    hide Step;
    var i := 9;
    while i > 0
      invariant 0 <= i <= 9
      invariant Run(states[i], events[i..]) == Ok(states[9])
    {
      i := i - 1;
      assert events[i..][1..] == events[i + 1..];
    }
    assert events[0..] == events;
  }

  // ---- nothing is lost for good ----

  /** A tick late enough to distrust every unacknowledged state sends the difference from the
      acknowledged state, which the receiver is known to hold. */
  lemma RetryTick(s: SenderState, e: Env) returns (inst: Instruction)
    requires s.sent != [] && s.assumed == 0 && |s.sent| <= MAX_SENT_STATES
    requires s.sent[0].state <= s.current
    requires e.hasRemoteAddr && e.window > WINDOW_GATE && s.nextAckTime <= e.tickNow <= e.sendNow
    ensures SendIfDue(s, e).Ok? && SendIfDue(s, e).value.1 == Some(inst)
    ensures inst.oldNum == inst.throwawayNum == s.sent[0].num && inst.newNum == NextNum(s)
    ensures inst.ackNum == s.ackNum && s.sent[0].state + Events(inst.diff) == s.current
  {
    hide Encode, Events;
    var diff := DiffBridges(s.current, s.sent[0].state);
    var state := if diff == [] then s.current else s.sent[0].state + Events(diff);
    var s1 := AddSentState(s, e.sendNow, NextNum(s), state);
    assert s1.assumed == 0 && s1.sent[0] == s.sent[0];
    inst := Instruction(s.sent[0].num, NextNum(s), s.ackNum, s.sent[0].num, diff);
  }

  function LateEnv(s: SenderState, clock: nat): (e: Env)
    requires s.sent != []
    ensures Timely(clock, e) && e.now == clock + ACK_DELAY
  {
    var now := clock + ACK_DELAY;
    var first := Env(now, now, now, 0, 0, WINDOW_GATE + 1, true);
    var at := Max(now, match CalculateTimers(s, first) case Ok(s1) => s1.nextAckTime case AssertFailed => 0);
    first.(tickNow := at, sendNow := at)
  }

  lemma LateTimers(s: SenderState, g: Ledger, clock: nat) returns (s1: SenderState)
    requires SenderInv(s, g, clock)
    ensures CalculateTimers(s, LateEnv(s, clock)) == Ok(s1)
    ensures s1.assumed == 0 && s1.nextAckTime <= LateEnv(s, clock).tickNow
  {
    var now := clock + ACK_DELAY;
    assert |s.sent| > 1 ==> !Recent(s.sent[1], now, 0) by {
      assert TimesSorted(s.sent);
    }
    AssumedIsFirstOrLast(s.sent, now, 0, 1);
    hide AllDenote, NumsSorted, TimesSorted, HistoryInv, LastRecent;
    s1 := TimersKeep(s, g, clock, LateEnv(s, clock));
  }

  /** A late tick sends everything that was pushed after the acknowledged state. */
  lemma LateSend(s: SenderState, g: Ledger, clock: nat) returns (e: Env, s2: SenderState, inst: Instruction)
    requires SenderInv(s, g, clock)
    requires s.shutdown || s.sent[|s.sent| - 1].num + 1 < MAX_NUM
    ensures Timely(clock, e) && !LosesEvents(s, e) && Tick(s, e) == Ok((s2, Some(inst))) && s2.sent != []
    ensures inst.oldNum == inst.throwawayNum == s.sent[0].num && inst.newNum == NextNum(s) && inst.ackNum == s.ackNum
    ensures inst.oldNum in g.hist && g.hist[inst.oldNum] <= |g.pushed|
    ensures Events(inst.diff) == g.pushed[g.hist[inst.oldNum]..]
    ensures Recording(g, |s.sent[0].state|, s2, Some(inst)).hist == g.hist[inst.newNum := |g.pushed|]
  {
    hide NumsSorted, TimesSorted, AllDenote, HistoryInv, InstructionInv, CalculateTimers, SendIfDue, LateEnv, Extends;
    e := LateEnv(s, clock);
    var s1 := LateTimers(s, g, clock);
    var s1' := TimersKeep(s, g, clock, e);
    var g1 := g.(cut := g.cut + |s.sent[0].state|);
    LateEnvOpens(s, clock);
    var sent;
    s2, sent := SendKeeps(s1, g1, e.now, e);
    AssumedIsPrefix(s1, g1, e.now);
    inst := RetryTick(s1, e);
    FrontDiff(s1, g1, e.now, inst);
  }

  lemma FrontDiff(s: SenderState, g: Ledger, clock: nat, inst: Instruction)
    requires SenderInv(s, g, clock) && s.sent[0].state + Events(inst.diff) == s.current
    ensures s.sent[0].num in g.hist && g.hist[s.sent[0].num] <= |g.pushed|
    ensures Events(inst.diff) == g.pushed[g.hist[s.sent[0].num]..]
  {
    hide Events, NumsSorted, TimesSorted, HistoryInv;
    assert Denotes(s.sent[0], g.pushed, g.hist, g.cut);
    TailDrop(g.pushed, g.cut, g.hist[s.sent[0].num]);
    assert Events(inst.diff) == s.current[|s.sent[0].state|..];
  }

  /** First step of the recovery: the retry is sent, and stands for everything pushed. */
  lemma SendRetry(sys: System) returns (e: Env, inst: Instruction, next: System)
    requires Inv(sys)
    requires sys.a.sender.shutdown || sys.a.sender.sent[|sys.a.sender.sent| - 1].num + 1 < MAX_NUM
    ensures Allowed(sys, TickAction(e))
    ensures Act(sys, TickAction(e)) == Ok(next) && Inv(next)
    ensures sys.a.sender.sent != [] && Tick(sys.a.sender, e).Ok? && Tick(sys.a.sender, e).value.1 == Some(inst)
    ensures inst in next.ab && inst.oldNum == inst.throwawayNum == sys.a.sender.sent[0].num
    ensures next.b == sys.b && next.la.pushed == sys.la.pushed && next.la.delivered == sys.la.delivered
    ensures inst.newNum in next.la.hist && next.la.hist[inst.newNum] == |next.la.pushed|
  {
    hide SenderInv, ReceiverInv, AckInv, NetworkInv, Tick, LosesEvents;
    NonEmptyLists(sys);
    var s2;
    e, s2, inst := LateSend(sys.a.sender, sys.la, sys.clockA);
    next := TickKeeps(sys, e);
  }

  lemma LateEnvOpens(s: SenderState, clock: nat)
    requires s.sent != []
    ensures LateEnv(s, clock).window > WINDOW_GATE && LateEnv(s, clock).hasRemoteAddr
  {
    hide CalculateTimers;
  }

  /** Second step: the receiver, which holds the reference, has the new state afterwards. */
  lemma AcceptRetry(sys: System, inst: Instruction) returns (next: System)
    requires Inv(sys) && inst in sys.ba && HasNum(sys.a.receiver.received, inst.oldNum)
    requires inst.oldNum == inst.throwawayNum
    requires |NotBelow(sys.a.receiver.received, inst.throwawayNum)| <= MAX_RECEIVED_STATES
    ensures Act(sys, Deliver(inst, sys.clockA)) == Ok(next) && Inv(next)
    ensures HasNum(next.a.receiver.received, inst.newNum) && next.lb == sys.lb
  {
    hide Inv, HasNum, NotBelow, ProcessAck, Find;
    next := DeliverKeeps(sys, inst, sys.clockA);
    var r := sys.a.receiver.received;
    FindHeld(r, inst.oldNum);
    if !HasNum(r, inst.newNum) {
      var kept := NotBelow(r, inst.throwawayNum);
      InsertHolds(kept, TimestampedState(sys.clockA, inst.newNum, r[Find(r, inst.oldNum)].state + Events(inst.diff)),
                  FirstAbove(kept, inst.newNum));
    }
  }

  lemma FindHeld(states: seq<TimestampedState>, num: nat)
    requires HasNum(states, num)
    ensures Find(states, num) < |states|
  {
  }

  /** Third step: reading a list that holds a state standing for everything delivers everything. */
  lemma ReadEverything(sys: System, num: nat) returns (next: System)
    requires Inv(sys) && HasNum(sys.a.receiver.received, num)
    requires num in sys.lb.hist && sys.lb.hist[num] == |sys.lb.pushed|
    ensures Act(sys, Read) == Ok(next) && Inv(next)
    ensures next.lb.delivered == next.lb.pushed == sys.lb.pushed
  {
    hide SenderInv, NetworkInv, AckInv, ReceiverInv, Act, HasNum;
    next := ReadActionKeeps(sys);
    BackIsLongest(sys.a.receiver, sys.lb, sys.b.sender, sys.clockB, num);
  }

  lemma BackIsLongest(r: ReceiverState, g: Ledger, s: SenderState, clock: nat, num: nat)
    requires ReceiverInv(r, g) && SenderInv(s, g, clock) && HasNum(r.received, num) && num in g.hist
    ensures g.hist[num] <= g.hist[r.received[|r.received| - 1].num]
  {
    hide AllDenote, NumsSorted, TimesSorted;
    var i :| 0 <= i < |r.received| && r.received[i].num == num;
    assert r.received[i].num <= r.received[|r.received| - 1].num;
  }

  /** From every state that an allowed run can reach, three more steps hand b everything a has
      pushed, unless b's queue is full: events are delayed by the network but never lost. */
  lemma CanAlwaysCatchUp(sys: System) returns (events: seq<Event>, last: System)
    requires Inv(sys)
    requires sys.a.sender.shutdown || sys.a.sender.sent[|sys.a.sender.sent| - 1].num + 1 < MAX_NUM
    requires |NotBelow(sys.b.receiver.received, sys.a.sender.sent[0].num)| <= MAX_RECEIVED_STATES
    ensures AllowedRun(sys, events) && Run(sys, events) == Ok(last)
    ensures last.la.pushed == sys.la.pushed && last.la.delivered == last.la.pushed
  {
    hide Direction, Act, NotBelow, HasNum, Allowed, AllowedRun, Run;
    NonEmptyLists(sys);
    HoldsFront(sys);
    var e, inst, next1 := SendRetry(sys);
    AllowedDeliver(Swap(next1), inst);
    var next2 := AcceptRetry(Swap(next1), inst);
    var next3 := ReadEverything(next2, inst.newNum);
    last := Swap(next3);
    var e1, e2, e3 := Event(true, TickAction(e)), Event(false, Deliver(inst, next1.clockB)), Event(false, Read);
    events := [e1, e2, e3];
    AllowedRead(next2);
    RunOfThree(sys, next1, Swap(next2), last, e1, e2, e3);
  }

  lemma HoldsFront(sys: System)
    requires Inv(sys)
    ensures sys.a.sender.sent != [] && HasNum(sys.b.receiver.received, sys.a.sender.sent[0].num)
  {
    hide NumsSorted, TimesSorted, AllDenote, HistoryInv, HasNum;
  }

  lemma AllowedDeliver(sys: System, inst: Instruction)
    requires inst in sys.ba
    ensures Allowed(sys, Deliver(inst, sys.clockA))
  {
  }

  lemma AllowedRead(sys: System)
    ensures Allowed(sys, Read)
  {
  }

  lemma RunOfThree(s0: System, s1: System, s2: System, s3: System, e1: Event, e2: Event, e3: Event)
    requires Step(s0, e1) == Ok(s1) && Step(s1, e2) == Ok(s2) && Step(s2, e3) == Ok(s3)
    requires Allowed(if e1.byA then s0 else Swap(s0), e1.action)
    requires Allowed(if e2.byA then s1 else Swap(s1), e2.action)
    requires Allowed(if e3.byA then s2 else Swap(s2), e3.action)
    ensures AllowedRun(s0, [e1, e2, e3]) && Run(s0, [e1, e2, e3]) == Ok(s3)
  {
    hide Step, Allowed;
    assert [e1, e2, e3][1..] == [e2, e3] && [e2, e3][1..] == [e3] && [e3][1..] == [];
    assert AllowedRun(s3, []) && Run(s3, []) == Ok(s3);
    assert AllowedRun(s2, [e3]) && Run(s2, [e3]) == Ok(s3);
    assert AllowedRun(s1, [e2, e3]) && Run(s1, [e2, e3]) == Ok(s3);
  }
}
