/** What an empty acknowledgment through a closed window goes on to do: from every state that a run can reach, a tick
    that loses events can be followed by ordinary steps after which the peer has been handed something that was never
    pushed in that order, or stops at an assertion. */
module SspLosses {
  import opened Outcomes
  import opened UserStreams
  import opened TransportSenders
  import opened Transports
  import opened SspProtocol
  import opened SspTheorems

  /** The number of the state that the next tick takes its difference from. */
  function AssumedNum(s: SenderState, e: Env): nat
    requires s.sent != []
  {
    match CalculateTimers(s, e)
    case AssertFailed => 0
    case Ok(s1) => if 0 <= s1.assumed < |s1.sent| then s1.sent[s1.assumed].num else 0
  }

  /** The peer stopped, or was handed something else than a prefix of what was pushed. */
  predicate Broken(outcome: Outcome<System>) {
    outcome.AssertFailed? || !(outcome.value.la.delivered <= outcome.value.la.pushed)
  }

  lemma Prepend(sys: System, ev: Event, next: System, rest: seq<Event>)
    requires Step(sys, ev) == Ok(next) && Allowed(if ev.byA then sys else Swap(sys), ev.action)
    requires AllowedRun(next, rest)
    ensures AllowedRun(sys, [ev] + rest) && Run(sys, [ev] + rest) == Run(next, rest)
  {
    hide Step, Allowed;
    assert ([ev] + rest)[1..] == rest;
  }

  // ---- the direction that stays in order ----

  ghost predicate BackOk(sys: System) {
    Direction(sys.b.sender, sys.a.receiver, sys.a.sender.ackNum, sys.ba, sys.ab, sys.lb, sys.clockB)
  }

  lemma BackNotEmpty(sys: System)
    requires BackOk(sys)
    ensures sys.b.sender.sent != [] && sys.a.receiver.received != []
  {
    hide NumsSorted, TimesSorted, AllDenote, HistoryInv, StrictlySorted, NetworkInv, AckInv;
  }

  /** a's side after the tick: everything pushed is recorded under the last number n. */
  ghost predicate Recorded(sys: System, n: nat) {
    var s := sys.a.sender;
    && SenderInv(s, sys.la, sys.clockA) && !s.shutdown && s.sent[|s.sent| - 1].num == n && n + 1 < MAX_NUM
    && n in sys.la.hist && sys.la.hist[n] == |sys.la.pushed|
  }

  /** b's side: all of its states come before n, and it holds number k, which stands for less than was pushed. */
  ghost predicate Behind(sys: System, n: nat, k: nat, length: nat) {
    var r, g := sys.b.receiver, sys.la;
    && r.received != [] && StrictlySorted(r.received) && r.received[|r.received| - 1].num < n
    && g.readCut <= length < |g.pushed|
    && (exists i | 0 <= i < |r.received| ::
          r.received[i].num == k && r.received[i].state == g.pushed[g.readCut..length])
    && g.readCut <= |g.delivered| <= |g.pushed| && g.delivered == g.pushed[..|g.delivered|]
    && r.last == g.pushed[g.readCut..|g.delivered|]
  }

  lemma BehindBefore(r: ReceiverState, g: Ledger, s: SenderState, clock: nat, k: nat)
    requires ReceiverInv(r, g) && SenderInv(s, g, clock) && HasNum(r.received, k)
    ensures StrictlySorted(r.received) && r.received[|r.received| - 1].num <= s.sent[|s.sent| - 1].num
    ensures k in g.hist && g.readCut <= g.hist[k] <= |g.pushed|
    ensures exists i | 0 <= i < |r.received| ::
      r.received[i].num == k && r.received[i].state == g.pushed[g.readCut..g.hist[k]]
  {
    hide NumsSorted, TimesSorted, StrictlySorted;
    var i :| 0 <= i < |r.received| && r.received[i].num == k;
    assert Denotes(r.received[i], g.pushed, g.hist, g.readCut);
  }

  /** The losing tick. */
  lemma LosingTick(sys: System, e: Env) returns (next: System, inst: Instruction, length: nat)
    requires Inv(sys) && Timely(sys.clockA, e)
    requires !sys.a.sender.shutdown && sys.a.sender.sent[|sys.a.sender.sent| - 1].num + 2 < MAX_NUM
    requires LosesEvents(sys.a.sender, e) && HasNum(sys.b.receiver.received, AssumedNum(sys.a.sender, e))
    ensures Act(sys, TickAction(e)) == Ok(next) && BackOk(next) && next.b == sys.b
    ensures inst in next.ab && inst.oldNum == AssumedNum(sys.a.sender, e) && inst.diff == []
    ensures inst.throwawayNum == sys.a.sender.sent[0].num <= inst.oldNum
    ensures Recorded(next, inst.newNum) && Behind(next, inst.newNum, inst.oldNum, length)
  {
    hide NumsSorted, TimesSorted, AllDenote, HistoryInv, CalculateTimers, InstructionInv, StrictlySorted, AddSentState;
    var s, g := sys.a.sender, sys.la;
    var s1 := TimersKeep(s, g, sys.clockA, e);
    var g1 := g.(cut := g.cut + |s.sent[0].state|);
    var s2;
    s2, inst := RecordKeeps(s1, g1, e.now, e, []);
    AssumedIsShorter(s1, g1, e.now, inst.newNum);
    AssumedAfterFront(s1, g1, e.now);
    length := g.hist[inst.oldNum];
    BehindBefore(sys.b.receiver, g, s, sys.clockA, inst.oldNum);
    next := Act(sys, TickAction(e)).value;
    assert next.la.hist == g.hist[inst.newNum := |g.pushed|];
  }

  lemma AssumedAfterFront(s: SenderState, g: Ledger, clock: nat)
    requires SenderInv(s, g, clock) && 0 <= s.assumed < |s.sent|
    ensures s.sent[0].num <= s.sent[s.assumed].num
  {
  }

  // ---- the peer takes the empty acknowledgment ----

  /** b's newest state is number n, which holds less than was pushed. */
  ghost predicate Taken(sys: System, n: nat, length: nat) {
    var r, g := sys.b.receiver, sys.la;
    && r.received != [] && StrictlySorted(r.received) && r.received[|r.received| - 1].num == n
    && g.readCut <= length < |g.pushed|
    && r.received[|r.received| - 1].state == g.pushed[g.readCut..length]
    && g.readCut <= |g.delivered| <= |g.pushed| && g.delivered == g.pushed[..|g.delivered|]
    && r.last == g.pushed[g.readCut..|g.delivered|]
  }

  /** A new highest number whose reference is held is appended and acknowledged. */
  lemma AppendNewest(s: SenderState, r: ReceiverState, inst: Instruction, now: nat, i: nat)
    returns (s1: SenderState, r1: ReceiverState)
    requires r.received != [] && StrictlySorted(r.received) && r.received[|r.received| - 1].num < inst.newNum
    requires i < |r.received| && r.received[i].num == inst.oldNum && inst.throwawayNum <= inst.oldNum
    requires |NotBelow(r.received, inst.throwawayNum)| <= MAX_RECEIVED_STATES
    ensures Incorporate(s, r, inst, now) == Ok((s1, r1)) && r1.last == r.last
    ensures r1.received == NotBelow(r.received, inst.throwawayNum)
      + [TimestampedState(now, inst.newNum, r.received[i].state + Events(inst.diff))]
    ensures StrictlySorted(r1.received)
    ensures s1 == s.(ackNum := inst.newNum, lastHeard := now, pendingDataAck := s.pendingDataAck || inst.diff != [])
  {
    hide NotBelow, StrictlySorted, Events;
    var k := ThrowawaySuffix(r.received, inst.throwawayNum, inst.oldNum);
    var kept := r.received[k..];
    AllBelow(r.received, inst.newNum);
    FoundAt(r.received, i);
    assert FirstAbove(kept, inst.newNum) == |kept|;
    assert kept[..|kept|] == kept && kept[|kept|..] == [];
    var t := TimestampedState(now, inst.newNum, r.received[i].state + Events(inst.diff));
    AppendedSorted(r.received, k, t);
    var out := Incorporate(s, r, inst, now).value;
    s1, r1 := out.0, out.1;
    assert kept + [t] + [] == kept + [t];
  }

  lemma AllBelow(states: seq<TimestampedState>, num: nat)
    requires states != [] && StrictlySorted(states) && states[|states| - 1].num < num
    ensures forall j | 0 <= j < |states| :: states[j].num < num
    ensures !HasNum(states, num)
  {
  }

  lemma FoundAt(states: seq<TimestampedState>, i: nat)
    requires i < |states| && StrictlySorted(states)
    ensures Find(states, states[i].num) == i
  {
  }

  lemma AppendedSorted(states: seq<TimestampedState>, k: nat, t: TimestampedState)
    requires k <= |states| && StrictlySorted(states) && forall j | 0 <= j < |states| :: states[j].num < t.num
    ensures StrictlySorted(states[k..] + [t])
  {
  }

  lemma TakeEmpty(sys: System, inst: Instruction, length: nat) returns (next: System)
    requires BackOk(sys) && inst in sys.ab && inst.diff == [] && inst.throwawayNum <= inst.oldNum
    requires Recorded(sys, inst.newNum) && Behind(sys, inst.newNum, inst.oldNum, length)
    requires |NotBelow(sys.b.receiver.received, inst.throwawayNum)| <= MAX_RECEIVED_STATES
    ensures Act(Swap(sys), Deliver(inst, sys.clockB)) == Ok(Swap(next))
    ensures BackOk(next) && Recorded(next, inst.newNum) && Taken(next, inst.newNum, length)
    ensures next.b.sender.ackNum == inst.newNum && next.b.sender.shutdown == sys.b.sender.shutdown
    ensures next.b.sender.sent != [] && sys.b.sender.sent != []
    ensures next.b.sender.sent[|next.b.sender.sent| - 1] == sys.b.sender.sent[|sys.b.sender.sent| - 1]
  {
    hide SenderInv, ReceiverInv, AckInv, NetworkInv, NotBelow, ProcessAck, Incorporate, StrictlySorted;
    BackNotEmpty(sys);
    var s, r := sys.b.sender, sys.b.receiver;
    var s1 := AckKeeps(s, sys.a.receiver, sys.a.sender.ackNum, sys.ba, sys.ab, sys.lb, sys.clockB, inst);
    var i :| 0 <= i < |r.received| && r.received[i].num == inst.oldNum
      && r.received[i].state == sys.la.pushed[sys.la.readCut..length];
    var s2, r1 := AppendNewest(s1, r, inst, sys.clockB, i);
    assert r.received[i].state + Events([]) == r.received[i].state;
    SameList(s1, s2, sys.lb, sys.clockB);
    next := sys.(b := Endpoint(s2, r1));
    BackNotEmpty(next);
  }

  // ---- the peer acknowledges, and the sender drops what came before ----

  lemma AckTick(sys: System, n: nat, length: nat) returns (e: Env, inst: Instruction, next: System)
    requires BackOk(sys) && Recorded(sys, n) && Taken(sys, n, length) && sys.b.sender.ackNum == n
    requires sys.b.sender.sent != []
    requires sys.b.sender.shutdown || sys.b.sender.sent[|sys.b.sender.sent| - 1].num + 1 < MAX_NUM
    ensures Allowed(Swap(sys), TickAction(e)) && Act(Swap(sys), TickAction(e)) == Ok(Swap(next))
    ensures BackOk(next) && Recorded(next, n) && Taken(next, n, length) && inst in next.ba && inst.ackNum == n
  {
    hide SenderInv, ReceiverInv, AckInv, NetworkInv, Tick, LosesEvents, Recording, Taken;
    BackNotEmpty(sys);
    var s, s2 := sys.b.sender, sys.b.sender;
    e, s2, inst := LateSend(s, sys.lb, sys.clockB);
    var s3, sent, g2 :=
      TickDirection(s, sys.a.receiver, sys.a.sender.ackNum, sys.ba, sys.ab, sys.lb, sys.clockB, e);
    next := sys.(b := sys.b.(sender := s2), ba := sys.ba + {inst}, lb := g2, clockB := e.sendNow);
    SameTaken(sys, next, n, length);
  }

  lemma SameTaken(sys: System, next: System, n: nat, length: nat)
    requires Taken(sys, n, length) && next.b.receiver == sys.b.receiver && next.la == sys.la
    ensures Taken(next, n, length)
  {
  }

  /** An acknowledgment of the newest number leaves only that. */
  lemma AckNewest(s: SenderState, g: Ledger, clock: nat) returns (s1: SenderState)
    requires SenderInv(s, g, clock) && s.sent[|s.sent| - 1].num < MAX_NUM
    ensures ProcessAck(s, s.sent[|s.sent| - 1].num) == Ok(s1) && SenderInv(s1, g, clock)
    ensures s1 == s.(sent := s1.sent, assumed := s1.assumed)
    ensures s1.sent[0].num == s.sent[|s.sent| - 1].num == s1.sent[|s1.sent| - 1].num
  {
    hide TimesSorted, AllDenote, HistoryInv;
    var n := s.sent[|s.sent| - 1].num;
    assert HasNum(s.sent, n);
    var k := NotBelowIsSuffix(s.sent, n);
    SuffixSorted(s.sent, k, g.pushed, g.hist, g.cut);
    s1 := ProcessAck(s, n).value;
  }

  lemma TakeAck(sys: System, inst: Instruction, n: nat, length: nat) returns (next: System)
    requires BackOk(sys) && Recorded(sys, n) && Taken(sys, n, length) && inst in sys.ba && inst.ackNum == n
    ensures Act(sys, Deliver(inst, sys.clockA)) == Ok(next)
    ensures BackOk(next) && Recorded(next, n) && Taken(next, n, length) && next.a.sender.sent[0].num == n
  {
    hide ReceiverInv, AckInv, NetworkInv, ProcessAck, Incorporate, Taken, NumsSorted, TimesSorted, AllDenote,
         HistoryInv;
    BackNotEmpty(sys);
    var s1 := AckNewest(sys.a.sender, sys.la, sys.clockA);
    var s2, r1 :=
      IncorporateKeeps(sys.b.sender, s1, sys.a.receiver, sys.ba, sys.ab, sys.lb, sys.clockB, inst, sys.clockA);
    SameList(s1, s2, sys.la, sys.clockA);
    next := sys.(a := Endpoint(s2, r1));
    SameTaken(sys, next, n, length);
  }

  // ---- one more event ----

  lemma PushSender(s: SenderState, g: Ledger, clock: nat, y: UserEvent)
    requires SenderInv(s, g, clock) && !s.shutdown
    ensures SenderInv(s.(current := s.current + [y]), g.(pushed := g.pushed + [y]), clock)
  {
    PushKeepsStates(s.sent, g.pushed, y, g.hist, g.cut);
    hide AllDenote, NumsSorted, TimesSorted;
    assert (g.pushed + [y])[g.cut..] == g.pushed[g.cut..] + [y];
  }

  lemma PushTaken(sys: System, n: nat, length: nat, y: UserEvent)
    requires Taken(sys, n, length)
    ensures Taken(sys.(la := sys.la.(pushed := sys.la.pushed + [y])), n, length)
  {
    var g := sys.la;
    assert (g.pushed + [y])[g.readCut..length] == g.pushed[g.readCut..length];
    assert (g.pushed + [y])[..|g.delivered|] == g.pushed[..|g.delivered|];
    assert (g.pushed + [y])[g.readCut..|g.delivered|] == g.pushed[g.readCut..|g.delivered|];
  }

  /** y is pushed, and sent as the difference to state n. */
  lemma PushAndSend(sys: System, n: nat, length: nat, y: UserEvent)
    returns (e: Env, inst: Instruction, mid: System, next: System)
    requires BackOk(sys) && Recorded(sys, n) && Taken(sys, n, length) && sys.a.sender.sent[0].num == n
    ensures Allowed(sys, Push(y)) && Act(sys, Push(y)) == Ok(mid)
    ensures Allowed(mid, TickAction(e)) && Act(mid, TickAction(e)) == Ok(next)
    ensures inst in next.ab && inst == Instruction(n, n + 1, inst.ackNum, n, inst.diff) && Events(inst.diff) == [y]
    ensures next.b == sys.b && next.la.pushed == sys.la.pushed + [y] && Taken(next, n, length)
  {
    hide ReceiverInv, AckInv, NetworkInv, Taken, NumsSorted, TimesSorted, AllDenote, HistoryInv, Tick, LosesEvents,
         Events;
    BackNotEmpty(sys);
    PushSender(sys.a.sender, sys.la, sys.clockA, y);
    PushTaken(sys, n, length, y);
    mid := Act(sys, Push(y)).value;
    var s2;
    e, s2, inst := LateSend(mid.a.sender, mid.la, mid.clockA);
    assert mid.la.pushed[|sys.la.pushed|..] == [y];
    next := Act(mid, TickAction(e)).value;
    LedgerTaken(mid, next, n, length);
  }

  lemma LedgerTaken(sys: System, next: System, n: nat, length: nat)
    requires Taken(sys, n, length) && next.b.receiver == sys.b.receiver
    requires next.la.pushed == sys.la.pushed
    requires next.la.readCut == sys.la.readCut && next.la.delivered == sys.la.delivered
    ensures Taken(next, n, length)
  {
  }

  // ---- the peer applies it to the shorter state, and reads ----

  lemma ProcessAckSucceeds(s: SenderState, num: nat)
    requires s.sent != []
    ensures ProcessAck(s, num).Ok? && ProcessAck(s, num).value.sent != []
  {
    if i :| 0 <= i < |s.sent| && s.sent[i].num == num {
      NotBelowMembers(s.sent, num);
    }
  }

  lemma TakeLast(sys: System, inst: Instruction, n: nat, length: nat, y: UserEvent) returns (next: System)
    requires Taken(sys, n, length) && sys.b.sender.sent != []
    requires inst == Instruction(n, n + 1, inst.ackNum, n, inst.diff) && Events(inst.diff) == [y]
    ensures Act(Swap(sys), Deliver(inst, sys.clockB)) == Ok(Swap(next))
    ensures next.la == sys.la && next.b.sender.sent != []
    ensures next.b.receiver.last == sys.b.receiver.last && |next.b.receiver.received| == 2
    ensures next.b.receiver.received[0].state == sys.la.pushed[sys.la.readCut..length]
    ensures next.b.receiver.received[1].state == sys.la.pushed[sys.la.readCut..length] + [y]
  {
    hide NotBelow, ProcessAck, Incorporate, StrictlySorted, Events;
    var s, r := sys.b.sender, sys.b.receiver;
    ProcessAckSucceeds(s, inst.ackNum);
    var s1 := ProcessAck(s, inst.ackNum).value;
    OnlyNewest(r.received);
    var s2, r1 := AppendNewest(s1, r, inst, sys.clockB, |r.received| - 1);
    next := sys.(b := Endpoint(s2, r1));
  }

  lemma OnlyNewest(states: seq<TimestampedState>)
    requires states != [] && StrictlySorted(states)
    ensures NotBelow(states, states[|states| - 1].num) == [states[|states| - 1]]
  {
    var n := states[|states| - 1].num;
    var k := NotBelowIsSuffix(states, n);
    assert k == |states| - 1;
  }

  /** Reading what was built on the shorter state. */
  lemma ReadBreaks(sys: System, length: nat, y: UserEvent)
    requires sys.b.sender.sent != [] && |sys.b.receiver.received| == 2
    requires var g := sys.la;
      && g.readCut <= length && length + 1 < |g.pushed| && g.pushed[length] != y
      && g.readCut <= |g.delivered| <= |g.pushed| && g.delivered == g.pushed[..|g.delivered|]
      && sys.b.receiver.last == g.pushed[g.readCut..|g.delivered|]
      && sys.b.receiver.received[0].state == g.pushed[g.readCut..length]
      && sys.b.receiver.received[1].state == g.pushed[g.readCut..length] + [y]
    ensures Broken(Step(sys, Event(false, Read)))
  {
    hide Encode, Events, CutAll;
    var g, r := sys.la, sys.b.receiver;
    var short, back, last := g.pushed[g.readCut..length], r.received[1].state, r.last;
    if last <= back {
      assert back[|short|] == y;
      assert |g.delivered| <= length;
      var diff := DiffBridges(back, last);
      var handed := g.delivered + Events(diff);
      assert Events(diff) == back[|last|..];
      assert handed[length] == y;
    }
  }

  /** Some event other than x. */
  function Other(x: UserEvent): (y: UserEvent)
    ensures y != x
  {
    if x == Resize(0, 0) then Resize(1, 0) else Resize(0, 0)
  }

  /** From every state that an allowed run can reach: if a tick of a party that is not shutting down loses events, and
      the peer holds the state that the tick takes as known (the front state always is held), then seven more steps,
      each of them allowed, break the delivery. Nothing else is needed but room for two more numbers and in the
      peer's queue. */
  lemma LosingTickBreaks(sys: System, e: Env) returns (next: System, events: seq<Event>)
    requires Inv(sys) && Timely(sys.clockA, e)
    requires !sys.a.sender.shutdown && sys.a.sender.sent[|sys.a.sender.sent| - 1].num + 2 < MAX_NUM
    requires sys.b.sender.shutdown || sys.b.sender.sent[|sys.b.sender.sent| - 1].num + 1 < MAX_NUM
    requires LosesEvents(sys.a.sender, e) && HasNum(sys.b.receiver.received, AssumedNum(sys.a.sender, e))
    requires |NotBelow(sys.b.receiver.received, sys.a.sender.sent[0].num)| <= MAX_RECEIVED_STATES
    ensures Step(sys, Event(true, TickAction(e))) == Ok(next)
    ensures AllowedRun(next, events) && Broken(Run(next, events))
  {
    hide Inv, BackOk, Recorded, Behind, Taken, LosesEvents, Act, AllowedRun, Run, Broken, NotBelow, HasNum, AssumedNum;
    var inst, length;
    next, inst, length := LosingTick(sys, e);
    var n := inst.newNum;
    var sys2 := TakeEmpty(next, inst, length);
    var e2, inst2, sys3 := AckTick(sys2, n, length);
    var sys4 := TakeAck(sys3, inst2, n, length);
    var rest := Ending(sys4, n, length);
    var step1, step2 := Event(false, Deliver(inst, next.clockB)), Event(false, TickAction(e2));
    var step3 := Event(true, Deliver(inst2, sys3.clockA));
    Prepend(sys3, step3, sys4, rest);
    Prepend(sys2, step2, sys3, [step3] + rest);
    Prepend(next, step1, sys2, [step2] + ([step3] + rest));
    events := [step1] + ([step2] + ([step3] + rest));
  }

  /** The last four steps: a push, a tick, a delivery and a read. */
  lemma Ending(sys: System, n: nat, length: nat) returns (events: seq<Event>)
    requires BackOk(sys) && Recorded(sys, n) && Taken(sys, n, length) && sys.a.sender.sent[0].num == n
    ensures AllowedRun(sys, events) && Broken(Run(sys, events))
  {
    hide BackOk, Recorded, Act, AllowedRun, Run, Broken, StrictlySorted, LosesEvents;
    BackNotEmpty(sys);
    var y := Other(sys.la.pushed[length]);
    var e, inst, mid, sys2 := PushAndSend(sys, n, length, y);
    var sys3 := TakeLast(sys2, inst, n, length, y);
    ReadBreaks(sys3, length, y);
    var step1, step2 := Event(true, Push(y)), Event(true, TickAction(e));
    var step3, step4 := Event(false, Deliver(inst, sys2.clockB)), Event(false, Read);
    JustRead(sys3);
    Prepend(sys2, step3, sys3, [step4]);
    Prepend(mid, step2, sys2, [step3] + [step4]);
    Prepend(sys, step1, mid, [step2] + ([step3] + [step4]));
    events := [step1] + ([step2] + ([step3] + [step4]));
  }

  lemma JustRead(sys: System)
    ensures AllowedRun(sys, [Event(false, Read)])
    ensures Run(sys, [Event(false, Read)]) == Step(sys, Event(false, Read))
  {
    hide Step;
    var events := [Event(false, Read)];
    assert events[1..] == [];
    if Step(sys, events[0]).Ok? {
      assert AllowedRun(Step(sys, events[0]).value, []);
      assert Run(Step(sys, events[0]).value, []) == Step(sys, events[0]);
    }
  }

  /** Some allowed steps break the delivery. */
  ghost predicate CanBreak(sys: System) {
    exists events :: AllowedRun(sys, events) && Broken(Run(sys, events))
  }

  /** The exact condition: a tick makes it possible to break the delivery if and only if it loses events. */
  lemma CanBreakIff(sys: System, e: Env) returns (next: System)
    requires Inv(sys) && Timely(sys.clockA, e)
    requires !sys.a.sender.shutdown && sys.a.sender.sent[|sys.a.sender.sent| - 1].num + 2 < MAX_NUM
    requires sys.b.sender.shutdown || sys.b.sender.sent[|sys.b.sender.sent| - 1].num + 1 < MAX_NUM
    requires HasNum(sys.b.receiver.received, AssumedNum(sys.a.sender, e))
    requires |NotBelow(sys.b.receiver.received, sys.a.sender.sent[0].num)| <= MAX_RECEIVED_STATES
    ensures Step(sys, Event(true, TickAction(e))) == Ok(next)
    ensures CanBreak(next) <==> LosesEvents(sys.a.sender, e)
  {
    hide Inv, LosesEvents, Act, AllowedRun, Run, Broken, NotBelow, HasNum, AssumedNum;
    NonEmptyLists(sys);
    next := TickKeepsAgreementIff(sys, e);
    if LosesEvents(sys.a.sender, e) {
      var again, events := LosingTickBreaks(sys, e);
      assert AllowedRun(next, events) && Broken(Run(next, events));
    } else {
      forall events | AllowedRun(next, events) ensures !Broken(Run(next, events)) {
        RunFaithful(next, events);
      }
    }
  }

  lemma RunFaithful(sys: System, events: seq<Event>)
    requires Inv(sys) && AllowedRun(sys, events)
    ensures !Broken(Run(sys, events))
  {
    hide Direction, AllowedRun, Run;
    var last := RunKeeps(sys, events);
    DirectionFaithful(last.a.sender, last.b.receiver, last.b.sender.ackNum, last.ab, last.ba, last.la, last.clockA);
  }
}
