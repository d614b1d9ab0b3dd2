/** When a tick of the state synchronisation protocol sends (network/transportsender.cc), said of the sender as it was
    before the tick and without its timers. */
module SspTimers {
  import opened Bytes
  import opened Outcomes
  import opened UserStreams
  import opened TransportSenders
  import opened SspProtocol
  import opened SspTheorems

  /** The state that the receiver is taken to have: the newest one sent, unless an unacknowledged one has become old;
      then the acknowledged one. */
  function Supposed(s: SenderState, e: Env): TimestampedState
    requires s.sent != []
  {
    if |s.sent| > 1 && e.now < s.sent[1].timestamp + e.timeout + ACK_DELAY then s.sent[|s.sent| - 1] else s.sent[0]
  }

  /** Something was pushed after the newest state was sent. */
  predicate Unsent(s: SenderState)
    requires s.sent != []
  {
    s.current != s.sent[|s.sent| - 1].state
  }

  predicate HeardLately(s: SenderState, e: Env) {
    e.now < s.lastHeard + ACTIVE_RETRY_TIMEOUT
  }

  /** The time at which something unsent was first noticed. */
  function Noticed(s: SenderState, e: Env): nat {
    if s.mindelayClock == NEVER then e.now else s.mindelayClock
  }

  /** At time t it is time for data: new events were noticed for the minimum delay and the newest state was sent a send
      interval ago; or a state is sent again, a send interval or a time-out after the newest, to a peer heard lately. */
  predicate DataDue(s: SenderState, e: Env, t: nat)
    requires s.sent != []
  {
    var newest := s.sent[|s.sent| - 1].timestamp;
    if Unsent(s) then
      Noticed(s, e) + s.sendMinDelay <= t && newest + e.sendInterval <= t
    else if s.current != Supposed(s, e).state && HeardLately(s, e) then
      newest + e.sendInterval <= t && (s.mindelayClock != NEVER ==> s.mindelayClock + s.sendMinDelay <= t)
    else
      s.current != s.sent[0].state && HeardLately(s, e) && newest + e.timeout + ACK_DELAY <= t
  }

  /** At time t an acknowledgment is due: its time has come, or data have waited for one; faster while shutting down. */
  predicate AckDue(s: SenderState, e: Env, t: nat)
    requires s.sent != []
  {
    if s.shutdown || s.ackNum == MAX_NUM then s.sent[|s.sent| - 1].timestamp + e.sendInterval <= t
    else s.nextAckTime <= t || (s.pendingDataAck && e.now + ACK_DELAY <= t)
  }

  // ---- what rationalising leaves comparable ----

  lemma SamePrefixCut(a: Stream, b: Stream, known: Stream)
    requires known <= a && known <= b
    ensures a == b <==> a[|known|..] == b[|known|..]
  {
    if a[|known|..] == b[|known|..] {
      assert a == known + a[|known|..] && b == known + b[|known|..];
    }
  }

  /** The sender before its timers are set: lists cut by the acknowledged prefix, the assumed state chosen. */
  lemma CutView(s: SenderState, g: Ledger, clock: nat, e: Env) returns (s0: SenderState)
    requires SenderInv(s, g, clock) && clock <= e.now
    ensures s0 == s.(current := s0.current, sent := s0.sent, assumed := s0.assumed)
    ensures s.sent != [] && |s0.sent| == |s.sent| && 0 <= s0.assumed < |s0.sent|
    ensures CalculateTimers(s, e) == Ok(SetTimers(s0, e))
    ensures s.sent[s0.assumed] == Supposed(s, e)
    ensures s.sent[0].state <= s.current && s0.current == s.current[|s.sent[0].state|..]
    ensures forall i | 0 <= i < |s.sent| ::
      s.sent[0].state <= s.sent[i].state && s0.sent[i] == Cut(s.sent[i], |s.sent[0].state|)
  {
    hide AllDenote, NumsSorted, HistoryInv, SetTimers;
    AssumedIsFirstOrLast(s.sent, e.now, e.timeout, 1);
    var s1 := UpdateAssumed(s, e.now, e.timeout).value;
    CutAllDenote(s.sent, g.pushed, g.hist, s.sent[|s.sent| - 1].num, g.cut);
    TailDrop(g.pushed, g.cut, g.cut + |s.sent[0].state|);
    s0 := Rationalize(s1).value;
  }

  lemma TimersOnly(s: SenderState, e: Env)
    requires s.sent != [] && 0 <= s.assumed < |s.sent|
    ensures var s1 := SetTimers(s, e);
      s1.(nextAckTime := s.nextAckTime, nextSendTime := s.nextSendTime, mindelayClock := s.mindelayClock) == s
  {
  }

  /** Comparisons of the cut states are those of the whole ones. */
  lemma SameComparisons(s: SenderState, s1: SenderState, i: nat)
    requires s.sent != [] && |s1.sent| == |s.sent| && i < |s.sent|
    requires s.sent[0].state <= s.current && s1.current == s.current[|s.sent[0].state|..]
    requires s.sent[0].state <= s.sent[i].state && s1.sent[i] == Cut(s.sent[i], |s.sent[0].state|)
    ensures s1.current == s1.sent[i].state <==> s.current == s.sent[i].state
    ensures s1.sent[i].timestamp == s.sent[i].timestamp && s1.sent[i].num == s.sent[i].num
    ensures s1.sent[i].state <= s1.current <==> s.sent[i].state <= s.current
    ensures s.sent[i].state <= s.current ==>
      |s1.sent[i].state| <= |s1.current| && s1.current[|s1.sent[i].state|..] == s.current[|s.sent[i].state|..]
  {
    var known := s.sent[0].state;
    SamePrefixCut(s.current, s.sent[i].state, known);
    assert s.current == known + s1.current && s.sent[i].state == known + s1.sent[i].state;
  }

  /** The timers that `calculate_timers` sets have come at exactly the times at which data and acknowledgments are
      due. */
  lemma TimersDueIff(s: SenderState, g: Ledger, clock: nat, e: Env) returns (s1: SenderState)
    requires SenderInv(s, g, clock) && clock <= e.now
    ensures CalculateTimers(s, e) == Ok(s1)
    ensures forall t: nat | t < NEVER :: s1.nextSendTime <= t <==> DataDue(s, e, t)
    ensures forall t: nat | t < NEVER :: s1.nextAckTime <= t <==> AckDue(s, e, t)
    ensures s1.mindelayClock == if Unsent(s) then Noticed(s, e) else s.mindelayClock
  {
    hide SenderInv, CalculateTimers, DataDue, AckDue, SetTimers, Alike, Unsent, Noticed;
    var s0 := CutAlike(s, g, clock, e);
    SendTimerDue(s, s0, e);
    AckTimerDue(s, s0, e);
    s1 := SetTimers(s0, e);
  }

  lemma CutAlike(s: SenderState, g: Ledger, clock: nat, e: Env) returns (s0: SenderState)
    requires SenderInv(s, g, clock) && clock <= e.now
    ensures s.sent != [] && s0.sent != [] && 0 <= s0.assumed < |s0.sent|
    ensures CalculateTimers(s, e) == Ok(SetTimers(s0, e)) && Alike(s, s0, e)
  {
    hide SenderInv, CalculateTimers, SetTimers, Supposed;
    s0 := CutView(s, g, clock, e);
    SameComparisons(s, s0, 0);
    SameComparisons(s, s0, |s.sent| - 1);
    SameComparisons(s, s0, s0.assumed);
  }

  /** The sender s0 is s but for the cut of its states. */
  predicate Alike(s: SenderState, s0: SenderState, e: Env) {
    && s.sent != [] && |s0.sent| == |s.sent| && 0 <= s0.assumed < |s.sent|
    && s0 == s.(current := s0.current, sent := s0.sent, assumed := s0.assumed)
    && s0.sent[|s.sent| - 1].timestamp == s.sent[|s.sent| - 1].timestamp
    && (s0.current == s0.sent[|s.sent| - 1].state <==> !Unsent(s))
    && (s0.current == s0.sent[0].state <==> s.current == s.sent[0].state)
    && (s0.current == s0.sent[s0.assumed].state <==> s.current == Supposed(s, e).state)
  }

  lemma SendTimerDue(s: SenderState, s0: SenderState, e: Env)
    requires Alike(s, s0, e)
    ensures forall t: nat | t < NEVER :: SetTimers(s0, e).nextSendTime <= t <==> DataDue(s, e, t)
    ensures SetTimers(s0, e).mindelayClock == if Unsent(s) then Noticed(s, e) else s.mindelayClock
  {
    hide AckTime, Supposed;
  }

  lemma AckTimerDue(s: SenderState, s0: SenderState, e: Env)
    requires Alike(s, s0, e)
    ensures forall t: nat | t < NEVER :: SetTimers(s0, e).nextAckTime <= t <==> AckDue(s, e, t)
  {
    hide SendTime, Supposed;
  }

  lemma NotEmpty(s: SenderState, g: Ledger, clock: nat)
    requires SenderInv(s, g, clock)
    ensures s.sent != []
  {
  }

  // ---- when a tick sends ----

  /** At any point of a run: a tick sends something exactly when the address is known and an acknowledgment is due, or
      data are due, the window is open and the receiver is not taken to have everything. What it sends leads from the
      state that the receiver is taken to have, and carries through an open window exactly the events after it. Having
      sent, it waits for the acknowledgment interval; else only the noticing of new events is kept. */
  lemma TickSendsIff(s: SenderState, g: Ledger, clock: nat, e: Env) returns (s2: SenderState, sent: Option<Instruction>)
    requires SenderInv(s, g, clock) && Timely(clock, e) && e.tickNow < NEVER
    requires s.shutdown || s.sent[|s.sent| - 1].num + 1 < MAX_NUM
    ensures Tick(s, e) == Ok((s2, sent))
    ensures sent.Some? <==>
      && e.hasRemoteAddr
      && (|| AckDue(s, e, e.tickNow)
          || (DataDue(s, e, e.tickNow) && e.window > WINDOW_GATE && s.current != Supposed(s, e).state))
    ensures sent.Some? ==>
      && Supposed(s, e).state <= s.current
      && sent.value.newNum == (if s.shutdown then MAX_NUM else s.sent[|s.sent| - 1].num + 1)
      && sent.value
         == Instruction(Supposed(s, e).num, sent.value.newNum, s.ackNum, s.sent[0].num, sent.value.diff)
      && Events(sent.value.diff) == (if e.window > WINDOW_GATE then s.current[|Supposed(s, e).state|..] else [])
      && s2.nextAckTime == e.sendNow + ACK_INTERVAL && s2.nextSendTime == NEVER && s2.mindelayClock == NEVER
      && !s2.pendingDataAck && s2.shutdownTries == s.shutdownTries + (if s.shutdown then 1 else 0)
      && s2.sent != [] && s2.sent[|s2.sent| - 1] == TimestampedState(e.sendNow, sent.value.newNum, s2.current)
    ensures sent.None? ==>
      s2.sent != [] && s2.sent[|s2.sent| - 1].num == s.sent[|s.sent| - 1].num && s2.pendingDataAck == s.pendingDataAck
    ensures sent.None? ==> s2.mindelayClock == if Unsent(s) then Noticed(s, e) else s.mindelayClock
  {
    hide SenderInv, CalculateTimers, SendIfDue, DataDue, AckDue, SetTimers, Encode, Events, Supposed, Unsent, Noticed;
    NotEmpty(s, g, clock);
    var s1 := TimersDueIff(s, g, clock, e);
    var s1' := SupposedView(s, g, clock, e);
    var s3 := TimersKeep(s, g, clock, e);
    s2, sent := SendsWhenDue(s1, g.(cut := g.cut + |s.sent[0].state|), e);
  }

  /** What a tick sees of the sender once the timers are set. */
  lemma SupposedView(s: SenderState, g: Ledger, clock: nat, e: Env) returns (s1: SenderState)
    requires SenderInv(s, g, clock) && clock <= e.now
    ensures CalculateTimers(s, e) == Ok(s1) && |s1.sent| == |s.sent| && 0 <= s1.assumed < |s1.sent|
    ensures s1.sent[0].num == s.sent[0].num && s1.sent[|s1.sent| - 1].num == s.sent[|s.sent| - 1].num
    ensures s1.shutdown == s.shutdown && s1.ackNum == s.ackNum && s1.shutdownTries == s.shutdownTries
    ensures s1.pendingDataAck == s.pendingDataAck
    ensures var assumed := s1.sent[s1.assumed];
      && assumed.num == Supposed(s, e).num
      && (s1.current == assumed.state <==> s.current == Supposed(s, e).state)
      && (assumed.state <= s1.current <==> Supposed(s, e).state <= s.current)
      && (assumed.state <= s1.current ==>
            s1.current[|assumed.state|..] == s.current[|Supposed(s, e).state|..])
  {
    hide SenderInv, CalculateTimers, SetTimers, Supposed;
    var s0 := CutView(s, g, clock, e);
    SameComparisons(s, s0, s0.assumed);
    SameComparisons(s, s0, 0);
    SameComparisons(s, s0, |s.sent| - 1);
    TimersOnly(s0, e);
    s1 := SetTimers(s0, e);
  }

  /** The part of `tick` after the timers. */
  lemma SendsWhenDue(s: SenderState, g: Ledger, e: Env) returns (s2: SenderState, sent: Option<Instruction>)
    requires SenderInv(s, g, e.now) && e.now <= e.tickNow <= e.sendNow
    requires s.assumed == 0 || s.assumed == |s.sent| - 1
    requires s.shutdown || s.sent[|s.sent| - 1].num + 1 < MAX_NUM
    ensures SendIfDue(s, e) == Ok((s2, sent))
    ensures s.sent[s.assumed].state <= s.current
    ensures sent.Some? <==>
      && e.hasRemoteAddr
      && (|| s.nextAckTime <= e.tickNow
          || (s.nextSendTime <= e.tickNow && e.window > WINDOW_GATE && s.current != s.sent[s.assumed].state))
    ensures sent.Some? ==>
      && sent.value
         == Instruction(s.sent[s.assumed].num, NextNum(s), s.ackNum, s.sent[0].num, sent.value.diff)
      && Events(sent.value.diff) == (if e.window > WINDOW_GATE then s.current[|s.sent[s.assumed].state|..] else [])
      && s2.nextAckTime == e.sendNow + ACK_INTERVAL && s2.nextSendTime == NEVER && s2.mindelayClock == NEVER
      && !s2.pendingDataAck && s2.shutdownTries == s.shutdownTries + (if s.shutdown then 1 else 0)
      && s2.sent != [] && s2.sent[|s2.sent| - 1] == TimestampedState(e.sendNow, NextNum(s), s2.current)
    ensures sent.None? ==> s2 == s
  {
    hide NumsSorted, TimesSorted, AllDenote, HistoryInv, Encode, Commit;
    AssumedIsPrefix(s, g, e.now);
    var diff := DiffBridges(s.current, s.sent[s.assumed].state);
    assert Events(diff) == s.current[|s.sent[s.assumed].state|..];
    assert Events([]) == [];
    if e.window > WINDOW_GATE && diff != [] {
      CommitSends(s, e, s.sent[s.assumed].state + Events(diff), diff);
    } else {
      CommitSends(s, e, s.current, []);
    }
    var r := SendIfDue(s, e).value;
    s2, sent := r.0, r.1;
  }

  lemma CommitSends(s: SenderState, e: Env, state: Stream, diff: Diff)
    requires s.sent != [] && |s.sent| <= MAX_SENT_STATES && (s.assumed == 0 || s.assumed == |s.sent| - 1)
    ensures Commit(s, e, state, diff).Ok?
    ensures var (s2, inst) := Commit(s, e, state, diff).value;
      && inst == Instruction(s.sent[s.assumed].num, NextNum(s), s.ackNum, s.sent[0].num, diff)
      && s2.nextAckTime == e.sendNow + ACK_INTERVAL && s2.nextSendTime == NEVER
      && !s2.pendingDataAck
      && s2.shutdownTries == s.shutdownTries + (if NextNum(s) == MAX_NUM then 1 else 0)
      && s2.sent != [] && s2.sent[|s2.sent| - 1] == TimestampedState(e.sendNow, NextNum(s), state)
      && s2.current == s.current
  {
    hide AddSentState;
    RecordedStates(s, TimestampedState(e.sendNow, NextNum(s), state));
    AssumedStays(s, e.sendNow, NextNum(s), state);
  }

  lemma AssumedStays(s: SenderState, timestamp: nat, num: nat, state: Stream)
    requires s.sent != [] && |s.sent| <= MAX_SENT_STATES && (s.assumed == 0 || s.assumed == |s.sent| - 1)
    ensures var s1 := AddSentState(s, timestamp, num, state);
      && s1 == s.(sent := s1.sent, assumed := s1.assumed)
      && 0 <= s1.assumed < |s1.sent| && s1.sent[s1.assumed] == s.sent[s.assumed] && s1.sent[0] == s.sent[0]
  {
    if |s.sent| == MAX_SENT_STATES {
      var s1 := AddSentState(s, timestamp, num, state);
      assert s1.assumed == if s.assumed == 0 then 0 else MAX_SENT_STATES - 2;
    }
  }

  /** So a keystroke is sent once it was noticed for the minimum delay and a send interval has passed, without waiting
      for an acknowledgment to be due. */
  lemma PendingIsSent(s: SenderState, g: Ledger, clock: nat, e: Env) returns (inst: Instruction)
    requires SenderInv(s, g, clock) && Timely(clock, e) && e.tickNow < NEVER
    requires s.shutdown || s.sent[|s.sent| - 1].num + 1 < MAX_NUM
    requires e.hasRemoteAddr && e.window > WINDOW_GATE && Unsent(s)
    requires Noticed(s, e) + s.sendMinDelay <= e.tickNow
    requires s.sent[|s.sent| - 1].timestamp + e.sendInterval <= e.tickNow
    ensures Tick(s, e).Ok? && Tick(s, e).value.1 == Some(inst)
    ensures Supposed(s, e).state <= s.current && inst.oldNum == Supposed(s, e).num
    ensures Events(inst.diff) == s.current[|Supposed(s, e).state|..] != []
  {
    hide SenderInv, Tick, Events;
    NotEmpty(s, g, clock);
    var s2, sent := TickSendsIff(s, g, clock, e);
    CurrentIsLongest(s, g, clock);
    inst := sent.value;
  }

  /** No sent state equals the current one when the newest does not. */
  lemma CurrentIsLongest(s: SenderState, g: Ledger, clock: nat)
    requires SenderInv(s, g, clock)
    ensures Unsent(s) ==> forall i | 0 <= i < |s.sent| :: s.sent[i].state != s.current
  {
    hide TimesSorted;
    var last := |s.sent| - 1;
    assert Denotes(s.sent[last], g.pushed, g.hist, g.cut);
    forall i | 0 <= i < |s.sent| ensures |s.sent[i].state| <= |s.sent[last].state| {
      assert Denotes(s.sent[i], g.pushed, g.hist, g.cut);
      assert s.sent[i].num <= s.sent[last].num;
    }
  }

  /** And a state that was not acknowledged within the time-out is sent again, from the acknowledged one. */
  lemma UnacknowledgedIsSentAgain(s: SenderState, g: Ledger, clock: nat, e: Env) returns (inst: Instruction)
    requires SenderInv(s, g, clock) && Timely(clock, e) && e.tickNow < NEVER
    requires s.shutdown || s.sent[|s.sent| - 1].num + 1 < MAX_NUM
    requires e.hasRemoteAddr && e.window > WINDOW_GATE && HeardLately(s, e)
    requires !Unsent(s) && s.current != s.sent[0].state && s.mindelayClock == NEVER
    requires s.sent[|s.sent| - 1].timestamp + e.timeout + ACK_DELAY <= e.now
    requires s.sent[|s.sent| - 1].timestamp + e.sendInterval <= e.tickNow
    ensures Tick(s, e).Ok? && Tick(s, e).value.1 == Some(inst)
    ensures s.sent[0].state <= s.current && inst.oldNum == s.sent[0].num
    ensures Events(inst.diff) == s.current[|s.sent[0].state|..] != []
  {
    hide NumsSorted, AllDenote, HistoryInv, Tick, Events;
    var s2, sent := TickSendsIff(s, g, clock, e);
    inst := sent.value;
  }

  // ---- how long to wait ----

  /** The first time at which data or an acknowledgment are due. */
  ghost predicate FirstDue(s: SenderState, e: Env, w: nat)
    requires s.sent != []
  {
    (DataDue(s, e, w) || AckDue(s, e, w)) && forall t: nat | t < w :: !DataDue(s, e, t) && !AckDue(s, e, t)
  }

  /** The wait of d milliseconds, or less when the connection wants to tick before; none when the time has passed. */
  function Waited(d: int, tickLength: nat): nat {
    if d < 0 then 0 else if d < tickLength then d else tickLength
  }

  /** The wait ends when something is first due, or with the connection's tick, if and only if that time, stored in 32
      bits, is not taken for one on the other side of now or for one too early. */
  lemma WaitIsLeastIff(s: SenderState, g: Ledger, clock: nat, e: Env, tickLength: nat, w: nat)
    returns (s1: SenderState, wait: int)
    requires SenderInv(s, g, clock) && Timely(clock, e) && e.hasRemoteAddr && 0 < tickLength
    requires FirstDue(s, e, w) && w < NEVER
    ensures WaitFor(s, e, tickLength) == Ok((s1, wait))
    ensures var d := w - e.tickNow;
      var low := d % 0x1_0000_0000;
      wait == Waited(d, tickLength) <==>
        || -0x8000_0000 <= d < 0x8000_0000
        || (d > 0 && tickLength <= low < 0x8000_0000)
        || (d < 0 && (low == 0 || low >= 0x8000_0000))
  {
    hide SenderInv, CalculateTimers, DataDue, AckDue;
    NotEmpty(s, g, clock);
    s1 := TimersDueIff(s, g, clock, e);
    var wakeup := if s1.nextSendTime < s1.nextAckTime then s1.nextSendTime else s1.nextAckTime;
    assert wakeup <= w;
    assert DataDue(s, e, wakeup) || AckDue(s, e, wakeup);
    wait := WaitFor(s, e, tickLength).value.1;
    StoredIn32(w - e.tickNow);
  }

  lemma StoredIn32(d: int)
    ensures Int32(d) == (var low := d % 0x1_0000_0000; if low < 0x8000_0000 then low else low - 0x1_0000_0000)
    ensures -0x8000_0000 <= d < 0x8000_0000 ==> Int32(d) == d
  {
  }

  /** The other case: an acknowledgment is overdue by nearly 2^32 milliseconds, and the sender waits for five more. */
  lemma OverdueCanWait()
    ensures var s := InitialSender(0, 0);
      var e := Env(0xFFFF_FFFB, 0xFFFF_FFFB, 0xFFFF_FFFB, 1000, 33, 2000, true);
      AckDue(s, e, 0) && WaitFor(s, e, 250).Ok? && WaitFor(s, e, 250).value.1 == 5
  {
    var s := InitialSender(0, 0);
    var e := Env(0xFFFF_FFFB, 0xFFFF_FFFB, 0xFFFF_FFFB, 1000, 33, 2000, true);
    assert LastRecent(s.sent, e.now, e.timeout, 1) == Ok(0);
    assert CutAll(s.sent, []) == s.sent;
    assert CalculateTimers(s, e).Ok? && CalculateTimers(s, e).value.nextAckTime == 0;
    StoredIn32(0 - e.tickNow);
  }
}
