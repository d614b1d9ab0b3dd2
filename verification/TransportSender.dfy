/** The sending half of the state synchronisation protocol (network/transportsender.cc).

    The first part describes each operation as a function on the sender's state; the class below
    performs it on fields, with the original's loops, and is proved to do the same. Clock
    readings, the retransmission timeout, the send interval and the connection's window are
    inputs of each call. */
module TransportSenders {
  import opened Bytes
  import opened Outcomes
  import opened UserStreams

  const ACK_INTERVAL := 3000
  const ACK_DELAY := 100
  const ACTIVE_RETRY_TIMEOUT := 10000
  const MAX_SENT_STATES := 32
  const WINDOW_GATE := 1000

  /** uint64_t( -1 ): the number of the shutdown state, and the time of an event not scheduled. */
  const MAX_NUM := 0xFFFF_FFFF_FFFF_FFFF
  const NEVER := MAX_NUM

  datatype TimestampedState = TimestampedState(timestamp: nat, num: nat, state: Stream)

  datatype Instruction =
    Instruction(oldNum: nat, newNum: nat, ackNum: nat, throwawayNum: nat, diff: Diff)

  /** What one call to `tick` or `wait_time` sees of the world: the clock as read by
      `calculate_timers`, by `tick` and when sending, and the connection. */
  datatype Env = Env(now: nat, tickNow: nat, sendNow: nat, timeout: nat, sendInterval: nat,
                     window: int, hasRemoteAddr: bool)

  /** `assumed` is the list position of the iterator `assumed_receiver_state`, or -1 when the
      element it pointed to has been erased. */
  datatype SenderState = SenderState(
    current: Stream, sent: seq<TimestampedState>, assumed: int,
    nextAckTime: nat, nextSendTime: nat, shutdown: bool, shutdownTries: nat,
    ackNum: nat, pendingDataAck: bool, sendMinDelay: nat, lastHeard: nat, mindelayClock: nat)

  function InitialSender(now: nat, sendMinDelay: nat): SenderState {
    SenderState([], [TimestampedState(now, 0, [])], 0, now, now, false, 0, 0, false, sendMinDelay, 0, NEVER)
  }

  function Max(a: nat, b: nat): nat {
    if a < b then b else a
  }

  // ---- update_assumed_receiver_state ----

  predicate Recent(t: TimestampedState, now: nat, timeout: nat) {
    t.timestamp <= now && now - t.timestamp < timeout + ACK_DELAY
  }

  /** The last element of the run of recent states that starts at position `i`, or `i - 1`. */
  function LastRecent(sent: seq<TimestampedState>, now: nat, timeout: nat, i: nat): Outcome<nat>
    requires 1 <= i <= |sent|
    decreases |sent| - i
  {
    if i == |sent| then Ok(i - 1)
    else if now < sent[i].timestamp then AssertFailed
    else if Recent(sent[i], now, timeout) then LastRecent(sent, now, timeout, i + 1)
    else Ok(i - 1)
  }

  function UpdateAssumed(s: SenderState, now: nat, timeout: nat): Outcome<SenderState>
    requires s.sent != []
  {
    var k :- LastRecent(s.sent, now, timeout, 1);
    Ok(s.(assumed := k))
  }

  predicate TimesSorted(sent: seq<TimestampedState>) {
    forall i, j | 0 <= i < j < |sent| :: sent[i].timestamp <= sent[j].timestamp
  }

  /** With a clock that does not run backwards, the search never stops in the middle of the list
      and its assertion holds: the assumed state is the acknowledged one or the newest one. */
  lemma {:induction false} AssumedIsFirstOrLast(sent: seq<TimestampedState>, now: nat, timeout: nat, i: nat)
    requires 1 <= i <= |sent| && TimesSorted(sent)
    requires forall j | 0 <= j < |sent| :: sent[j].timestamp <= now
    ensures LastRecent(sent, now, timeout, i) ==
            Ok(if i < |sent| && Recent(sent[i], now, timeout) then |sent| - 1 else i - 1)
    decreases |sent| - i
  {
    if i < |sent| && Recent(sent[i], now, timeout) {
      AssumedIsFirstOrLast(sent, now, timeout, i + 1);
      assert i + 1 < |sent| ==> Recent(sent[i + 1], now, timeout);
    }
  }

  // ---- rationalize_states ----

  predicate AllExtend(sent: seq<TimestampedState>, known: Stream) {
    forall i | 0 <= i < |sent| :: known <= sent[i].state
  }

  function Cut(t: TimestampedState, n: nat): TimestampedState
    requires n <= |t.state|
  {
    t.(state := t.state[n..])
  }

  function CutAll(sent: seq<TimestampedState>, known: Stream): (r: seq<TimestampedState>)
    requires AllExtend(sent, known)
  {
    seq(|sent|, i requires 0 <= i < |sent| => Cut(sent[i], |known|))
  }

  function Rationalize(s: SenderState): Outcome<SenderState>
    requires s.sent != []
  {
    var known := s.sent[0].state;
    if known <= s.current && AllExtend(s.sent, known) then
      Ok(s.(current := s.current[|known|..], sent := CutAll(s.sent, known)))
    else
      AssertFailed
  }

  // ---- calculate_timers ----

  /** When to send next, given the collection clock `clock`. */
  function SendTime(s: SenderState, e: Env, clock: nat): nat
    requires s.sent != [] && 0 <= s.assumed < |s.sent|
  {
    var back := s.sent[|s.sent| - 1];
    var active := s.lastHeard + ACTIVE_RETRY_TIMEOUT > e.now;
    if s.current != back.state then
      Max(clock + s.sendMinDelay, back.timestamp + e.sendInterval)
    else if s.current != s.sent[s.assumed].state && active then
      if clock != NEVER then Max(back.timestamp + e.sendInterval, clock + s.sendMinDelay)
      else back.timestamp + e.sendInterval
    else if s.current != s.sent[0].state && active then
      back.timestamp + e.timeout + ACK_DELAY
    else NEVER
  }

  function AckTime(s: SenderState, e: Env): nat
    requires s.sent != []
  {
    if s.shutdown || s.ackNum == MAX_NUM then s.sent[|s.sent| - 1].timestamp + e.sendInterval
    else if s.pendingDataAck && s.nextAckTime > e.now + ACK_DELAY then e.now + ACK_DELAY
    else s.nextAckTime
  }

  function SetTimers(s: SenderState, e: Env): SenderState
    requires s.sent != [] && 0 <= s.assumed < |s.sent|
  {
    var clock :=
      if s.current != s.sent[|s.sent| - 1].state && s.mindelayClock == NEVER then e.now
      else s.mindelayClock;
    s.(mindelayClock := clock, nextSendTime := SendTime(s, e, clock), nextAckTime := AckTime(s, e))
  }

  function CalculateTimers(s: SenderState, e: Env): Outcome<SenderState>
    requires s.sent != []
  {
    var s1 :- UpdateAssumed(s, e.now, e.timeout);
    var s2 :- Rationalize(s1);
    if 0 <= s2.assumed < |s2.sent| then Ok(SetTimers(s2, e)) else AssertFailed
  }

  // ---- sending ----

  /** Erasing one list element: the iterator to it dangles, the others keep their element. */
  function EraseAt(s: SenderState, k: nat): SenderState
    requires k < |s.sent|
  {
    s.(sent := s.sent[..k] + s.sent[k + 1..],
    assumed := if s.assumed < k then s.assumed else if s.assumed == k then -1 else s.assumed - 1)
  }

  function AddSentState(s: SenderState, timestamp: nat, num: nat, state: Stream): (r: SenderState)
    ensures 1 <= |r.sent| && |r.sent| <= |s.sent| + 1
    ensures |s.sent| <= MAX_SENT_STATES ==> |r.sent| <= MAX_SENT_STATES
  {
    var s1 := s.(sent := s.sent + [TimestampedState(timestamp, num, state)]);
    if |s1.sent| > MAX_SENT_STATES then EraseAt(s1, |s1.sent| - 16) else s1
  }

  /** A recorded state comes last; only when there are more than 32 does another go: the one with 15 states
      behind it. */
  lemma RecordedStates(s: SenderState, t: TimestampedState)
    ensures var r, n := AddSentState(s, t.timestamp, t.num, t.state).sent, |s.sent|;
      && (n < MAX_SENT_STATES ==> r == s.sent + [t])
      && (n >= MAX_SENT_STATES ==>
            && |r| == n && r[n - 1] == t
            && (forall i | 0 <= i < n - 15 :: r[i] == s.sent[i])
            && (forall i | n - 15 <= i < n - 1 :: r[i] == s.sent[i + 1]))
  {
  }

  function NextNum(s: SenderState): nat
    requires s.sent != []
  {
    if s.shutdown then MAX_NUM else s.sent[|s.sent| - 1].num + 1
  }

  function SendInFragments(s: SenderState, diff: Diff, newNum: nat): Outcome<(SenderState, Instruction)>
    requires s.sent != []
  {
    if 0 <= s.assumed < |s.sent| then
      Ok((s.(pendingDataAck := false,
             shutdownTries := if newNum == MAX_NUM then s.shutdownTries + 1 else s.shutdownTries),
          Instruction(s.sent[s.assumed].num, newNum, s.ackNum, s.sent[0].num, diff)))
    else
      AssertFailed
  }

  /** Records `state` under the next number and sends `diff` for it. */
  function Commit(s: SenderState, e: Env, state: Stream, diff: Diff): Outcome<(SenderState, Instruction)>
    requires s.sent != []
  {
    var s1 := AddSentState(s, e.sendNow, NextNum(s), state);
    var (s2, inst) :- SendInFragments(s1, diff, NextNum(s));
    Ok((s2.(nextAckTime := e.sendNow + ACK_INTERVAL, nextSendTime := NEVER), inst))
  }

  /** Records the current state under the next number, but sends no events. */
  function SendEmptyAck(s: SenderState, e: Env): Outcome<(SenderState, Instruction)>
    requires s.sent != []
  {
    if e.sendNow < s.nextAckTime then AssertFailed else Commit(s, e, s.current, [])
  }

  function SendToReceiver(s: SenderState, diff: Diff, e: Env): Outcome<(SenderState, Instruction)>
    requires s.sent != [] && 0 <= s.assumed < |s.sent|
  {
    var (s1, inst) :- Commit(s, e, s.sent[s.assumed].state + Events(diff), diff);
    Ok((s1.(assumed := |s1.sent| - 1), inst))
  }

  function DiffFrom(state: Stream, existing: Stream): Outcome<Diff> {
    if existing <= state then Ok(Encode(state[|existing|..])) else AssertFailed
  }

  /** The part of `tick` that follows the timers: decide what to send, and send it. */
  function SendIfDue(s1: SenderState, e: Env): Outcome<(SenderState, Option<Instruction>)>
    requires s1.sent != [] && 0 <= s1.assumed < |s1.sent|
  {
    if !e.hasRemoteAddr || (e.tickNow < s1.nextAckTime && e.tickNow < s1.nextSendTime) then
      Ok((s1, None))
    else
      var diff :- if e.window > WINDOW_GATE then DiffFrom(s1.current, s1.sent[s1.assumed].state) else Ok([]);
      if diff == [] && e.tickNow >= s1.nextAckTime then
        var (s2, inst) :- SendEmptyAck(s1, e);
        Ok((s2.(mindelayClock := NEVER), Some(inst)))
      else if diff != [] && (e.tickNow >= s1.nextSendTime || e.tickNow >= s1.nextAckTime) then
        var (s2, inst) :- SendToReceiver(s1, diff, e);
        Ok((s2.(mindelayClock := NEVER), Some(inst)))
      else
        Ok((s1, None))
  }

  function Tick(s: SenderState, e: Env): Outcome<(SenderState, Option<Instruction>)>
    requires s.sent != []
  {
    var s1 :- CalculateTimers(s, e);
    SendIfDue(s1, e)
  }

  /** The milliseconds until the next event, as a 32-bit integer, and no more than the connection's own. */
  function WaitFor(s: SenderState, e: Env, tickLength: int): Outcome<(SenderState, int)>
    requires s.sent != []
  {
    var s1 :- CalculateTimers(s, e);
    var wakeup := if s1.nextSendTime < s1.nextAckTime then s1.nextSendTime else s1.nextAckTime;
    var wait := Int32(wakeup - e.tickNow);
    var capped := if tickLength < wait then tickLength else wait;
    Ok((s1, if !e.hasRemoteAddr then INT_MAX else if capped < 0 then 0 else capped))
  }

  // ---- process_acknowledgment_through ----

  predicate HasNum(states: seq<TimestampedState>, num: nat) {
    exists i :: 0 <= i < |states| && states[i].num == num
  }

  /** The states whose number is at least `num`, in order. */
  function NotBelow(states: seq<TimestampedState>, num: nat): seq<TimestampedState> {
    if states == [] then []
    else
      var init := NotBelow(states[..|states| - 1], num);
      if states[|states| - 1].num < num then init else init + [states[|states| - 1]]
  }

  function ProcessAck(s: SenderState, ackNum: nat): Outcome<SenderState> {
    if HasNum(s.sent, ackNum) then
      var s1 := s.(sent := NotBelow(s.sent, ackNum),
                   assumed :=
                     if 0 <= s.assumed < |s.sent| && s.sent[s.assumed].num >= ackNum
                     then |NotBelow(s.sent[..s.assumed], ackNum)| else -1);
      if s1.sent == [] then AssertFailed else Ok(s1)
    else if s.sent == [] then AssertFailed
    else Ok(s)
  }

  /** A copy of `base` with the events of `diff` applied. */
  method Applied(base: Stream, diff: Diff) returns (r: Stream)
    ensures r == base + Events(diff)
  {
    var copy := new UserStream(base);
    copy.ApplyString(diff);
    return copy.actions;
  }

  method DiffBetween(state: Stream, existing: Stream) returns (r: Outcome<Diff>)
    ensures r == DiffFrom(state, existing)
  {
    var a := new UserStream(state);
    var b := new UserStream(existing);
    r := a.DiffFrom(b);
  }

  class TransportSender {
    var currentState: Stream
    var sentStates: seq<TimestampedState>
    var assumedReceiverState: int
    var nextAckTime: nat
    var nextSendTime: nat
    var shutdownInProgress: bool
    var shutdownTries: nat
    var ackNum: nat
    var pendingDataAck: bool
    var sendMinDelay: nat
    var lastHeard: nat
    var mindelayClock: nat

    ghost function State(): SenderState
      reads this
    {
      SenderState(currentState, sentStates, assumedReceiverState, nextAckTime, nextSendTime,
                  shutdownInProgress, shutdownTries, ackNum, pendingDataAck, sendMinDelay,
                  lastHeard, mindelayClock)
    }

    constructor (now: nat, delay: nat)
      ensures State() == InitialSender(now, delay)
    {
      currentState, sentStates, assumedReceiverState := [], [TimestampedState(now, 0, [])], 0;
      nextAckTime, nextSendTime, shutdownInProgress, shutdownTries := now, now, false, 0;
      ackNum, pendingDataAck, sendMinDelay, lastHeard, mindelayClock := 0, false, delay, 0, NEVER;
    }

    method UpdateAssumedReceiverState(now: nat, timeout: nat) returns (ok: bool)
      requires sentStates != []
      modifies this
      ensures ok <==> UpdateAssumed(old(State()), now, timeout).Ok?
      ensures ok ==> UpdateAssumed(old(State()), now, timeout) == Ok(State())
    {
      assumedReceiverState := 0;
      var i := 1;
      while i != |sentStates|
        invariant 1 <= i <= |sentStates| && assumedReceiverState == i - 1
        invariant LastRecent(sentStates, now, timeout, 1) == LastRecent(sentStates, now, timeout, i)
        invariant State() == old(State()).(assumed := assumedReceiverState)
        decreases |sentStates| - i
      {
        if now < sentStates[i].timestamp {
          return false;
        }
        if now - sentStates[i].timestamp < timeout + ACK_DELAY {
          assumedReceiverState := i;
        } else {
          return true;
        }
        i := i + 1;
      }
      return true;
    }

    /** `known` is a pointer to the first state of the list, which is subtracted from itself last. */
    method RationalizeStates() returns (ok: bool)
      requires sentStates != []
      modifies this
      ensures ok <==> Rationalize(old(State())).Ok?
      ensures ok ==> Rationalize(old(State())) == Ok(State())
    {
      var known := new UserStream(sentStates[0].state);
      var current := new UserStream(currentState);
      ok := current.Subtract(known);
      if !ok {
        return;
      }
      currentState := current.actions;
      var i := |sentStates|;
      while i > 0
        invariant 0 <= i <= |sentStates| == |old(sentStates)|
        invariant i > 0 ==> known.actions == old(sentStates)[0].state
        invariant fresh(known)
        invariant forall j | i <= j < |sentStates| ::
            old(sentStates)[0].state <= old(sentStates)[j].state &&
            sentStates[j] == Cut(old(sentStates)[j], |old(sentStates)[0].state|)
        invariant forall j | 0 <= j < i :: sentStates[j] == old(sentStates)[j]
        invariant State() == old(State()).(current := currentState, sent := sentStates)
        invariant old(sentStates)[0].state <= old(currentState)
        invariant currentState == old(currentState)[|old(sentStates)[0].state|..]
      {
        i := i - 1;
        var state := known;
        if i != 0 {
          state := new UserStream(sentStates[i].state);
        }
        ok := state.Subtract(known);
        if !ok {
          return;
        }
        sentStates := sentStates[i := sentStates[i].(state := state.actions)];
      }
      assert sentStates == CutAll(old(sentStates), old(sentStates)[0].state);
    }

    method UpdateTimers(e: Env) returns (ok: bool)
      requires sentStates != []
      modifies this
      ensures ok <==> CalculateTimers(old(State()), e).Ok?
      ensures ok ==> CalculateTimers(old(State()), e) == Ok(State())
    {
      ok := UpdateAssumedReceiverState(e.now, e.timeout);
      if !ok { return; }
      ok := RationalizeStates();
      if !ok { return; }
      if !(0 <= assumedReceiverState < |sentStates|) { return false; }
      ScheduleTimers(e);
    }

    method ScheduleTimers(e: Env)
      requires sentStates != [] && 0 <= assumedReceiverState < |sentStates|
      modifies this
      ensures State() == SetTimers(old(State()), e)
    {
      if pendingDataAck && nextAckTime > e.now + ACK_DELAY {
        nextAckTime := e.now + ACK_DELAY;
      }
      ScheduleSend(e);
      if shutdownInProgress || ackNum == MAX_NUM {
        nextAckTime := sentStates[|sentStates| - 1].timestamp + e.sendInterval;
      }
    }

    method ScheduleSend(e: Env)
      requires sentStates != [] && 0 <= assumedReceiverState < |sentStates|
      modifies this`mindelayClock, this`nextSendTime
      ensures mindelayClock == if old(currentState != sentStates[|sentStates| - 1].state && mindelayClock == NEVER)
                               then e.now else old(mindelayClock)
      ensures nextSendTime == SendTime(old(State()), e, mindelayClock)
    {
      var back := sentStates[|sentStates| - 1];
      if currentState != back.state {
        if mindelayClock == NEVER {
          mindelayClock := e.now;
        }
        nextSendTime := Max(mindelayClock + sendMinDelay, back.timestamp + e.sendInterval);
      } else if currentState != sentStates[assumedReceiverState].state && lastHeard + ACTIVE_RETRY_TIMEOUT > e.now {
        nextSendTime := back.timestamp + e.sendInterval;
        if mindelayClock != NEVER {
          nextSendTime := Max(nextSendTime, mindelayClock + sendMinDelay);
        }
      } else if currentState != sentStates[0].state && lastHeard + ACTIVE_RETRY_TIMEOUT > e.now {
        nextSendTime := back.timestamp + e.timeout + ACK_DELAY;
      } else {
        nextSendTime := NEVER;
      }
    }

    method RecordSentState(timestamp: nat, num: nat, state: Stream)
      modifies this
      ensures State() == AddSentState(old(State()), timestamp, num, state)
    {
      sentStates := sentStates + [TimestampedState(timestamp, num, state)];
      if |sentStates| > MAX_SENT_STATES {
        var last := |sentStates|;
        for i := 0 to 16
          invariant last == |sentStates| - i
        {
          last := last - 1;
        }
        assumedReceiverState :=
          if assumedReceiverState < last then assumedReceiverState
          else if assumedReceiverState == last then -1 else assumedReceiverState - 1;
        sentStates := sentStates[..last] + sentStates[last + 1..];
      }
    }

    method MakeInstruction(diff: Diff, newNum: nat) returns (r: Outcome<Instruction>)
      requires sentStates != []
      modifies this
      ensures r.Ok? <==> SendInFragments(old(State()), diff, newNum).Ok?
      ensures r.Ok? ==> SendInFragments(old(State()), diff, newNum) == Ok((State(), r.value))
    {
      if !(0 <= assumedReceiverState < |sentStates|) {
        return AssertFailed;
      }
      r := Ok(Instruction(sentStates[assumedReceiverState].num, newNum, ackNum, sentStates[0].num, diff));
      if newNum == MAX_NUM {
        shutdownTries := shutdownTries + 1;
      }
      pendingDataAck := false;
    }

    method RecordAndSend(e: Env, state: Stream, diff: Diff) returns (r: Outcome<Instruction>)
      requires sentStates != []
      modifies this
      ensures r.Ok? <==> Commit(old(State()), e, state, diff).Ok?
      ensures r.Ok? ==> Commit(old(State()), e, state, diff) == Ok((State(), r.value))
    {
      var newNum := sentStates[|sentStates| - 1].num + 1;
      if shutdownInProgress {
        newNum := MAX_NUM;
      }
      RecordSentState(e.sendNow, newNum, state);
      r := MakeInstruction(diff, newNum);
      nextAckTime := e.sendNow + ACK_INTERVAL;
      nextSendTime := NEVER;
    }

    method TransmitEmptyAck(e: Env) returns (r: Outcome<Instruction>)
      requires sentStates != []
      modifies this
      ensures r.Ok? <==> SendEmptyAck(old(State()), e).Ok?
      ensures r.Ok? ==> SendEmptyAck(old(State()), e) == Ok((State(), r.value))
    {
      if e.sendNow < nextAckTime {
        return AssertFailed;
      }
      r := RecordAndSend(e, currentState, []);
    }

    method TransmitDiff(diff: Diff, e: Env) returns (r: Outcome<Instruction>)
      requires sentStates != [] && 0 <= assumedReceiverState < |sentStates|
      modifies this
      ensures r.Ok? <==> SendToReceiver(old(State()), diff, e).Ok?
      ensures r.Ok? ==> SendToReceiver(old(State()), diff, e) == Ok((State(), r.value))
    {
      var newState := Applied(sentStates[assumedReceiverState].state, diff);
      r := RecordAndSend(e, newState, diff);
      if r.Ok? {
        assumedReceiverState := |sentStates| - 1;
      }
    }

    method DoTick(e: Env) returns (r: Outcome<Option<Instruction>>)
      requires sentStates != []
      modifies this
      ensures r.Ok? <==> Tick(old(State()), e).Ok?
      ensures r.Ok? ==> Tick(old(State()), e) == Ok((State(), r.value))
    {
      var ok := UpdateTimers(e);
      if !ok { return AssertFailed; }
      r := TransmitIfDue(e);
    }

    method WaitTime(e: Env, tickLength: int) returns (r: Outcome<int>)
      requires sentStates != []
      modifies this
      ensures r.Ok? <==> WaitFor(old(State()), e, tickLength).Ok?
      ensures r.Ok? ==> WaitFor(old(State()), e, tickLength) == Ok((State(), r.value))
    {
      hide CalculateTimers;
      var ok := UpdateTimers(e);
      if !ok { return AssertFailed; }
      var nextWakeup := nextAckTime;
      if nextSendTime < nextWakeup {
        nextWakeup := nextSendTime;
      }
      if !e.hasRemoteAddr {
        return Ok(INT_MAX);
      }
      var ret := Int32(nextWakeup - e.tickNow);
      if tickLength < ret {
        ret := tickLength;
      }
      if ret < 0 {
        ret := 0;
      }
      return Ok(ret);
    }

    method TransmitIfDue(e: Env) returns (r: Outcome<Option<Instruction>>)
      requires sentStates != [] && 0 <= assumedReceiverState < |sentStates|
      modifies this
      ensures r.Ok? <==> SendIfDue(old(State()), e).Ok?
      ensures r.Ok? ==> SendIfDue(old(State()), e) == Ok((State(), r.value))
    {
      if !e.hasRemoteAddr || (e.tickNow < nextAckTime && e.tickNow < nextSendTime) {
        return Ok(None);
      }
      var diff: Diff := [];
      if e.window > WINDOW_GATE {
        var d := DiffBetween(currentState, sentStates[assumedReceiverState].state);
        if d.AssertFailed? { return AssertFailed; }
        diff := d.value;
      }
      assert State() == old(State());
      if diff == [] && e.tickNow >= nextAckTime {
        var sent := TransmitEmptyAck(e);
        if sent.AssertFailed? { return AssertFailed; }
        mindelayClock := NEVER;
        return Ok(Some(sent.value));
      } else if diff != [] && (e.tickNow >= nextSendTime || e.tickNow >= nextAckTime) {
        var sent := TransmitDiff(diff, e);
        if sent.AssertFailed? { return AssertFailed; }
        mindelayClock := NEVER;
        return Ok(Some(sent.value));
      }
      return Ok(None);
    }

    method ProcessAcknowledgmentThrough(ack: nat) returns (ok: bool)
      modifies this
      ensures ok <==> ProcessAck(old(State()), ack).Ok?
      ensures ok ==> ProcessAck(old(State()), ack) == Ok(State())
    {
      var i := 0;
      while i < |sentStates| && sentStates[i].num != ack
        invariant 0 <= i <= |sentStates|
        invariant forall j | 0 <= j < i :: sentStates[j].num != ack
      {
        i := i + 1;
      }
      if i < |sentStates| {
        var kept: seq<TimestampedState> := [];
        var assumed := -1;
        for j := 0 to |sentStates|
          invariant kept == NotBelow(sentStates[..j], ack)
          invariant assumed == if 0 <= assumedReceiverState < j && sentStates[assumedReceiverState].num >= ack
                               then |NotBelow(sentStates[..assumedReceiverState], ack)| else -1
        {
          assert sentStates[..j + 1][..j] == sentStates[..j];
          if !(sentStates[j].num < ack) {
            if j == assumedReceiverState {
              assumed := |kept|;
            }
            kept := kept + [sentStates[j]];
          }
        }
        assert sentStates[..|sentStates|] == sentStates;
        sentStates, assumedReceiverState := kept, assumed;
      }
      ok := sentStates != [];
    }
  }
}
