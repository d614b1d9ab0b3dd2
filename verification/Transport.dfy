/** The receiving half of the state synchronisation protocol (network/networktransport.cc),
    from a complete instruction onward. As in TransportSenders, every operation is first a
    function on states and then a method with the original's loops proved to compute it. */
module Transports {
  import opened Outcomes
  import opened UserStreams
  import opened TransportSenders

  const MAX_RECEIVED_STATES := 1024

  datatype ReceiverState = ReceiverState(received: seq<TimestampedState>, last: Stream)

  function InitialReceiver(now: nat): ReceiverState {
    ReceiverState([TimestampedState(now, 0, [])], [])
  }

  /** Position of the first state numbered `num`, or the length of the list. */
  function Find(states: seq<TimestampedState>, num: nat, i: nat := 0): (r: nat)
    requires i <= |states|
    ensures i <= r <= |states|
    ensures r < |states| ==> states[r].num == num
    ensures forall j | i <= j < r :: states[j].num != num
    decreases |states| - i
  {
    if i == |states| || states[i].num == num then i else Find(states, num, i + 1)
  }

  /** Position of the first state numbered above `num`, or the length of the list. */
  function FirstAbove(states: seq<TimestampedState>, num: nat, i: nat := 0): (r: nat)
    requires i <= |states|
    ensures i <= r <= |states|
    ensures r < |states| ==> states[r].num > num
    ensures forall j | i <= j < r :: states[j].num <= num
    decreases |states| - i
  {
    if i == |states| || states[i].num > num then i else FirstAbove(states, num, i + 1)
  }

  function Accept(s: SenderState, received: seq<TimestampedState>, t: TimestampedState, hasDiff: bool)
    : (SenderState, seq<TimestampedState>)
  {
    var k := FirstAbove(received, t.num);
    (if k < |received| then s
     else s.(ackNum := t.num, lastHeard := t.timestamp, pendingDataAck := s.pendingDataAck || hasDiff),
     received[..k] + [t] + received[k..])
  }

  /** The data part of `recv`: what an instruction does to the received states and, through
      `set_ack_num`, to the sender of the same endpoint. */
  function Incorporate(s: SenderState, r: ReceiverState, inst: Instruction, now: nat)
    : Outcome<(SenderState, ReceiverState)>
  {
    var ref := Find(r.received, inst.oldNum);
    if HasNum(r.received, inst.newNum) || ref == |r.received| then Ok((s, r))
    else
      var kept := NotBelow(r.received, inst.throwawayNum);
      if kept == [] then AssertFailed
      else if |kept| > MAX_RECEIVED_STATES then Ok((s, r.(received := kept)))
      else if inst.oldNum < inst.throwawayNum then AssertFailed // reference erased
      else
        var t := TimestampedState(now, inst.newNum, r.received[ref].state + Events(inst.diff));
        var (s', received) := Accept(s, kept, t, inst.diff != []);
        Ok((s', r.(received := received)))
  }

  function Recv(s: SenderState, r: ReceiverState, inst: Instruction, now: nat)
    : Outcome<(SenderState, ReceiverState)>
  {
    var s1 :- ProcessAck(s, inst.ackNum);
    Incorporate(s1, r, inst, now)
  }

  function GetRemoteDiff(r: ReceiverState): Outcome<(ReceiverState, Diff)>
    requires r.received != []
  {
    var back := r.received[|r.received| - 1].state;
    var oldest := r.received[0].state;
    var diff :- DiffFrom(back, r.last);
    if AllExtend(r.received, oldest) then
      Ok((ReceiverState(CutAll(r.received, oldest), back[|oldest|..]), diff))
    else
      AssertFailed
  }

  lemma {:induction false} NotBelowMembers(states: seq<TimestampedState>, num: nat)
    ensures forall i | 0 <= i < |states| && states[i].num >= num :: states[i] in NotBelow(states, num)
    ensures forall t | t in NotBelow(states, num) :: t in states && t.num >= num
    ensures |NotBelow(states, num)| <= |states|
    ensures states != [] && states[|states| - 1].num >= num ==>
              NotBelow(states, num) != [] && NotBelow(states, num)[|NotBelow(states, num)| - 1] == states[|states| - 1]
  {
    if states != [] {
      NotBelowMembers(states[..|states| - 1], num);
    }
  }

  /** What an instruction does whose reference is held: one that is known already changes nothing. Any other throws away
      the states below its number; if there is room, the reference with the diff's events is put in order of the
      numbers, and acknowledged if it is the last. That fails exactly when the reference was thrown away. */
  lemma IncorporateEffect(s: SenderState, r: ReceiverState, inst: Instruction, now: nat) returns (i: nat, k: nat)
    requires HasNum(r.received, inst.oldNum)
    ensures i < |r.received| && r.received[i].num == inst.oldNum
    ensures var kept := NotBelow(r.received, inst.throwawayNum);
      && k <= |kept| && (inst.throwawayNum <= inst.oldNum ==> kept != [])
      && (forall j | 0 <= j < k :: kept[j].num <= inst.newNum) && (k < |kept| ==> inst.newNum < kept[k].num)
      && var t := TimestampedState(now, inst.newNum, r.received[i].state + Events(inst.diff));
      Incorporate(s, r, inst, now) ==
        if HasNum(r.received, inst.newNum) then Ok((s, r))
        else if |kept| > MAX_RECEIVED_STATES then Ok((s, r.(received := kept)))
        else if inst.oldNum < inst.throwawayNum then AssertFailed
        else Ok((if k < |kept| then s
                 else s.(ackNum := inst.newNum, lastHeard := now,
                         pendingDataAck := s.pendingDataAck || inst.diff != []),
                 r.(received := kept[..k] + [t] + kept[k..])))
  {
    hide NotBelow, Events;
    i := Find(r.received, inst.oldNum);
    var j :| 0 <= j < |r.received| && r.received[j].num == inst.oldNum;
    NotBelowMembers(r.received, inst.throwawayNum);
    if inst.throwawayNum <= inst.oldNum {
      assert r.received[j] in NotBelow(r.received, inst.throwawayNum);
    }
    k := FirstAbove(NotBelow(r.received, inst.throwawayNum), inst.newNum);
  }

  lemma UnreferencedChangesNothing(s: SenderState, r: ReceiverState, inst: Instruction, now: nat)
    requires !HasNum(r.received, inst.oldNum)
    ensures Incorporate(s, r, inst, now) == Ok((s, r))
  {
  }

  class Transport {
    const sender: TransportSender
    var receivedStates: seq<TimestampedState>
    var lastReceiverState: Stream

    ghost function Receiver(): ReceiverState
      reads this
    {
      ReceiverState(receivedStates, lastReceiverState)
    }

    constructor (now: nat, delay: nat)
      ensures sender.State() == InitialSender(now, delay) && Receiver() == InitialReceiver(now)
      ensures fresh(sender)
    {
      sender := new TransportSender(now, delay);
      receivedStates, lastReceiverState := [TimestampedState(now, 0, [])], [];
    }

    method ProcessThrowawayUntil(throwawayNum: nat) returns (ok: bool)
      modifies this
      ensures receivedStates == NotBelow(old(receivedStates), throwawayNum)
      ensures lastReceiverState == old(lastReceiverState)
      ensures ok <==> receivedStates != []
    {
      var kept: seq<TimestampedState> := [];
      for i := 0 to |receivedStates|
        invariant kept == NotBelow(receivedStates[..i], throwawayNum)
        invariant Receiver() == old(Receiver())
      {
        assert receivedStates[..i + 1][..i] == receivedStates[..i];
        if !(receivedStates[i].num < throwawayNum) {
          kept := kept + [receivedStates[i]];
        }
      }
      assert receivedStates[..|receivedStates|] == receivedStates;
      receivedStates := kept;
      ok := |receivedStates| > 0;
    }

    /** Inserts the new state in its sorted place; a state that becomes the newest is acknowledged. */
    method InsertState(t: TimestampedState, hasDiff: bool)
      modifies this, sender
      ensures (sender.State(), receivedStates) == Accept(old(sender.State()), old(receivedStates), t, hasDiff)
      ensures lastReceiverState == old(lastReceiverState)
    {
      var i := 0;
      while i != |receivedStates|
        invariant 0 <= i <= |receivedStates|
        invariant FirstAbove(receivedStates, t.num) == FirstAbove(receivedStates, t.num, i)
        invariant Receiver() == old(Receiver()) && sender.State() == old(sender.State())
        decreases |receivedStates| - i
      {
        if receivedStates[i].num > t.num {
          receivedStates := receivedStates[..i] + [t] + receivedStates[i..];
          return;
        }
        i := i + 1;
      }
      receivedStates := receivedStates + [t];
      assert receivedStates == old(receivedStates)[..i] + [t] + old(receivedStates)[i..];
      sender.ackNum := receivedStates[|receivedStates| - 1].num;
      sender.lastHeard := t.timestamp;
      if hasDiff {
        sender.pendingDataAck := true;
      }
    }

    method ReceiveData(inst: Instruction, now: nat) returns (ok: bool)
      modifies this, sender
      ensures ok <==> Incorporate(old(sender.State()), old(Receiver()), inst, now).Ok?
      ensures ok ==> Incorporate(old(sender.State()), old(Receiver()), inst, now) == Ok((sender.State(), Receiver()))
    {
      for i := 0 to |receivedStates|
        invariant forall j | 0 <= j < i :: receivedStates[j].num != inst.newNum
        invariant Receiver() == old(Receiver()) && sender.State() == old(sender.State())
      {
        if inst.newNum == receivedStates[i].num {
          return true;
        }
      }
      var reference := 0;
      while reference != |receivedStates| && inst.oldNum != receivedStates[reference].num
        invariant 0 <= reference <= |receivedStates|
        invariant Find(receivedStates, inst.oldNum) == Find(receivedStates, inst.oldNum, reference)
        decreases |receivedStates| - reference
      {
        reference := reference + 1;
      }
      if reference == |receivedStates| {
        return true;
      }
      var newState := receivedStates[reference];
      ok := ProcessThrowawayUntil(inst.throwawayNum);
      if !ok {
        return;
      }
      if |receivedStates| > MAX_RECEIVED_STATES {
        return true;
      }
      if newState.num < inst.throwawayNum {
        return false;
      }
      newState := newState.(timestamp := now, num := inst.newNum);
      if inst.diff != [] {
        var applied := Applied(newState.state, inst.diff);
        newState := newState.(state := applied);
      }
      assert newState.state == old(receivedStates)[reference].state + Events(inst.diff);
      InsertState(newState, inst.diff != []);
    }

    method Receive(inst: Instruction, now: nat) returns (ok: bool)
      modifies this, sender
      ensures ok <==> Recv(old(sender.State()), old(Receiver()), inst, now).Ok?
      ensures ok ==> Recv(old(sender.State()), old(Receiver()), inst, now) == Ok((sender.State(), Receiver()))
    {
      ok := sender.ProcessAcknowledgmentThrough(inst.ackNum);
      if ok {
        ok := ReceiveData(inst, now);
      }
    }

    method TakeRemoteDiff() returns (r: Outcome<Diff>)
      requires receivedStates != []
      modifies this
      ensures r.Ok? <==> GetRemoteDiff(old(Receiver())).Ok?
      ensures r.Ok? ==> GetRemoteDiff(old(Receiver())) == Ok((Receiver(), r.value))
    {
      r := DiffBetween(receivedStates[|receivedStates| - 1].state, lastReceiverState);
      if r.AssertFailed? {
        return;
      }
      var oldest := new UserStream(receivedStates[0].state);
      var i := |receivedStates|;
      while i > 0
        invariant 0 <= i <= |receivedStates| == |old(receivedStates)|
        invariant i > 0 ==> oldest.actions == old(receivedStates)[0].state
        invariant fresh(oldest)
        invariant forall j | i <= j < |receivedStates| ::
            old(receivedStates)[0].state <= old(receivedStates)[j].state &&
            receivedStates[j] == Cut(old(receivedStates)[j], |old(receivedStates)[0].state|)
        invariant forall j | 0 <= j < i :: receivedStates[j] == old(receivedStates)[j]
      {
        i := i - 1;
        var state := oldest;
        if i != 0 {
          state := new UserStream(receivedStates[i].state);
        }
        var ok := state.Subtract(oldest);
        if !ok {
          return AssertFailed;
        }
        receivedStates := receivedStates[i := receivedStates[i].(state := state.actions)];
      }
      assert receivedStates == CutAll(old(receivedStates), old(receivedStates)[0].state);
      lastReceiverState := receivedStates[|receivedStates| - 1].state;
    }
  }
}
