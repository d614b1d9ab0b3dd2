/** What receiving an instruction does with the acknowledgment it carries (network/networktransport.cc and
    network/transportsender.cc), for one call and over the rest of a run. */
module SspAcknowledgments {
  import opened Outcomes
  import opened TransportSenders
  import opened Transports
  import opened SspProtocol
  import opened SspTheorems

  /** Places of a list, in order. */
  predicate Places(kept: seq<nat>, n: nat) {
    && (forall j | 0 <= j < |kept| :: kept[j] < n)
    && forall i, j | 0 <= i < j < |kept| :: kept[i] < kept[j]
  }

  /** Exactly the states numbered from num on are left, in order. */
  predicate LeavesFrom(states: seq<TimestampedState>, num: nat, left: seq<TimestampedState>, kept: seq<nat>) {
    && Places(kept, |states|) && |left| == |kept| && (forall j | 0 <= j < |left| :: left[j] == states[kept[j]])
    && forall i | 0 <= i < |states| :: i in kept <==> num <= states[i].num
  }

  /** The sender s after the acknowledgment, as s1: an unknown number changes nothing; a known one leaves the states
      from it on, and the assumed state is the same one, or none if it went. */
  predicate Acknowledged(s: SenderState, num: nat, s1: SenderState, kept: seq<nat>) {
    if HasNum(s.sent, num) then
      && LeavesFrom(s.sent, num, s1.sent, kept)
      && (if 0 <= s.assumed < |s.sent| && num <= s.sent[s.assumed].num
          then 0 <= s1.assumed < |kept| && kept[s1.assumed] == s.assumed else s1.assumed == -1)
    else
      s1.sent == s.sent && s1.assumed == s.assumed
  }

  /** The places of the states numbered from num on. */
  ghost function PlacesFrom(states: seq<TimestampedState>, num: nat): seq<nat> {
    if states == [] then []
    else
      var n := |states| - 1;
      PlacesFrom(states[..n], num) + if states[n].num < num then [] else [n]
  }

  lemma {:induction false} NotBelowLeaves(states: seq<TimestampedState>, num: nat)
    ensures LeavesFrom(states, num, NotBelow(states, num), PlacesFrom(states, num))
  {
    hide LeavesFrom;
    if states == [] {
      NothingLeft(num);
    } else {
      var n := |states| - 1;
      NotBelowLeaves(states[..n], num);
      LeavesMore(states, num, NotBelow(states[..n], num), PlacesFrom(states[..n], num));
      assert PlacesFrom(states[..n], num) + [] == PlacesFrom(states[..n], num);
    }
  }

  lemma NothingLeft(num: nat)
    ensures LeavesFrom([], num, [], [])
  {
  }

  /** One more state, at the end. */
  lemma LeavesMore(states: seq<TimestampedState>, num: nat, left: seq<TimestampedState>, init: seq<nat>)
    requires states != [] && LeavesFrom(states[..|states| - 1], num, left, init)
    ensures var n := |states| - 1;
            if states[n].num < num then LeavesFrom(states, num, left, init)
            else LeavesFrom(states, num, left + [states[n]], init + [n])
  {
    var n := |states| - 1;
    assert forall i | 0 <= i < n :: states[..n][i] == states[i];
    var kept := init + [n];
    assert forall i | 0 <= i < n :: i in kept <==> i in init;
    assert kept[|init|] == n;
  }

  /** The place of a state that is left is the number of states left before it. */
  lemma {:induction false} PlaceAmongLeft(states: seq<TimestampedState>, num: nat, k: nat)
    requires k < |states| && num <= states[k].num
    ensures var j := |NotBelow(states[..k], num)|; j < |PlacesFrom(states, num)| && PlacesFrom(states, num)[j] == k
  {
    hide LeavesFrom;
    var n := |states| - 1;
    if k < n {
      PlaceAmongLeft(states[..n], num, k);
      assert states[..n][..k] == states[..k];
    } else {
      NotBelowLeaves(states[..n], num);
      SameLength(states[..n], num);
    }
  }

  lemma {:induction false} SameLength(states: seq<TimestampedState>, num: nat)
    ensures |PlacesFrom(states, num)| == |NotBelow(states, num)|
  {
    if states != [] {
      SameLength(states[..|states| - 1], num);
    }
  }

  /** Receiving an instruction fails exactly when there is no state in the list or its data part fails. Otherwise its
      data part does what it does without the acknowledgment, and the acknowledgment does the rest. */
  lemma RecvEffect(s: SenderState, r: ReceiverState, inst: Instruction, now: nat) returns (kept: seq<nat>)
    ensures Recv(s, r, inst, now).Ok? <==> s.sent != [] && Incorporate(s, r, inst, now).Ok?
    ensures Recv(s, r, inst, now).Ok? ==>
      var (s1, r1) := Recv(s, r, inst, now).value;
      var (s2, r2) := Incorporate(s, r, inst, now).value;
      r1 == r2 && s1 == s2.(sent := s1.sent, assumed := s1.assumed) && Acknowledged(s, inst.ackNum, s1, kept)
    ensures Recv(s, r, inst, now).Ok? ==> Recv(s, r, inst, now).value.0.sent != []
  {
    hide Incorporate, Acknowledged, ProcessAck, HasNum;
    kept := PlacesFrom(s.sent, inst.ackNum);
    AckEffect(s, inst.ackNum);
    if s.sent != [] {
      var s1 := ProcessAck(s, inst.ackNum).value;
      DataIsIndependent(s, s1.sent, s1.assumed, r, inst, now);
      if Incorporate(s1, r, inst, now).Ok? {
        AcknowledgedOnly(s, inst.ackNum, s1, Incorporate(s1, r, inst, now).value.0, kept);
      }
    }
  }

  lemma AckEffect(s: SenderState, num: nat)
    ensures ProcessAck(s, num).Ok? <==> s.sent != []
    ensures s.sent != [] ==>
      var s1 := ProcessAck(s, num).value;
      s1.sent != [] && s1 == s.(sent := s1.sent, assumed := s1.assumed)
      && Acknowledged(s, num, s1, PlacesFrom(s.sent, num))
  {
    hide LeavesFrom, PlacesFrom, NotBelow;
    NotBelowLeaves(s.sent, num);
    if i :| 0 <= i < |s.sent| && s.sent[i].num == num {
      PlaceAmongLeft(s.sent, num, i);
      SameLength(s.sent, num);
      if 0 <= s.assumed < |s.sent| && num <= s.sent[s.assumed].num {
        PlaceAmongLeft(s.sent, num, s.assumed);
      }
    }
  }

  /** The data part neither reads nor changes the list of sent states. */
  lemma DataIsIndependent(s: SenderState, sent: seq<TimestampedState>, assumed: int, r: ReceiverState,
                          inst: Instruction, now: nat)
    ensures var one := Incorporate(s, r, inst, now);
      var two := Incorporate(s.(sent := sent, assumed := assumed), r, inst, now);
      && (one.Ok? <==> two.Ok?)
      && (one.Ok? ==>
            && one.value.1 == two.value.1 && two.value.0 == one.value.0.(sent := sent, assumed := assumed)
            && one.value.0.sent == s.sent && one.value.0.assumed == s.assumed)
  {
    hide NotBelow;
  }

  lemma AcknowledgedOnly(s: SenderState, num: nat, s1: SenderState, s2: SenderState, kept: seq<nat>)
    requires Acknowledged(s, num, s1, kept) && s2.sent == s1.sent && s2.assumed == s1.assumed
    ensures Acknowledged(s, num, s2, kept)
  {
    hide LeavesFrom, HasNum;
  }

  // ---- over the rest of a run ----

  /** The first state of the list is the last one known to have arrived. */
  predicate HasFronts(sys: System) {
    sys.a.sender.sent != [] && sys.b.sender.sent != []
  }

  /** Neither front goes back, and what is sent on the way asks the peer to drop everything before the front. */
  ghost predicate Advanced(sys: System, next: System)
    requires HasFronts(sys) && HasFronts(next)
  {
    && sys.a.sender.sent[0].num <= next.a.sender.sent[0].num && sys.b.sender.sent[0].num <= next.b.sender.sent[0].num
    && sys.ab <= next.ab && (forall i | i in next.ab - sys.ab :: sys.a.sender.sent[0].num <= i.throwawayNum)
    && sys.ba <= next.ba && (forall i | i in next.ba - sys.ba :: sys.b.sender.sent[0].num <= i.throwawayNum)
  }

  lemma FrontsExist(sys: System)
    requires Inv(sys)
    ensures HasFronts(sys)
  {
    hide Inv;
    NonEmptyLists(sys);
  }

  lemma AdvancedTwice(sys: System, mid: System, next: System)
    requires HasFronts(sys) && HasFronts(mid) && HasFronts(next) && Advanced(sys, mid) && Advanced(mid, next)
    ensures Advanced(sys, next)
  {
    assert forall i | i in next.ab - sys.ab :: i in mid.ab - sys.ab || i in next.ab - mid.ab;
    assert forall i | i in next.ba - sys.ba :: i in mid.ba - sys.ba || i in next.ba - mid.ba;
  }

  /** Delivering an instruction moves the front to the number it acknowledges, if that is held, and else not at all. */
  lemma DeliverMovesFront(sys: System, inst: Instruction, at: nat) returns (next: System)
    requires Inv(sys) && Allowed(sys, Deliver(inst, at)) && HasFronts(sys)
    ensures Act(sys, Deliver(inst, at)) == Ok(next) && Inv(next) && HasFronts(next)
    ensures next.b == sys.b && next.ab == sys.ab && next.ba == sys.ba
    ensures sys.a.sender.sent[0].num <= next.a.sender.sent[0].num
    ensures next.a.sender.sent[0].num ==
      if HasNum(sys.a.sender.sent, inst.ackNum) then inst.ackNum else sys.a.sender.sent[0].num
  {
    hide Inv, Allowed, Recv, Incorporate, HasNum;
    next := DeliverKeeps(sys, inst, at);
    FrontsExist(next);
    var s, r := sys.a.sender, sys.a.receiver;
    var kept := RecvEffect(s, r, inst, at);
    SortedList(sys);
    FrontAfter(s, inst.ackNum, next.a.sender, kept);
  }

  lemma SortedList(sys: System)
    requires Inv(sys)
    ensures NumsSorted(sys.a.sender.sent)
  {
    hide NumsSorted, TimesSorted, AllDenote, HistoryInv, StrictlySorted, NetworkInv, AckInv, ReceiverInv;
  }

  lemma FrontAfter(s: SenderState, num: nat, s1: SenderState, kept: seq<nat>)
    requires s.sent != [] && s1.sent != [] && NumsSorted(s.sent) && Acknowledged(s, num, s1, kept)
    ensures s.sent[0].num <= s1.sent[0].num
    ensures s1.sent[0].num == if HasNum(s.sent, num) then num else s.sent[0].num
  {
    if HasNum(s.sent, num) {
      var i :| 0 <= i < |s.sent| && s.sent[i].num == num;
      assert i in kept;
      var j :| 0 <= j < |kept| && kept[j] == i;
      assert kept[0] in kept && s1.sent[0] == s.sent[kept[0]];
      assert kept[0] <= i;
    }
  }

  lemma ActAdvances(sys: System, action: Action) returns (next: System)
    requires Inv(sys) && Allowed(sys, action) && HasFronts(sys)
    ensures Act(sys, action) == Ok(next) && Inv(next) && HasFronts(next) && Advanced(sys, next) && next.b == sys.b
  {
    hide Inv, Allowed, CalculateTimers, Tick, Recv, GetRemoteDiff;
    match action {
      case Push(e) => next := PushActionKeeps(sys, e);
      case TickAction(env) => next := TickKeeps(sys, env);
      case WaitAction(env) => next := WaitKeeps(sys, env);
      case Deliver(inst, at) => next := DeliverMovesFront(sys, inst, at);
      case Read => next := ReadActionKeeps(sys);
      case Shutdown => next := ShutdownKeeps(sys);
    }
  }

  lemma StepAdvances(sys: System, ev: Event) returns (next: System)
    requires Inv(sys) && Allowed(if ev.byA then sys else Swap(sys), ev.action) && HasFronts(sys)
    ensures Step(sys, ev) == Ok(next) && Inv(next) && HasFronts(next) && Advanced(sys, next)
  {
    hide Direction, Act, Allowed;
    if ev.byA {
      next := ActAdvances(sys, ev.action);
    } else {
      var n := ActAdvances(Swap(sys), ev.action);
      next := Swap(n);
    }
  }

  /** Over every run, the fronts only advance. */
  lemma {:induction false} RunAdvances(sys: System, events: seq<Event>) returns (last: System)
    requires Inv(sys) && AllowedRun(sys, events) && HasFronts(sys)
    ensures Run(sys, events) == Ok(last) && Inv(last) && HasFronts(last) && Advanced(sys, last)
    decreases |events|
  {
    hide Inv, Step, Allowed, Advanced, HasFronts;
    if events == [] {
      last := sys;
      NotMoved(sys);
    } else {
      var next := StepAdvances(sys, events[0]);
      last := RunAdvances(next, events[1..]);
      AdvancedTwice(sys, next, last);
    }
  }

  lemma NotMoved(sys: System)
    requires HasFronts(sys)
    ensures Advanced(sys, sys)
  {
  }

  /** An acknowledgment stays: once an instruction that acknowledges a held state is delivered, whatever happens next,
      the list never goes back before that state, and whatever is sent from then on asks the peer to drop what comes
      before. */
  lemma AcknowledgmentStays(sys: System, inst: Instruction, at: nat, events: seq<Event>) returns (last: System)
    requires Inv(sys) && AllowedRun(sys, [Event(true, Deliver(inst, at))] + events)
    requires HasNum(sys.a.sender.sent, inst.ackNum)
    ensures Run(sys, [Event(true, Deliver(inst, at))] + events) == Ok(last)
    ensures last.a.sender.sent != [] && inst.ackNum <= last.a.sender.sent[0].num
    ensures forall i | i in last.ab - sys.ab :: inst.ackNum <= i.throwawayNum
  {
    hide Inv, Act, Allowed, HasNum;
    FrontsExist(sys);
    var all := [Event(true, Deliver(inst, at))] + events;
    assert all[1..] == events;
    var next := DeliverMovesFront(sys, inst, at);
    last := RunAdvances(next, events);
  }
}
