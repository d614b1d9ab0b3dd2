/** Which packets deficit round robin hands out (alfalfa/src/network/queue-gang.cc): over every run the packets of each
    flow leave in the order in which they arrived, each of them once, handed out or dropped. */
module QueueGangOrders {
  import opened Outcomes
  import opened Bytes
  import opened Codels
  import opened QueueGangs

  function QueueOf(g: Gang, f: Flow): seq<Packet> {
    if f in g.queues then g.queues[f] else []
  }

  // ---------------------------------------------------------------- one service

  /** CoDel takes a packet of a queue that is not empty, whatever it drops before. */
  lemma DequeTakes(clock: nat -> nat, law: (nat, nat) -> nat, st: Codel, q: seq<Packet>) returns (n: nat)
    requires q != []
    ensures n < |q| && Took(clock, q, n, Deque(clock, law, st, q))
  {
    hide Deque, TotalLength, Since;
    if st.dropping {
      n := DropsWhileDue(clock, law, st, q);
      if n > 0 {
        assert DropsNext(clock, law, st, q, n - 1);
        MoreBehind(q[n - 1..]);
      }
    } else {
      StartsDroppingIff(clock, law, st, q);
      MoreBehind(q);
      n := if Took(clock, q, 0, Deque(clock, law, st, q)) then 0 else 1;
    }
  }

  lemma MoreBehind(q: seq<Packet>)
    requires q != []
    ensures TotalLength(q[1..]) > 0 ==> |q| > 1
  {
    if |q| == 1 {
      assert q[1..] == [];
    }
  }

  /** A service takes packets from the front of the queue of the flow in turn and hands out the contents of the last of
      them: of the first packet, unless CoDel dropped some before it. No other queue changes. */
  lemma ServeTakesNext(disc: Qdisc, clock: nat -> nat, law: (nat, nat) -> nat, g: Gang) returns (n: nat)
    requires g.active != [] && GetNextPacket(disc, clock, law, g).Ok?
    ensures var f := g.active[0];
      var q, s := QueueOf(g, f), GetNextPacket(disc, clock, law, g).value;
      && n < |q| && s.contents == q[n].contents
      && QueueOf(s.gang, f) == q[n + 1..]
      && (forall x: Flow | x != f :: QueueOf(s.gang, x) == QueueOf(g, x))
      && (disc == SproutDisc ==> n == 0)
      && (disc == CodelDisc ==> f in g.servos && Took(clock, q, n, Deque(clock, law, g.servos[f], q)))
  {
    hide Deque, Took;
    var f := g.active[0];
    var q := g.queues[f];
    if disc == CodelDisc {
      n := DequeTakes(clock, law, g.servos[f], q);
      TookFacts(clock, q, n, Deque(clock, law, g.servos[f], q));
    } else {
      n := 0;
    }
  }

  lemma TookFacts(clock: nat -> nat, q: seq<Packet>, n: nat, d: Dequeued)
    requires Took(clock, q, n, d) && n < |q|
    ensures d.q == q[n + 1..] && d.p == q[n]
  {
  }

  // ---------------------------------------------------------------- one arrival

  lemma {:induction false} AggregateCreated(g: Gang, f: Flow, n: nat)
    requires n <= 256
    ensures AggregateBelow(Created(g, f).queues, n) == AggregateBelow(g.queues, n)
  {
    if n > 0 {
      AggregateCreated(g, f, n - 1);
    }
  }

  /** The queue of flow x once v has lost its first packet and p has come to flow f. */
  function AfterArrival(g: Gang, v: Option<Flow>, f: Flow, p: Packet, x: Flow): seq<Packet> {
    (if v == Some(x) && QueueOf(g, x) != [] then QueueOf(g, x)[1..] else QueueOf(g, x)) + if x == f then [p] else []
  }

  /** The flow that loses a packet is the first with the most bytes, and has some. */
  predicate FirstLongest(g: Gang, v: Flow) {
    QueueOf(g, v) != [] && forall x: Flow ::
      && TotalLength(QueueOf(g, x)) <= TotalLength(QueueOf(g, v))
      && (x < v ==> TotalLength(QueueOf(g, x)) < TotalLength(QueueOf(g, v)))
  }

  lemma VictimIsFirstLongest(g: Gang, f: Flow, limit: nat)
    requires AggregateBelow(Created(g, f).queues, 256) > limit
    ensures var v := Victim(Created(g, f).queues, limit); v.Some? && FirstLongest(g, v.value)
  {
    hide AggregateBelow, LongestBelow;
    var g1 := Created(g, f);
    LongestWaits(g1.queues, 256);
    var v := Victim(g1.queues, limit).value;
    forall x: Flow
      ensures TotalLength(QueueOf(g, x)) == Waiting(g1.queues, x)
    {
    }
    assert Waiting(g1.queues, v) > 0;
  }

  /** An arriving packet goes to the end of its flow's queue. With the Sprout discipline, when more than the limit
      waits, one packet is dropped before that, from the front of the first flow with the most bytes. */
  lemma ArrivalQueues(disc: Qdisc, limit: nat, g: Gang, f: Flow, p: Packet) returns (v: Option<Flow>)
    requires Enque(disc, limit, g, f, p).Ok?
    ensures v.Some? <==> disc == SproutDisc && AggregateBelow(g.queues, 256) > limit
    ensures v.Some? ==> FirstLongest(g, v.value)
    ensures forall x: Flow :: QueueOf(Enque(disc, limit, g, f, p).value, x) == AfterArrival(g, v, f, p, x)
  {
    hide AggregateBelow, LongestBelow, FirstLongest, TotalLength;
    var g1 := Created(g, f);
    AggregateCreated(g, f, 256);
    v := if disc == SproutDisc then Victim(g1.queues, limit) else None;
    if disc == SproutDisc && AggregateBelow(g.queues, 256) > limit {
      VictimIsFirstLongest(g, f, limit);
    }
  }

  // ---------------------------------------------------------------- whole runs

  /** A packet that left its queue, handed out or dropped. */
  datatype Left = Left(packet: Packet, handed: bool)

  function LeftPackets(left: seq<Left>): seq<Packet> {
    seq(|left|, i requires 0 <= i < |left| => left[i].packet)
  }

  /** The contents of those handed out, in order. */
  function HandedOut(left: seq<Left>): seq<seq<Byte>> {
    if left == [] then [] else (if left[0].handed then [left[0].packet.contents] else []) + HandedOut(left[1..])
  }

  /** The packets that arrive for a flow. */
  function Arrivals(acts: seq<Action>, f: Flow): seq<Packet> {
    if acts == [] then []
    else (if acts[0].Arrive? && acts[0].flow == f then [acts[0].packet] else []) + Arrivals(acts[1..], f)
  }

  /** What the services return while a flow is in turn. */
  function Returned(disc: Qdisc, law: (nat, nat) -> nat, g: Gang, acts: seq<Action>, f: Flow): seq<seq<Byte>>
    requires RunGang(disc, law, g, acts).Ok?
    decreases |acts|
  {
    if acts == [] then [] else
      (if acts[0].Serve? && g.active != [] && g.active[0] == f
       then [GetNextPacket(disc, acts[0].clock, law, g).value.contents] else [])
      + Returned(disc, law, Act(disc, law, g, acts[0]).value, acts[1..], f)
  }

  /** The arrivals over the limit that find a flow the longest. */
  function Victims(disc: Qdisc, law: (nat, nat) -> nat, g: Gang, acts: seq<Action>, f: Flow): nat
    requires RunGang(disc, law, g, acts).Ok?
    decreases |acts|
  {
    if acts == [] then 0 else
      (if acts[0].Arrive? && disc == SproutDisc && IsVictim(g, acts[0].limit, f) then 1 else 0)
      + Victims(disc, law, Act(disc, law, g, acts[0]).value, acts[1..], f)
  }

  /** More than the limit waits, and the flow is the first with the most bytes. */
  predicate IsVictim(g: Gang, limit: nat, f: Flow) {
    && AggregateBelow(g.queues, 256) > limit
    && forall x: Flow ::
         && TotalLength(QueueOf(g, x)) <= TotalLength(QueueOf(g, f))
         && (x < f ==> TotalLength(QueueOf(g, x)) < TotalLength(QueueOf(g, f)))
  }

  /** What one action takes from a flow's queue. */
  ghost predicate Takes(q: seq<Packet>, more: seq<Packet>, q1: seq<Packet>, left: seq<Left>) {
    LeftPackets(left) + q1 == q + more
  }

  lemma ActionTakes(disc: Qdisc, law: (nat, nat) -> nat, g: Gang, a: Action, f: Flow) returns (left: seq<Left>)
    requires Act(disc, law, g, a).Ok?
    ensures Takes(QueueOf(g, f), if a.Arrive? && a.flow == f then [a.packet] else [],
                  QueueOf(Act(disc, law, g, a).value, f), left)
    ensures HandedOut(left) == if a.Serve? && g.active != [] && g.active[0] == f
                               then [GetNextPacket(disc, a.clock, law, g).value.contents] else []
    ensures disc == SproutDisc ==>
      |left| - |HandedOut(left)| == if a.Arrive? && IsVictim(g, a.limit, f) then 1 else 0
  {
    hide GetNextPacket, Enque, Takes, HandedOut, IsVictim, QueueOf;
    match a
    case Arrive(limit, flow, p) => left := ArrivalTakes(disc, limit, g, flow, p, f);
    case Serve(clock) => left := ServiceTakes(disc, clock, law, g, f);
  }

  lemma ArrivalTakes(disc: Qdisc, limit: nat, g: Gang, flow: Flow, p: Packet, f: Flow) returns (left: seq<Left>)
    requires Enque(disc, limit, g, flow, p).Ok?
    ensures Takes(QueueOf(g, f), if flow == f then [p] else [], QueueOf(Enque(disc, limit, g, flow, p).value, f), left)
    ensures HandedOut(left) == []
    ensures disc == SproutDisc ==> |left| == if IsVictim(g, limit, f) then 1 else 0
  {
    hide Enque, AggregateBelow, TotalLength;
    var q := QueueOf(g, f);
    var v := ArrivalQueues(disc, limit, g, flow, p);
    if v == Some(f) {
      left := [Left(q[0], false)];
      assert LeftPackets(left) == [q[0]] && HandedOut(left[1..]) == [];
    } else {
      left := [];
    }
  }

  lemma ServiceTakes(disc: Qdisc, clock: nat -> nat, law: (nat, nat) -> nat, g: Gang, f: Flow) returns (left: seq<Left>)
    requires GetNextPacket(disc, clock, law, g).Ok?
    ensures Takes(QueueOf(g, f), [], QueueOf(GetNextPacket(disc, clock, law, g).value.gang, f), left)
    ensures HandedOut(left) == if g.active != [] && g.active[0] == f
                               then [GetNextPacket(disc, clock, law, g).value.contents] else []
    ensures disc == SproutDisc ==> |left| == |HandedOut(left)|
  {
    hide GetNextPacket, QueueOf, Deque, Took;
    left := [];
    if g.active == [] {
      NothingServed(disc, clock, law, g);
    } else {
      var n := ServeTakesNext(disc, clock, law, g);
      if g.active[0] == f {
        var q := QueueOf(g, f);
        left := seq(n + 1, i requires 0 <= i <= n => Left(q[i], i == n));
        LastHandedOut(left, n);
        assert LeftPackets(left) == q[..n + 1];
      }
    }
  }

  lemma NothingServed(disc: Qdisc, clock: nat -> nat, law: (nat, nat) -> nat, g: Gang)
    requires g.active == []
    ensures GetNextPacket(disc, clock, law, g) == Ok(Service(g, []))
  {
  }

  lemma {:induction false} LastHandedOut(left: seq<Left>, n: nat)
    requires |left| == n + 1 && forall i | 0 <= i <= n :: left[i].handed == (i == n)
    ensures HandedOut(left) == [left[n].packet.contents]
  {
    if n > 0 {
      LastHandedOut(left[1..], n - 1);
    } else {
      assert left[1..] == [];
    }
  }

  lemma {:induction false} HandedOutJoin(a: seq<Left>, b: seq<Left>)
    ensures HandedOut(a + b) == HandedOut(a) + HandedOut(b)
  {
    if a == [] {
      assert a + b == b;
    } else {
      assert (a + b)[1..] == a[1..] + b;
      HandedOutJoin(a[1..], b);
    }
  }

  /** Over every run that no assertion stops, and for every flow: the packets that left, in order, followed by those
      still queued, are the packets queued at first and those that arrived, in order; what the services returned while
      the flow was in turn is, in order, the contents of those that left and were not dropped. With the Sprout
      discipline as many were dropped as arrivals over the limit found the flow the longest. */
  lemma {:induction false} InOrderOverRun(disc: Qdisc, law: (nat, nat) -> nat, g: Gang, acts: seq<Action>, f: Flow)
    returns (left: seq<Left>)
    requires RunGang(disc, law, g, acts).Ok?
    ensures LeftPackets(left) + QueueOf(RunGang(disc, law, g, acts).value, f) == QueueOf(g, f) + Arrivals(acts, f)
    ensures HandedOut(left) == Returned(disc, law, g, acts, f)
    ensures disc == SproutDisc ==> |left| - |HandedOut(left)| == Victims(disc, law, g, acts, f)
    decreases |acts|
  {
    hide Act, IsVictim, GetNextPacket, QueueOf;
    if acts == [] {
      left := [];
    } else {
      var next := Act(disc, law, g, acts[0]).value;
      var first := ActionTakes(disc, law, g, acts[0], f);
      var rest := InOrderOverRun(disc, law, next, acts[1..], f);
      left := first + rest;
      HandedOutJoin(first, rest);
      var more := if acts[0].Arrive? && acts[0].flow == f then [acts[0].packet] else [];
      var end := QueueOf(RunGang(disc, law, next, acts[1..]).value, f);
      JoinLeft(first, rest, QueueOf(g, f), more, QueueOf(next, f), Arrivals(acts[1..], f), end);
    }
  }

  lemma JoinLeft(first: seq<Left>, rest: seq<Left>, q: seq<Packet>, more: seq<Packet>, q1: seq<Packet>,
                 later: seq<Packet>, end: seq<Packet>)
    requires Takes(q, more, q1, first) && LeftPackets(rest) + end == q1 + later
    ensures LeftPackets(first + rest) + end == q + (more + later)
  {
    assert LeftPackets(first + rest) == LeftPackets(first) + LeftPackets(rest);
    calc {
      LeftPackets(first + rest) + end;
      LeftPackets(first) + (LeftPackets(rest) + end);
      LeftPackets(first) + (q1 + later);
      (LeftPackets(first) + q1) + later;
      (q + more) + later;
      q + (more + later);
    }
  }
}
