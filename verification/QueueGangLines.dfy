/** Deficit round robin over CoDel queues (alfalfa/src/network/queue-gang.cc, codel.cc): each flow of a gang is a queue
    with a controller of its own, which behaves as it would alone. */
module QueueGangLines {
  import opened Outcomes
  import opened Bytes
  import opened Codels
  import opened QueueGangs
  import opened QueueGangOrders

  /** A flow's controller; one that was never used is in its first state. */
  function ServoOf(g: Gang, f: Flow): Codel {
    if f in g.servos then g.servos[f] else Codel(0, 0, 0, false)
  }

  function Contents(packets: seq<Packet>): seq<seq<Byte>> {
    seq(|packets|, i requires 0 <= i < |packets| => packets[i].contents)
  }

  /** What an action is to one flow: an arrival of its own, a dequeue while it is in turn, or nothing. */
  function Felt(g: Gang, a: Action, f: Flow): seq<Event> {
    match a
    case Arrive(_, flow, p) => if flow == f then [Enter(p.tstamp, p.contents)] else []
    case Serve(clock) => if g.active != [] && g.active[0] == f then [Leave(clock)] else []
  }

  function FeltOver(law: (nat, nat) -> nat, g: Gang, acts: seq<Action>, f: Flow): seq<Event>
    requires RunGang(CodelDisc, law, g, acts).Ok?
    decreases |acts|
  {
    if acts == [] then []
    else Felt(g, acts[0], f) + FeltOver(law, Act(CodelDisc, law, g, acts[0]).value, acts[1..], f)
  }

  /** The flow's queue and controller are those of the line. */
  predicate Like(g: Gang, f: Flow, l: Line) {
    QueueOf(g, f) == l.q && ServoOf(g, f) == l.st && (f in g.queues <==> f in g.servos)
  }

  // ---------------------------------------------------------------- one action

  lemma ArrivalLikeLine(law: (nat, nat) -> nat, limit: nat, g: Gang, flow: Flow, p: Packet, f: Flow, l: Line)
    requires Enque(CodelDisc, limit, g, flow, p).Ok? && Like(g, f, l)
    ensures var l1 := if flow == f then After(law, l, Enter(p.tstamp, p.contents)) else l;
      && Like(Enque(CodelDisc, limit, g, flow, p).value, f, l1)
      && l1.entered == l.entered + (if flow == f then [p] else []) && l1.returned == l.returned
  {
  }

  /** A service leaves the flow in turn with the controller that its dequeue leaves, and no other controller changes. */
  lemma ServeKeepsServos(clock: nat -> nat, law: (nat, nat) -> nat, g: Gang)
    requires g.active != [] && GetNextPacket(CodelDisc, clock, law, g).Ok?
    ensures var f, s := g.active[0], GetNextPacket(CodelDisc, clock, law, g).value;
      && QueueOf(g, f) != []
      && ServoOf(s.gang, f) == Deque(clock, law, ServoOf(g, f), QueueOf(g, f)).st
      && QueueOf(s.gang, f) == Deque(clock, law, ServoOf(g, f), QueueOf(g, f)).q
      && s.contents == Deque(clock, law, ServoOf(g, f), QueueOf(g, f)).p.contents
      && s.gang.queues.Keys == g.queues.Keys && s.gang.servos.Keys == g.servos.Keys
      && forall x: Flow | x != f :: ServoOf(s.gang, x) == ServoOf(g, x) && QueueOf(s.gang, x) == QueueOf(g, x)
  {
    hide Deque;
  }

  lemma HandedOne(clock: nat -> nat, law: (nat, nat) -> nat, st: Codel, q: seq<Packet>)
    requires q != []
    ensures Handed(Deque(clock, law, st, q)) == [Deque(clock, law, st, q).p]
  {
    hide Deque, Kept, TotalLength;
    var d := Deque(clock, law, st, q);
    var n := DequeTakes(clock, law, st, q);
    KeepsLast(d.log, n);
  }

  lemma {:induction false} KeepsLast(log: seq<Taken>, n: nat)
    requires |log| == n + 1 && !log[n].dropped
    ensures Kept(log) != []
  {
    if n > 0 {
      KeepsLast(log[1..], n - 1);
    }
  }

  lemma ServiceLikeLine(law: (nat, nat) -> nat, clock: nat -> nat, g: Gang, f: Flow, l: Line)
    requires g.active != [] && g.active[0] == f && GetNextPacket(CodelDisc, clock, law, g).Ok? && Like(g, f, l)
    ensures var s := GetNextPacket(CodelDisc, clock, law, g).value;
      var l1 := After(law, l, Leave(clock));
      && Like(s.gang, f, l1) && l1.entered == l.entered && Contents(l1.returned) == Contents(l.returned) + [s.contents]
  {
    hide Deque, GetNextPacket, QueueOf, ServoOf, Handed;
    ServeKeepsServos(clock, law, g);
    HandedOne(clock, law, l.st, l.q);
  }

  /** One action moves the flow as it moves the line. */
  lemma ActionLikeLine(law: (nat, nat) -> nat, g: Gang, a: Action, f: Flow, l: Line) returns (l1: Line)
    requires Act(CodelDisc, law, g, a).Ok? && Like(g, f, l)
    ensures l1 == RunLine(law, l, Felt(g, a, f)) && Like(Act(CodelDisc, law, g, a).value, f, l1)
    ensures l1.entered == l.entered + if a.Arrive? && a.flow == f then [a.packet] else []
    ensures Contents(l1.returned) == Contents(l.returned)
      + if a.Serve? && g.active != [] && g.active[0] == f
        then [GetNextPacket(CodelDisc, a.clock, law, g).value.contents] else []
  {
    hide Enque, GetNextPacket, Like, After;
    l1 := RunLine(law, l, Felt(g, a, f));
    if Felt(g, a, f) != [] {
      OneEvent(law, l, Felt(g, a, f)[0]);
    }
    match a {
      case Arrive(limit, flow, p) => ArrivalLikeLine(law, limit, g, flow, p, f, l);
      case Serve(clock) =>
        if g.active == [] {
          NothingServed(CodelDisc, clock, law, g);
        } else if g.active[0] == f {
          ServiceLikeLine(law, clock, g, f, l);
        } else {
          OthersLikeLine(law, clock, g, f, l);
        }
    }
  }

  lemma OthersLikeLine(law: (nat, nat) -> nat, clock: nat -> nat, g: Gang, f: Flow, l: Line)
    requires g.active != [] && g.active[0] != f && GetNextPacket(CodelDisc, clock, law, g).Ok? && Like(g, f, l)
    ensures Like(GetNextPacket(CodelDisc, clock, law, g).value.gang, f, l)
  {
    hide Deque, GetNextPacket, QueueOf, ServoOf;
    ServeKeepsServos(clock, law, g);
  }

  lemma OneEvent(law: (nat, nat) -> nat, l: Line, e: Event)
    ensures RunLine(law, l, [e]) == After(law, l, e)
  {
    hide After;
    assert [e][1..] == [];
    assert RunLine(law, After(law, l, e), []) == After(law, l, e);
  }

  lemma {:induction false} LinesJoin(law: (nat, nat) -> nat, l: Line, a: seq<Event>, b: seq<Event>)
    ensures RunLine(law, l, a + b) == RunLine(law, RunLine(law, l, a), b)
    decreases |a|
  {
    hide After;
    if a == [] {
      assert a + b == b;
    } else {
      assert (a + b)[0] == a[0] && (a + b)[1..] == a[1..] + b;
      LinesJoin(law, After(law, l, a[0]), a[1..], b);
    }
  }

  // ---------------------------------------------------------------- whole runs

  lemma EmptyRun(law: (nat, nat) -> nat, g: Gang, acts: seq<Action>, f: Flow, l: Line)
    requires acts == []
    ensures RunGang(CodelDisc, law, g, acts) == Ok(g) && FeltOver(law, g, acts, f) == []
    ensures Arrivals(acts, f) == [] && Returned(CodelDisc, law, g, acts, f) == [] && RunLine(law, l, []) == l
  {
  }

  lemma FirstOk(law: (nat, nat) -> nat, g: Gang, acts: seq<Action>)
    requires acts != [] && RunGang(CodelDisc, law, g, acts).Ok?
    ensures var r := Act(CodelDisc, law, g, acts[0]);
      r.Ok? && RunGang(CodelDisc, law, g, acts) == RunGang(CodelDisc, law, r.value, acts[1..])
  {
    hide Act;
  }

  lemma RunUnfolds(law: (nat, nat) -> nat, g: Gang, acts: seq<Action>, f: Flow)
    requires acts != [] && RunGang(CodelDisc, law, g, acts).Ok? && Act(CodelDisc, law, g, acts[0]).Ok?
    requires RunGang(CodelDisc, law, Act(CodelDisc, law, g, acts[0]).value, acts[1..]).Ok?
    ensures var a, next, rest := acts[0], Act(CodelDisc, law, g, acts[0]).value, acts[1..];
      && FeltOver(law, g, acts, f) == Felt(g, a, f) + FeltOver(law, next, rest, f)
      && Arrivals(acts, f) == (if a.Arrive? && a.flow == f then [a.packet] else []) + Arrivals(rest, f)
      && Returned(CodelDisc, law, g, acts, f)
         == (if a.Serve? && g.active != [] && g.active[0] == f
             then [GetNextPacket(CodelDisc, a.clock, law, g).value.contents] else [])
          + Returned(CodelDisc, law, next, rest, f)
  {
    hide Act, GetNextPacket, Felt;
  }

  /** Over every run with the CoDel discipline each flow is a line fed with its own arrivals and dequeues: the same
      queue, the same controller, the same packets entered and handed on. */
  lemma {:induction false} FlowIsLine(law: (nat, nat) -> nat, g: Gang, acts: seq<Action>, f: Flow, l: Line)
    returns (end: Line)
    requires RunGang(CodelDisc, law, g, acts).Ok? && Like(g, f, l)
    ensures end == RunLine(law, l, FeltOver(law, g, acts, f)) && Like(RunGang(CodelDisc, law, g, acts).value, f, end)
    ensures end.entered == l.entered + Arrivals(acts, f)
    ensures Contents(end.returned) == Contents(l.returned) + Returned(CodelDisc, law, g, acts, f)
    decreases |acts|
  {
    hide Act, Like, Felt, GetNextPacket, Contents, RunLine, FeltOver, Returned, Arrivals, RunGang;
    if acts == [] {
      end := l;
      EmptyRun(law, g, acts, f, l);
    } else {
      FirstOk(law, g, acts);
      var next, rest := Act(CodelDisc, law, g, acts[0]).value, acts[1..];
      var l1 := ActionLikeLine(law, g, acts[0], f, l);
      end := FlowIsLine(law, next, rest, f, l1);
      LinesJoin(law, l, Felt(g, acts[0], f), FeltOver(law, next, rest, f));
      RunUnfolds(law, g, acts, f);
    }
  }

  /** So from the empty gang everything that holds of a line holds of each flow: its packets leave in order, those
      handed out are those not dropped, and every dropped one had waited for the target time, taken an interval after a
      dequeue since which the flow stood. */
  lemma FlowsAreLines(law: (nat, nat) -> nat, acts: seq<Action>, f: Flow) returns (l: Line)
    requires RunGang(CodelDisc, law, EmptyGang(), acts).Ok?
    requires TimelyRun(law, InitialLine(), FeltOver(law, EmptyGang(), acts, f))
    ensures l == RunLine(law, InitialLine(), FeltOver(law, EmptyGang(), acts, f))
    ensures Like(RunGang(CodelDisc, law, EmptyGang(), acts).value, f, l)
    ensures l.entered == Arrivals(acts, f) && l.entered == Packets(l.log) + l.q
    ensures Contents(l.returned) == Returned(CodelDisc, law, EmptyGang(), acts, f) && l.returned == Kept(l.log)
    ensures DropsOk(l.log)
    ensures forall k | 0 <= k < |l.log| && l.log[k].dropped :: l.log[k].packet.tstamp + TARGET <= l.log[k].time
  {
    hide RunGang, RunLine, FeltOver, TimelyRun, Returned, Packets, Kept, DropsOk, Arrivals;
    l := FlowIsLine(law, EmptyGang(), acts, f, InitialLine());
    LineFromStart(law, FeltOver(law, EmptyGang(), acts, f));
    assert [] + Arrivals(acts, f) == Arrivals(acts, f);
    var none: seq<Packet> := [];
    assert Contents(none) == [] && [] + Returned(CodelDisc, law, EmptyGang(), acts, f)
      == Returned(CodelDisc, law, EmptyGang(), acts, f);
  }

  lemma {:induction false} KeptFewer(log: seq<Taken>, k: nat)
    requires k < |log| && log[k].dropped
    ensures |Kept(log)| < |log|
  {
    if k > 0 {
      KeptFewer(log[1..], k - 1);
    } else {
      KeptAtMost(log[1..]);
    }
  }

  lemma {:induction false} KeptAtMost(log: seq<Taken>)
    ensures |Kept(log)| <= |log|
  {
    if log != [] {
      KeptAtMost(log[1..]);
    }
  }

  /** And a flow that stands at each of its dequeues, two of them two intervals apart, loses a packet: fewer were handed
      out or wait than arrived. */
  lemma StandingFlowDrops(law: (nat, nat) -> nat, acts: seq<Action>, f: Flow, i: nat, j: nat)
    requires RunGang(CodelDisc, law, EmptyGang(), acts).Ok?
    requires var events := FeltOver(law, EmptyGang(), acts, f);
      && TimelyRun(law, InitialLine(), events) && StandsThroughout(law, InitialLine(), events)
      && i < j < |events| && events[i].Leave? && events[j].Leave?
      && events[i].clock(1) + 2 * INTERVAL <= events[j].clock(0)
    ensures |Returned(CodelDisc, law, EmptyGang(), acts, f)|
          + |QueueOf(RunGang(CodelDisc, law, EmptyGang(), acts).value, f)| < |Arrivals(acts, f)|
  {
    hide RunGang, RunLine, FeltOver, TimelyRun, StandsThroughout, Returned, Kept, DropsOk, Arrivals;
    var l := FlowsAreLines(law, acts, f);
    StandingQueueDrops(law, InitialLine(), FeltOver(law, EmptyGang(), acts, f), i, j);
    var k :| 0 <= k < |l.log| && l.log[k].dropped;
    KeptFewer(l.log, k);
    assert |Contents(l.returned)| == |l.returned|;
  }
}
