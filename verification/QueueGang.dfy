/**
 * Deficit round robin over per-flow queues (alfalfa/src/network/queue-gang.cc).
 */
module QueueGangs {
  import opened Outcomes
  import opened Bytes
  import opened Codels

  type Flow = f: int | 0 <= f < 256

  const MTU_SIZE: int := 1434

  datatype Qdisc = CodelDisc | SproutDisc

  datatype Gang = Gang(queues: map<Flow, seq<Packet>>, credits: map<Flow, int>, active: seq<Flow>,
                       indicator: map<Flow, bool>, servos: map<Flow, Codel>)

  function Size(p: Packet): nat {
    |p.contents|
  }

  // ---------------------------------------------------------------- arrival

  function Created(g: Gang, f: Flow): Gang {
    if f in g.queues then g else
      g.(queues := g.queues[f := []], credits := g.credits[f := 0], indicator := g.indicator[f := false],
         servos := g.servos[f := Codel(0, 0, 0, false)])
  }

  function Waiting(queues: map<Flow, seq<Packet>>, f: Flow): nat {
    if f in queues then TotalLength(queues[f]) else 0
  }

  /** The bytes waiting in the flows below n. */
  function AggregateBelow(queues: map<Flow, seq<Packet>>, n: nat): nat
    requires n <= 256
  {
    if n == 0 then 0 else AggregateBelow(queues, n - 1) + Waiting(queues, n - 1)
  }

  /** The first of the flows below n with the most bytes waiting. */
  function LongestBelow(queues: map<Flow, seq<Packet>>, n: nat): (r: Option<Flow>)
    requires n <= 256
    ensures r.Some? ==> r.value in queues && r.value < n
    ensures r.Some? ==> forall f: Flow | f in queues && f < n :: Waiting(queues, f) <= Waiting(queues, r.value)
    ensures r.Some? ==> forall f: Flow | f in queues && f < r.value :: Waiting(queues, f) < Waiting(queues, r.value)
    ensures r.None? ==> forall f: Flow | f in queues :: n <= f
  {
    if n == 0 then None else
      var r := LongestBelow(queues, n - 1);
      var f: Flow := n - 1;
      if f in queues && (r.None? || Waiting(queues, f) > Waiting(queues, r.value)) then Some(f) else r
  }

  /** The flow whose first packet the Sprout discipline drops, when more than the limit waits. */
  function Victim(queues: map<Flow, seq<Packet>>, limit: nat): Option<Flow> {
    if AggregateBelow(queues, 256) > limit then LongestBelow(queues, 256) else None
  }

  function DropFront(g: Gang, v: Option<Flow>): Outcome<Gang> {
    if v.None? then Ok(g)
    else if v.value !in g.queues || g.queues[v.value] == [] then AssertFailed
    else Ok(g.(queues := g.queues[v.value := g.queues[v.value][1..]]))
  }

  function Pushed(g: Gang, f: Flow, p: Packet): Gang
    requires f in g.queues && f in g.indicator
  {
    var g1 := g.(queues := g.queues[f := g.queues[f] + [p]]);
    if g.indicator[f] then g1 else
      g1.(indicator := g.indicator[f := true], active := g.active + [f], credits := g.credits[f := 0])
  }

  function Enque(disc: Qdisc, limit: nat, g: Gang, f: Flow, p: Packet): Outcome<Gang> {
    var g1 := Created(g, f);
    if disc == SproutDisc && limit == 0 then AssertFailed else
      var g2 :- DropFront(g1, if disc == SproutDisc then Victim(g1.queues, limit) else None);
      if f in g2.queues && f in g2.indicator then Ok(Pushed(g2, f, p)) else AssertFailed
  }

  // ---------------------------------------------------------------- service

  /** One packet from a flow's queue, through its CoDel controller or not. */
  function Take(disc: Qdisc, clock: nat -> nat, law: (nat, nat) -> nat, st: Codel, q: seq<Packet>): Dequeued
    requires q != []
  {
    if disc == CodelDisc then Deque(clock, law, st, q) else Dequeued(st, q[1..], q[0], [])
  }

  predicate HeadOk(g: Gang) {
    g.active != [] && var f := g.active[0];
      f in g.queues && f in g.credits && f in g.indicator && f in g.servos && g.queues[f] != []
  }

  /** The flow in turn gets a quantum if its credit does not cover its first packet. */
  function Granted(credit: int, size: int): int {
    if credit < size then credit + MTU_SIZE else credit
  }

  /** The gang once the flow in turn was charged for its first packet and its queue has become q. */
  function Served(g: Gang, q: seq<Packet>, st: Codel): Gang
    requires HeadOk(g)
  {
    var f := g.active[0];
    var size := Size(g.queues[f][0]);
    var credit := Granted(g.credits[f], size) - size;
    if q == [] then Updated(g, f, q, st, 0, g.active[1..], false)
    else if credit < size then Updated(g, f, q, st, credit, g.active[1..] + [f], true)
    else Updated(g, f, q, st, credit, g.active, true)
  }

  function Updated(g: Gang, f: Flow, q: seq<Packet>, st: Codel, credit: int, active: seq<Flow>, marked: bool): Gang {
    Gang(g.queues[f := q], g.credits[f := credit], active, g.indicator[f := marked], g.servos[f := st])
  }

  datatype Service = Service(gang: Gang, contents: seq<Byte>)

  function GetNextPacket(disc: Qdisc, clock: nat -> nat, law: (nat, nat) -> nat, g: Gang): Outcome<Service> {
    if g.active == [] then Ok(Service(g, []))
    else if !HeadOk(g) then AssertFailed
    else
      var f := g.active[0];
      var size := Size(g.queues[f][0]);
      if size > Granted(g.credits[f], size) then AssertFailed else
        var d := Take(disc, clock, law, g.servos[f], g.queues[f]);
        Ok(Service(Served(g, d.q, d.st), d.p.contents))
  }

  // ---------------------------------------------------------------- invariant

  predicate NoDuplicates(s: seq<Flow>) {
    forall i, j | 0 <= i < j < |s| :: s[i] != s[j]
  }

  predicate SizesOk(q: seq<Packet>) {
    forall i | 0 <= i < |q| :: 1 <= Size(q[i]) <= MTU_SIZE
  }

  predicate KeysOk(g: Gang) {
    g.credits.Keys == g.queues.Keys && g.indicator.Keys == g.queues.Keys && g.servos.Keys == g.queues.Keys
  }

  /** What holds of one flow: it is listed and marked exactly while packets wait, and its credit is below a quantum. */
  predicate FlowOk(marked: bool, listed: bool, credit: int, q: seq<Packet>) {
    marked == listed == (q != []) && 0 <= credit < MTU_SIZE && SizesOk(q)
  }

  predicate FlowsOk(g: Gang)
    requires KeysOk(g)
  {
    forall f | f in g.queues :: FlowOk(g.indicator[f], f in g.active, g.credits[f], g.queues[f])
  }

  predicate GangOk(g: Gang) {
    && KeysOk(g)
    && NoDuplicates(g.active)
    && (forall f | f in g.active :: f in g.queues)
    && FlowsOk(g)
  }

  lemma CreatedKeeps(g: Gang, f: Flow)
    requires GangOk(g)
    ensures GangOk(Created(g, f)) && f in Created(g, f).queues
  {
    hide SizesOk, NoDuplicates;
    assert SizesOk([]) by { EmptySizes([]); }
  }

  lemma EmptySizes(q: seq<Packet>)
    requires q == []
    ensures SizesOk(q)
  {
  }

  lemma SizesMore(q: seq<Packet>, p: Packet)
    requires SizesOk(q) && 1 <= Size(p) <= MTU_SIZE
    ensures SizesOk(q + [p])
  {
  }

  lemma ListedMore(s: seq<Flow>, f: Flow)
    requires NoDuplicates(s) && f !in s
    ensures NoDuplicates(s + [f])
    ensures forall x :: x in s + [f] <==> x in s || x == f
  {
  }

  lemma ListedRest(s: seq<Flow>)
    requires NoDuplicates(s) && s != []
    ensures NoDuplicates(s[1..]) && s[0] !in s[1..]
    ensures forall x :: x in s[1..] <==> x in s && x != s[0]
  {
  }

  lemma PushedKeeps(g: Gang, f: Flow, p: Packet)
    requires GangOk(g) && f in g.queues && 1 <= Size(p) <= MTU_SIZE
    ensures GangOk(Pushed(g, f, p))
  {
    hide SizesOk, NoDuplicates;
    assert FlowOk(g.indicator[f], f in g.active, g.credits[f], g.queues[f]);
    SizesMore(g.queues[f], p);
    if !g.indicator[f] {
      ListedMore(g.active, f);
    }
  }

  /** CoDel takes at least one packet, from the front. */
  lemma TakeShortens(disc: Qdisc, clock: nat -> nat, law: (nat, nat) -> nat, st: Codel, q: seq<Packet>)
    requires q != []
    ensures var d := Take(disc, clock, law, st, q); |d.q| < |q| && SuffixOf(d.q, q)
  {
    hide DropLoop, Pop;
    if disc == CodelDisc {
      DequeShortens(clock, law, st, q);
    }
  }

  predicate SuffixOf(a: seq<Packet>, q: seq<Packet>) {
    |a| <= |q| && a == q[|q| - |a|..]
  }

  lemma DequeShortens(clock: nat -> nat, law: (nat, nat) -> nat, st: Codel, q: seq<Packet>)
    requires q != []
    ensures |Deque(clock, law, st, q).q| < |q| && SuffixOf(Deque(clock, law, st, q).q, q)
  {
    hide DropLoop, Pop, Entry;
    var r := Pop(st, q, clock(1));
    PopFromNothing(st, q, clock(1));
    PopFromNothing(r.st, r.q, clock(2));
    DropLoopShortens(clock, law, clock(0), q, clock(1), r, 2);
  }

  lemma {:induction false} DropLoopShortens(clock: nat -> nat, law: (nat, nat) -> nat, now: nat, q: seq<Packet>,
                                            time: nat, r: Popped, i: nat)
    requires r.q == if q == [] then [] else q[1..]
    ensures var d := DropLoop(clock, law, now, q, time, r, i); (q != [] ==> |d.q| < |q|) && SuffixOf(d.q, q)
    decreases |q|
  {
    hide DropLoop, Entry;
    DropLoopUnfolds(clock, law, now, q, time, r, i);
    if now >= r.st.dropNext && r.st.dropping && q != [] {
      DropLoopShortens(clock, law, now, r.q, clock(i), Rescheduled(law, r, clock(i)), i + 1);
    }
  }

  lemma UpdatedKeeps(g: Gang, f: Flow, q: seq<Packet>, st: Codel, credit: int, active: seq<Flow>, marked: bool)
    requires GangOk(g) && f in g.queues && NoDuplicates(active)
    requires forall x | x != f :: x in active <==> x in g.active
    requires FlowOk(marked, f in active, credit, q)
    ensures GangOk(Updated(g, f, q, st, credit, active, marked))
  {
    hide SizesOk, NoDuplicates;
  }

  lemma ServedKeeps(g: Gang, q: seq<Packet>, st: Codel)
    requires GangOk(g) && HeadOk(g) && SizesOk(q)
    ensures GangOk(Served(g, q, st))
  {
    hide SizesOk, NoDuplicates, Updated;
    var f := g.active[0];
    assert FlowOk(g.indicator[f], f in g.active, g.credits[f], g.queues[f]);
    FirstSize(g.queues[f]);
    ListedRest(g.active);
    var size := Size(g.queues[f][0]);
    var credit := Granted(g.credits[f], size) - size;
    if q == [] {
      UpdatedKeeps(g, f, q, st, 0, g.active[1..], false);
    } else if credit < size {
      ListedMore(g.active[1..], f);
      UpdatedKeeps(g, f, q, st, credit, g.active[1..] + [f], true);
    } else {
      UpdatedKeeps(g, f, q, st, credit, g.active, true);
    }
  }

  lemma FirstSize(q: seq<Packet>)
    requires SizesOk(q) && q != []
    ensures 1 <= Size(q[0]) <= MTU_SIZE
  {
  }

  lemma SuffixSizes(a: seq<Packet>, q: seq<Packet>)
    requires SizesOk(q) && SuffixOf(a, q)
    ensures SizesOk(a)
  {
  }

  /** No assertion fails when a packet is asked for, and the invariant is kept. */
  lemma GetKeeps(disc: Qdisc, clock: nat -> nat, law: (nat, nat) -> nat, g: Gang)
    requires GangOk(g)
    ensures GetNextPacket(disc, clock, law, g).Ok? && GangOk(GetNextPacket(disc, clock, law, g).value.gang)
  {
    hide Served, Take, SizesOk, NoDuplicates;
    if g.active != [] {
      var f := g.active[0];
      assert FlowOk(g.indicator[f], f in g.active, g.credits[f], g.queues[f]);
      FirstSize(g.queues[f]);
      var d := Take(disc, clock, law, g.servos[f], g.queues[f]);
      TakeShortens(disc, clock, law, g.servos[f], g.queues[f]);
      SuffixSizes(d.q, g.queues[f]);
      ServedKeeps(g, d.q, d.st);
    }
  }

  // ---------------------------------------------------------------- arrival and the Sprout drop

  lemma {:induction false} LongestWaits(queues: map<Flow, seq<Packet>>, n: nat)
    requires n <= 256 && AggregateBelow(queues, n) > 0
    ensures LongestBelow(queues, n).Some? && Waiting(queues, LongestBelow(queues, n).value) > 0
  {
    if AggregateBelow(queues, n - 1) > 0 {
      LongestWaits(queues, n - 1);
    }
  }

  /** The drop would leave another flow without packets though it is still listed. */
  predicate Strands(disc: Qdisc, limit: nat, g: Gang, f: Flow) {
    var queues := Created(g, f).queues;
    var v := Victim(queues, limit);
    disc == SproutDisc && v.Some? && v.value in queues && v.value != f && |queues[v.value]| == 1
  }

  lemma DropFrontKeeps(g: Gang, v: Flow)
    requires GangOk(g) && v in g.queues && |g.queues[v]| > 1
    ensures GangOk(g.(queues := g.queues[v := g.queues[v][1..]]))
  {
    hide SizesOk, NoDuplicates;
    assert FlowOk(g.indicator[v], v in g.active, g.credits[v], g.queues[v]);
    SuffixSizes(g.queues[v][1..], g.queues[v]);
    UpdatedKeeps(g, v, g.queues[v][1..], g.servos[v], g.credits[v], g.active, g.indicator[v]);
    assert g.(queues := g.queues[v := g.queues[v][1..]])
        == Updated(g, v, g.queues[v][1..], g.servos[v], g.credits[v], g.active, g.indicator[v]);
  }

  /** The victim is the flow of the arriving packet itself. */
  lemma OwnDropKeeps(g: Gang, f: Flow, p: Packet)
    requires GangOk(g) && f in g.queues && g.queues[f] != [] && 1 <= Size(p) <= MTU_SIZE
    ensures GangOk(Pushed(g.(queues := g.queues[f := g.queues[f][1..]]), f, p))
  {
    hide SizesOk, NoDuplicates;
    assert FlowOk(g.indicator[f], f in g.active, g.credits[f], g.queues[f]);
    SuffixSizes(g.queues[f][1..], g.queues[f]);
    SizesMore(g.queues[f][1..], p);
    UpdatedKeeps(g, f, g.queues[f][1..] + [p], g.servos[f], g.credits[f], g.active, true);
    assert Pushed(g.(queues := g.queues[f := g.queues[f][1..]]), f, p)
        == Updated(g, f, g.queues[f][1..] + [p], g.servos[f], g.credits[f], g.active, true);
  }

  lemma StrandedFails(g: Gang, f: Flow, v: Flow, p: Packet)
    requires GangOk(g) && f in g.queues && v in g.queues && v != f && |g.queues[v]| == 1
    ensures !GangOk(Pushed(g.(queues := g.queues[v := g.queues[v][1..]]), f, p))
  {
    hide SizesOk, NoDuplicates;
    assert FlowOk(g.indicator[v], v in g.active, g.credits[v], g.queues[v]);
    var r := Pushed(g.(queues := g.queues[v := g.queues[v][1..]]), f, p);
    assert r.queues[v] == [] && r.indicator[v];
    assert !FlowOk(r.indicator[v], v in r.active, r.credits[v], r.queues[v]);
  }

  /** An arrival keeps the invariant if and only if it does not strand another flow. */
  lemma EnqueKeepsIff(disc: Qdisc, limit: nat, g: Gang, f: Flow, p: Packet)
    requires GangOk(g) && 1 <= Size(p) <= MTU_SIZE && (disc == SproutDisc ==> 0 < limit)
    ensures Enque(disc, limit, g, f, p).Ok?
    ensures GangOk(Enque(disc, limit, g, f, p).value) <==> !Strands(disc, limit, g, f)
  {
    hide SizesOk, NoDuplicates, Pushed, AggregateBelow, LongestBelow, FlowsOk;
    CreatedKeeps(g, f);
    var g1 := Created(g, f);
    var v := if disc == SproutDisc then Victim(g1.queues, limit) else None;
    if v.None? {
      PushedKeeps(g1, f, p);
    } else {
      VictimWaits(g1.queues, limit);
      if v.value == f {
        OwnDropKeeps(g1, f, p);
      } else if |g1.queues[v.value]| > 1 {
        DropFrontKeeps(g1, v.value);
        PushedKeeps(g1.(queues := g1.queues[v.value := g1.queues[v.value][1..]]), f, p);
      } else {
        StrandedFails(g1, f, v.value, p);
      }
    }
  }

  lemma VictimWaits(queues: map<Flow, seq<Packet>>, limit: nat)
    requires Victim(queues, limit).Some?
    ensures Victim(queues, limit).value in queues && queues[Victim(queues, limit).value] != []
  {
    hide AggregateBelow;
    LongestWaits(queues, 256);
  }

  lemma {:induction false} AggregateAtLeast(queues: map<Flow, seq<Packet>>, n: nat, f: Flow)
    requires f < n <= 256
    ensures Waiting(queues, f) <= AggregateBelow(queues, n)
  {
    if f != n - 1 {
      AggregateAtLeast(queues, n - 1, f);
    }
  }

  /** When the only packet of the flow in turn is dropped, the next packet cannot be served. */
  lemma StrandedHeadFails(clock: nat -> nat, law: (nat, nat) -> nat, limit: nat, g: Gang, f: Flow, p: Packet, v: Flow)
    requires GangOk(g) && 0 < limit && g.active != [] && g.active[0] == v && v != f
    requires Victim(Created(g, f).queues, limit) == Some(v) && v in g.queues && |g.queues[v]| == 1
    ensures Enque(SproutDisc, limit, g, f, p).Ok?
    ensures GetNextPacket(SproutDisc, clock, law, Enque(SproutDisc, limit, g, f, p).value) == AssertFailed
  {
    hide Victim, Take, Served, FlowsOk, NoDuplicates;
    var g1 := Created(g, f);
    assert g1.queues[v] == g.queues[v];
    var g2 := g1.(queues := g1.queues[v := g1.queues[v][1..]]);
    assert DropFront(g1, Some(v)) == Ok(g2) && g2.queues[v] == [];
    assert Pushed(g2, f, p).active[0] == v && Pushed(g2, f, p).queues[v] == [];
  }

  /** One packet waits in flow v; an arrival in flow f, over the limit, strands v, and the next service fails. */
  lemma SproutDropCanStrand(clock: nat -> nat, law: (nat, nat) -> nat, v: Flow, f: Flow, p: Packet, q: Packet,
                            limit: nat)
    requires v != f && 1 <= Size(p) <= MTU_SIZE && 1 <= Size(q) <= MTU_SIZE && 0 < limit < Size(p)
    ensures var g := Gang(map[v := [p]], map[v := 0], [v], map[v := true], map[v := Codel(0, 0, 0, false)]);
      && GangOk(g)
      && Enque(SproutDisc, limit, g, f, q).Ok?
      && !GangOk(Enque(SproutDisc, limit, g, f, q).value)
      && GetNextPacket(SproutDisc, clock, law, Enque(SproutDisc, limit, g, f, q).value) == AssertFailed
  {
    hide AggregateBelow, Enque, GetNextPacket;
    var g := Gang(map[v := [p]], map[v := 0], [v], map[v := true], map[v := Codel(0, 0, 0, false)]);
    var queues := Created(g, f).queues;
    assert TotalLength([p]) == Size(p) by { assert [p][1..] == []; }
    AggregateAtLeast(queues, 256, v);
    LongestWaits(queues, 256);
    assert Victim(queues, limit) == Some(v);
    EnqueKeepsIff(SproutDisc, limit, g, f, q);
    StrandedHeadFails(clock, law, limit, g, f, q, v);
  }

  // ---------------------------------------------------------------- fairness

  function IndexOf(s: seq<Flow>, f: Flow): (i: nat)
    requires f in s
    ensures i < |s| && s[i] == f && f !in s[..i]
  {
    if s[0] == f then 0 else IndexOf(s[1..], f) + 1
  }

  predicate Ahead(s: seq<Flow>, f: Flow, h: Flow)
    requires f in s && h in s
  {
    IndexOf(s, f) < IndexOf(s, h)
  }

  datatype Action = Arrive(limit: nat, flow: Flow, packet: Packet) | Serve(clock: nat -> nat)

  function Act(disc: Qdisc, law: (nat, nat) -> nat, g: Gang, a: Action): Outcome<Gang> {
    match a
    case Arrive(limit, f, p) => Enque(disc, limit, g, f, p)
    case Serve(clock) => var s :- GetNextPacket(disc, clock, law, g); Ok(s.gang)
  }

  /** The bytes an action charges to a flow. */
  function Charge(g: Gang, a: Action, f: Flow): nat {
    if a.Serve? && HeadOk(g) && g.active[0] == f then Size(g.queues[f][0]) else 0
  }

  /** Whether the action grants the flow a quantum. */
  predicate Grants(g: Gang, a: Action, f: Flow) {
    a.Serve? && HeadOk(g) && g.active[0] == f && g.credits[f] < Size(g.queues[f][0])
  }

  lemma {:induction false} IndexUnique(s: seq<Flow>, f: Flow, i: nat)
    requires i < |s| && s[i] == f && f !in s[..i]
    ensures IndexOf(s, f) == i
  {
    if i > 0 {
      assert s[..i][0] == s[0];
      assert s[..i][1..] == s[1..][..i - 1];
      IndexUnique(s[1..], f, i - 1);
    }
  }

  lemma IndexRest(s: seq<Flow>, f: Flow)
    requires s != [] && s[0] != f && f in s
    ensures f in s[1..] && IndexOf(s, f) == IndexOf(s[1..], f) + 1
  {
  }

  lemma IndexMore(s: seq<Flow>, k: Flow, f: Flow)
    requires f in s
    ensures IndexOf(s + [k], f) == IndexOf(s, f)
  {
    var i := IndexOf(s, f);
    assert (s + [k])[..i] == s[..i];
    IndexUnique(s + [k], f, i);
  }

  lemma IndexLast(s: seq<Flow>, f: Flow)
    requires f !in s
    ensures IndexOf(s + [f], f) == |s|
  {
    assert (s + [f])[..|s|] == s;
    IndexUnique(s + [f], f, |s|);
  }

  /** Serving some other flow does not change who of two flows comes first. */
  lemma AheadWithoutHead(s: seq<Flow>, f: Flow, h: Flow)
    requires s != [] && f in s && h in s && s[0] != f && s[0] != h
    ensures f in s[1..] && h in s[1..] && Ahead(s[1..], f, h) == Ahead(s, f, h)
    ensures Ahead(s[1..] + [s[0]], f, h) == Ahead(s, f, h)
  {
    hide IndexOf;
    IndexRest(s, f);
    IndexRest(s, h);
    IndexMore(s[1..], s[0], f);
    IndexMore(s[1..], s[0], h);
  }

  lemma AheadAtHead(s: seq<Flow>, f: Flow, h: Flow)
    requires s != [] && s[0] == f && h in s && h != f && NoDuplicates(s)
    ensures Ahead(s, f, h) && !Ahead(s, h, f)
    ensures h in s[1..] + [f] && !Ahead(s[1..] + [f], f, h) && Ahead(s[1..] + [f], h, f)
  {
    IndexUnique(s, f, 0);
    ListedRest(s);
    IndexLast(s[1..], f);
    IndexMore(s[1..], f, h);
  }

  lemma AheadIsTotal(s: seq<Flow>, f: Flow, h: Flow)
    requires f in s && h in s && f != h
    ensures Ahead(s, f, h) == !Ahead(s, h, f)
  {
  }

  // ---------------------------------------------------------------- turns

  /**
   * What the flow in turn sent last in this turn, if it sent anything yet. A turn ends, and the next flow's begins,
   * when the queue is empty or the credit no longer covers a packet of the size sent last.
   */
  predicate LastOk(g: Gang, last: Option<nat>) {
    last.Some? ==> HeadOk(g) && last.value <= g.credits[g.active[0]]
  }

  function LastAfter(g: Gang, a: Action, last: Option<nat>, g1: Gang): Option<nat> {
    if !a.Serve? || !HeadOk(g) then last else
      var f := g.active[0];
      var size := Size(g.queues[f][0]);
      if f in g1.queues && g1.queues[f] != [] && f in g1.credits && size <= g1.credits[f] then Some(size) else None
  }

  datatype What = Quantum | Turn | Further | Saved

  /** A turn starts; a quantum is granted; a further one in the same turn; or a turn starts without one. */
  predicate Happens(what: What, g: Gang, a: Action, last: Option<nat>, f: Flow) {
    && a.Serve? && HeadOk(g) && g.active[0] == f
    && var size := Size(g.queues[f][0]);
    match what
    case Quantum => g.credits[f] < size
    case Turn => last.None?
    case Further => last.Some? && last.value <= g.credits[f] < size
    case Saved => last.None? && size <= g.credits[f]
  }

  /** Within a turn a flow gets a further quantum exactly when its credit covers a packet of the size it sent last but
      not its first one. Every quantum is such a one, or comes with the start of a turn. */
  lemma FurtherQuantumIff(g: Gang, a: Action, last: Option<nat>, f: Flow)
    requires LastOk(g, last)
    ensures Grants(g, a, f) <==> Happens(Quantum, g, a, last, f)
    ensures last.Some? ==> (Grants(g, a, f) <==> Happens(Further, g, a, last, f))
    ensures Bit(Grants(g, a, f)) == Bit(Happens(Turn, g, a, last, f)) - Bit(Happens(Saved, g, a, last, f))
                                    + Bit(Happens(Further, g, a, last, f))
  {
  }

  /** The credit of a flow that still has packets moves by what it is granted and charged. */
  predicate CreditMoves(g: Gang, g1: Gang, a: Action, f: Flow) {
    && f in g.credits && f in g1.credits
    && g1.credits[f] == g.credits[f] + MTU_SIZE * Bit(Grants(g, a, f)) - Charge(g, a, f)
  }

  predicate Waits(g: Gang, f: Flow) {
    f in g.queues && g.queues[f] != []
  }

  predicate Listed(g: Gang, f: Flow) {
    Waits(g, f) && f in g.credits && f in g.active
  }

  lemma WaitingIsListed(g: Gang, f: Flow)
    requires GangOk(g) && Waits(g, f)
    ensures Listed(g, f) && g.indicator[f] && 0 <= g.credits[f] < MTU_SIZE
  {
    hide NoDuplicates, SizesOk;
    assert FlowOk(g.indicator[f], f in g.active, g.credits[f], g.queues[f]);
  }

  /** The flow is in its turn, and the turn has begun. */
  predicate InService(g: Gang, last: Option<nat>, f: Flow) {
    g.active != [] && g.active[0] == f && last.Some?
  }

  /** Of two flows that wait, f is the one whose turn starts next. */
  predicate NextIs(g: Gang, last: Option<nat>, f: Flow, h: Flow)
    requires f in g.active && h in g.active
  {
    if Ahead(g.active, f, h) then !InService(g, last, f) else InService(g, last, h)
  }

  lemma NextIsOther(g: Gang, last: Option<nat>, f: Flow, h: Flow)
    requires f in g.active && h in g.active && f != h
    ensures NextIs(g, last, f, h) == !NextIs(g, last, h, f)
  {
    AheadIsTotal(g.active, f, h);
  }

  /** A flow that is not in turn is left alone. */
  lemma OtherServed(g: Gang, q: seq<Packet>, st: Codel, a: Action, last: Option<nat>, f: Flow)
    requires GangOk(g) && HeadOk(g) && a.Serve? && Listed(g, f) && g.active[0] != f
    ensures Listed(Served(g, q, st), f) && CreditMoves(g, Served(g, q, st), a, f)
    ensures !Happens(Turn, g, a, last, f)
  {
    hide FlowsOk, NoDuplicates;
    ListedRest(g.active);
  }

  /** The flow in turn: granted a quantum if its credit is short, charged for a packet, and moved back when the credit
      is short of another such packet. */
  lemma HeadServed(g: Gang, q: seq<Packet>, st: Codel, a: Action, last: Option<nat>, f: Flow)
    requires GangOk(g) && HeadOk(g) && a.Serve? && Listed(g, f) && g.active[0] == f && q != []
    ensures var g1 := Served(g, q, st);
      var last1 := LastAfter(g, a, last, g1);
      && Listed(g1, f) && CreditMoves(g, g1, a, f) && LastOk(g1, last1)
      && (if last1.Some? then g1.active == g.active else g1.active == g.active[1..] + [f])
  {
    hide FlowsOk, NoDuplicates;
  }

  /** Serving f starts a turn exactly when it was next, and then it no longer is. */
  lemma HeadAlternates(g: Gang, q: seq<Packet>, st: Codel, a: Action, last: Option<nat>, f: Flow, h: Flow)
    requires GangOk(g) && HeadOk(g) && a.Serve? && f != h && g.active[0] == f && q != []
    requires Listed(g, f) && Listed(g, h)
    ensures var g1 := Served(g, q, st);
      && Listed(g1, f) && Listed(g1, h)
      && NextIs(g, last, f, h) == Happens(Turn, g, a, last, f)
      && !NextIs(g1, LastAfter(g, a, last, g1), f, h)
  {
    hide FlowsOk, IndexOf, Served, Ahead, LastAfter;
    HeadServed(g, q, st, a, last, f);
    OtherServed(g, q, st, a, last, h);
    AheadAtHead(g.active, f, h);
  }

  lemma BystandersKeepOrder(g: Gang, q: seq<Packet>, st: Codel, a: Action, last: Option<nat>, f: Flow, h: Flow)
    requires GangOk(g) && HeadOk(g) && a.Serve? && g.active[0] != f && g.active[0] != h
    requires Listed(g, f) && Listed(g, h) && Listed(Served(g, q, st), f) && Listed(Served(g, q, st), h)
    ensures var g1 := Served(g, q, st);
      NextIs(g1, LastAfter(g, a, last, g1), f, h) == NextIs(g, last, f, h)
  {
    hide FlowsOk, IndexOf, Ahead;
    AheadWithoutHead(g.active, f, h);
  }

  /** The flow in turn keeps its turn, or the next one's has not begun. */
  lemma ServeKeepsLast(g: Gang, q: seq<Packet>, st: Codel, a: Action, last: Option<nat>)
    requires GangOk(g) && HeadOk(g) && a.Serve?
    ensures var g1 := Served(g, q, st); LastOk(g1, LastAfter(g, a, last, g1))
  {
    hide FlowsOk, NoDuplicates;
  }

  /** Whatever flow is served, turns alternate between two flows that wait, whatever the sizes of their packets. */
  lemma ServeAlternates(g: Gang, q: seq<Packet>, st: Codel, a: Action, last: Option<nat>, f: Flow, h: Flow)
    requires GangOk(g) && HeadOk(g) && a.Serve? && f != h && Listed(g, f) && Listed(g, h)
    requires g.active[0] == f || g.active[0] == h ==> q != []
    ensures var g1 := Served(g, q, st);
      var last1 := LastAfter(g, a, last, g1);
      && Listed(g1, f) && Listed(g1, h) && CreditMoves(g, g1, a, f) && CreditMoves(g, g1, a, h)
      && Bit(NextIs(g1, last1, f, h))
         == Bit(NextIs(g, last, f, h)) - Bit(Happens(Turn, g, a, last, f)) + Bit(Happens(Turn, g, a, last, h))
  {
    hide FlowsOk, IndexOf, Served, Ahead, NextIs, CreditMoves, Happens, Listed, LastAfter;
    ListedActive(g, f);
    ListedActive(g, h);
    if g.active[0] == f {
      HeadServed(g, q, st, a, last, f);
      OtherServed(g, q, st, a, last, h);
      HeadAlternates(g, q, st, a, last, f, h);
    } else if g.active[0] == h {
      HeadServed(g, q, st, a, last, h);
      OtherServed(g, q, st, a, last, f);
      HeadAlternates(g, q, st, a, last, h, f);
      NextIsOther(g, last, f, h);
      ListedActive(Served(g, q, st), f);
      ListedActive(Served(g, q, st), h);
      NextIsOther(Served(g, q, st), LastAfter(g, a, last, Served(g, q, st)), f, h);
    } else {
      OtherServed(g, q, st, a, last, f);
      OtherServed(g, q, st, a, last, h);
      BystandersKeepOrder(g, q, st, a, last, f, h);
    }
  }

  lemma ListedActive(g: Gang, f: Flow)
    requires Listed(g, f)
    ensures f in g.active
  {
  }

  /** An arrival leaves order, credits and turn of flows that wait as they are. */
  lemma ArrivalAlternates(disc: Qdisc, g: Gang, g1: Gang, a: Action, last: Option<nat>, f: Flow, h: Flow)
    requires a.Arrive? && Enque(disc, a.limit, g, a.flow, a.packet) == Ok(g1)
    requires GangOk(g) && Listed(g, f) && Listed(g, h) && Waits(g1, f) && Waits(g1, h)
    ensures Listed(g1, f) && Listed(g1, h)
    ensures CreditMoves(g, g1, a, f) && CreditMoves(g, g1, a, h)
    ensures NextIs(g1, last, f, h) == NextIs(g, last, f, h)
  {
    hide IndexOf, NoDuplicates, SizesOk, Victim, Enque, FlowsOk;
    WaitingIsListed(g, f);
    WaitingIsListed(g, h);
    ArrivalShape(disc, g, g1, a);
    if g1.active != g.active {
      IndexMore(g.active, a.flow, f);
      IndexMore(g.active, a.flow, h);
    }
  }

  lemma ArrivalKeepsLast(disc: Qdisc, g: Gang, g1: Gang, a: Action, last: Option<nat>)
    requires a.Arrive? && Enque(disc, a.limit, g, a.flow, a.packet) == Ok(g1)
    requires GangOk(g) && GangOk(g1) && LastOk(g, last)
    ensures LastOk(g1, last)
  {
    hide NoDuplicates, SizesOk, Victim, Enque;
    if last.Some? {
      var x := g.active[0];
      WaitingIsListed(g, x);
      ArrivalShape(disc, g, g1, a);
      assert FlowOk(g1.indicator[x], x in g1.active, g1.credits[x], g1.queues[x]);
    }
  }

  lemma ArrivalShape(disc: Qdisc, g: Gang, g1: Gang, a: Action)
    requires a.Arrive? && Enque(disc, a.limit, g, a.flow, a.packet) == Ok(g1) && KeysOk(g)
    ensures g1.active == g.active || g1.active == g.active + [a.flow]
    ensures forall f | f in g.credits && g.indicator[f] :: f in g1.credits && g1.credits[f] == g.credits[f]
  {
    hide Victim;
  }

  lemma ServedQueue(g: Gang, q: seq<Packet>, st: Codel)
    requires HeadOk(g)
    ensures Served(g, q, st).queues == g.queues[g.active[0] := q]
  {
  }

  // ---------------------------------------------------------------- whole runs

  /** Arrivals have at least a byte and at most a quantum, and strand no one. */
  predicate SafeAction(disc: Qdisc, g: Gang, a: Action) {
    a.Arrive? ==>
      && 1 <= Size(a.packet) <= MTU_SIZE
      && (disc == SproutDisc ==> 0 < a.limit)
      && !Strands(disc, a.limit, g, a.flow)
  }

  lemma ActKeeps(disc: Qdisc, law: (nat, nat) -> nat, g: Gang, a: Action)
    requires GangOk(g) && SafeAction(disc, g, a)
    ensures Act(disc, law, g, a).Ok? && GangOk(Act(disc, law, g, a).value)
  {
    hide GangOk, Enque, GetNextPacket, Strands;
    match a
    case Arrive(limit, f, p) => EnqueKeepsIff(disc, limit, g, f, p);
    case Serve(clock) => GetKeeps(disc, clock, law, g);
  }

  lemma ActKeepsLast(disc: Qdisc, law: (nat, nat) -> nat, g: Gang, a: Action, last: Option<nat>)
    requires GangOk(g) && SafeAction(disc, g, a) && LastOk(g, last)
    ensures Act(disc, law, g, a).Ok?
    ensures LastOk(Act(disc, law, g, a).value, LastAfter(g, a, last, Act(disc, law, g, a).value))
  {
    hide GangOk, Enque, Take, Served, LastOk, LastAfter;
    ActKeeps(disc, law, g, a);
    var g1 := Act(disc, law, g, a).value;
    NotServed(g, a, last, g1);
    match a
    case Arrive(limit, f, p) => ArrivalKeepsLast(disc, g, g1, a, last);
    case Serve(clock) =>
      if g.active != [] {
        var d := Take(disc, clock, law, g.servos[g.active[0]], g.queues[g.active[0]]);
        ServeKeepsLast(g, d.q, d.st, a, last);
      }
  }

  lemma NotServed(g: Gang, a: Action, last: Option<nat>, g1: Gang)
    ensures !a.Serve? || g.active == [] ==> LastAfter(g, a, last, g1) == last
  {
  }

  /** One action in an interval in which f and h have packets throughout. */
  lemma ActAlternates(disc: Qdisc, law: (nat, nat) -> nat, g: Gang, a: Action, last: Option<nat>, f: Flow, h: Flow)
    requires GangOk(g) && SafeAction(disc, g, a) && f != h && Listed(g, f) && Listed(g, h)
    requires Act(disc, law, g, a).Ok? && Waits(Act(disc, law, g, a).value, f) && Waits(Act(disc, law, g, a).value, h)
    ensures var g1 := Act(disc, law, g, a).value;
      && Listed(g1, f) && Listed(g1, h) && CreditMoves(g, g1, a, f) && CreditMoves(g, g1, a, h)
      && Bit(NextIs(g1, LastAfter(g, a, last, g1), f, h))
         == Bit(NextIs(g, last, f, h)) - Bit(Happens(Turn, g, a, last, f)) + Bit(Happens(Turn, g, a, last, h))
  {
    hide Enque, Take, FlowsOk, NoDuplicates, Strands, NextIs, Ahead, Updated, LastAfter;
    var g1 := Act(disc, law, g, a).value;
    NotServed(g, a, last, g1);
    match a
    case Arrive(limit, k, p) => ArrivalAlternates(disc, g, g1, a, last, f, h);
    case Serve(clock) =>
      var x := g.active[0];
      var d := Take(disc, clock, law, g.servos[x], g.queues[x]);
      ServedQueue(g, d.q, d.st);
      ServeAlternates(g, d.q, d.st, a, last, f, h);
  }

  function RunGang(disc: Qdisc, law: (nat, nat) -> nat, g: Gang, acts: seq<Action>): Outcome<Gang>
    decreases |acts|
  {
    if acts == [] then Ok(g) else
      var g1 :- Act(disc, law, g, acts[0]);
      RunGang(disc, law, g1, acts[1..])
  }

  /** Every action of the run is in order when it comes. */
  predicate SafeRun(disc: Qdisc, law: (nat, nat) -> nat, g: Gang, acts: seq<Action>)
    decreases |acts|
  {
    acts != [] ==>
      && SafeAction(disc, g, acts[0])
      && (var r := Act(disc, law, g, acts[0]); r.Ok? ==> SafeRun(disc, law, r.value, acts[1..]))
  }

  /** The flow has packets waiting at every point of the run. */
  predicate AlwaysWaits(disc: Qdisc, law: (nat, nat) -> nat, g: Gang, acts: seq<Action>, f: Flow)
    decreases |acts|
  {
    && Waits(g, f)
    && (acts != [] ==> var r := Act(disc, law, g, acts[0]); r.Ok? ==> AlwaysWaits(disc, law, r.value, acts[1..], f))
  }

  /** The bytes charged to a flow over a run. */
  function Charged(disc: Qdisc, law: (nat, nat) -> nat, g: Gang, acts: seq<Action>, f: Flow): nat
    decreases |acts|
  {
    if acts == [] then 0 else
      var r := Act(disc, law, g, acts[0]);
      Charge(g, acts[0], f) + if r.Ok? then Charged(disc, law, r.value, acts[1..], f) else 0
  }

  /** Over every run no assertion fails, and listed flows are exactly those with packets. */
  lemma {:induction false} GangAlwaysOk(disc: Qdisc, law: (nat, nat) -> nat, g: Gang, acts: seq<Action>)
    requires GangOk(g) && SafeRun(disc, law, g, acts)
    ensures RunGang(disc, law, g, acts).Ok? && GangOk(RunGang(disc, law, g, acts).value)
    decreases |acts|
  {
    hide GangOk, Act, SafeAction;
    if acts != [] {
      ActKeeps(disc, law, g, acts[0]);
      GangAlwaysOk(disc, law, Act(disc, law, g, acts[0]).value, acts[1..]);
    }
  }

  /** How often something happens to a flow over a run. */
  function Times(what: What, disc: Qdisc, law: (nat, nat) -> nat, g: Gang, last: Option<nat>, acts: seq<Action>,
                 f: Flow): nat
    decreases |acts|
  {
    if acts == [] then 0 else
      var r := Act(disc, law, g, acts[0]);
      (if Happens(what, g, acts[0], last, f) then 1 else 0)
      + if r.Ok? then Times(what, disc, law, r.value, LastAfter(g, acts[0], last, r.value), acts[1..], f) else 0
  }

  /** What the flow in turn sent last when the run is over. */
  function LastOver(disc: Qdisc, law: (nat, nat) -> nat, g: Gang, last: Option<nat>, acts: seq<Action>): Option<nat>
    decreases |acts|
  {
    if acts == [] then last else
      var r := Act(disc, law, g, acts[0]);
      if r.Ok? then LastOver(disc, law, r.value, LastAfter(g, acts[0], last, r.value), acts[1..]) else last
  }

  /** Quanta over a run: one for every turn, save those started with credit enough, and the further ones. */
  lemma {:induction false} QuantaOverRun(disc: Qdisc, law: (nat, nat) -> nat, g: Gang, last: Option<nat>,
                                         acts: seq<Action>, f: Flow)
    requires GangOk(g) && SafeRun(disc, law, g, acts) && LastOk(g, last)
    ensures Times(Quantum, disc, law, g, last, acts, f)
         == Times(Turn, disc, law, g, last, acts, f) - Times(Saved, disc, law, g, last, acts, f)
            + Times(Further, disc, law, g, last, acts, f)
    decreases |acts|
  {
    hide GangOk, Act, SafeAction, Happens, LastAfter, LastOk;
    if acts != [] {
      var a := acts[0];
      ActKeeps(disc, law, g, a);
      ActKeepsLast(disc, law, g, a, last);
      FurtherQuantumIff(g, a, last, f);
      var g1 := Act(disc, law, g, a).value;
      QuantaOverRun(disc, law, g1, LastAfter(g, a, last, g1), acts[1..], f);
    }
  }

  /** Two flows that wait throughout: each is charged its quanta but for the change of its credit, and
      turns alternate. */
  lemma {:induction false} TurnsOverRun(disc: Qdisc, law: (nat, nat) -> nat, g: Gang, last: Option<nat>,
                                        acts: seq<Action>, f: Flow, h: Flow)
    requires GangOk(g) && SafeRun(disc, law, g, acts) && LastOk(g, last) && f != h
    requires AlwaysWaits(disc, law, g, acts, f) && AlwaysWaits(disc, law, g, acts, h)
    ensures RunGang(disc, law, g, acts).Ok?
    ensures var e := RunGang(disc, law, g, acts).value;
      && GangOk(e) && Listed(g, f) && Listed(g, h) && Listed(e, f) && Listed(e, h)
      && Charged(disc, law, g, acts, f)
         == MTU_SIZE * Times(Quantum, disc, law, g, last, acts, f) + g.credits[f] - e.credits[f]
      && Charged(disc, law, g, acts, h)
         == MTU_SIZE * Times(Quantum, disc, law, g, last, acts, h) + g.credits[h] - e.credits[h]
      && Times(Turn, disc, law, g, last, acts, f) - Times(Turn, disc, law, g, last, acts, h)
         == Bit(NextIs(g, last, f, h)) - Bit(NextIs(e, LastOver(disc, law, g, last, acts), f, h))
    decreases |acts|
  {
    hide GangOk, Act, SafeAction, NextIs, Happens, LastAfter, LastOk, Grants, Charge, Waits, Listed;
    assert Listed(g, f) && Listed(g, h) by {
      WaitsNow(disc, law, g, acts, f);
      WaitsNow(disc, law, g, acts, h);
      WaitingIsListed(g, f);
      WaitingIsListed(g, h);
    }
    ListedCredit(g, f);
    ListedCredit(g, h);
    if acts != [] {
      var a := acts[0];
      ActKeeps(disc, law, g, a);
      ActKeepsLast(disc, law, g, a, last);
      FurtherQuantumIff(g, a, last, f);
      FurtherQuantumIff(g, a, last, h);
      var g1 := Act(disc, law, g, a).value;
      WaitsNow(disc, law, g1, acts[1..], f);
      WaitsNow(disc, law, g1, acts[1..], h);
      ActAlternates(disc, law, g, a, last, f, h);
      TurnsOverRun(disc, law, g1, LastAfter(g, a, last, g1), acts[1..], f, h);
    }
  }

  lemma ListedCredit(g: Gang, f: Flow)
    requires Listed(g, f)
    ensures f in g.credits && f in g.active
  {
  }

  lemma WaitsNow(disc: Qdisc, law: (nat, nat) -> nat, g: Gang, acts: seq<Action>, f: Flow)
    requires AlwaysWaits(disc, law, g, acts, f)
    ensures Waits(g, f)
  {
  }

  /** The quanta of a flow beyond one for every turn. */
  function Surplus(disc: Qdisc, law: (nat, nat) -> nat, g: Gang, last: Option<nat>, acts: seq<Action>, f: Flow): int {
    Times(Further, disc, law, g, last, acts, f) - Times(Saved, disc, law, g, last, acts, f)
  }

  /**
   * The difference in charged bytes of two flows that wait throughout any run, whatever the sizes of their packets:
   * a quantum for whose turn it was and is, a quantum for each one in surplus, and the credits at both ends.
   */
  lemma ChargedDifference(disc: Qdisc, law: (nat, nat) -> nat, g: Gang, last: Option<nat>, acts: seq<Action>, f: Flow,
                          h: Flow)
    requires GangOk(g) && SafeRun(disc, law, g, acts) && LastOk(g, last) && f != h
    requires AlwaysWaits(disc, law, g, acts, f) && AlwaysWaits(disc, law, g, acts, h)
    ensures RunGang(disc, law, g, acts).Ok?
    ensures var e := RunGang(disc, law, g, acts).value;
      && Listed(g, f) && Listed(g, h) && Listed(e, f) && Listed(e, h)
      && Charged(disc, law, g, acts, f) - Charged(disc, law, g, acts, h)
         == MTU_SIZE * (Bit(NextIs(g, last, f, h)) - Bit(NextIs(e, LastOver(disc, law, g, last, acts), f, h)))
            + MTU_SIZE * (Surplus(disc, law, g, last, acts, f) - Surplus(disc, law, g, last, acts, h))
            + (g.credits[f] - e.credits[f]) - (g.credits[h] - e.credits[h])
  {
    hide GangOk, SafeRun, LastOk, AlwaysWaits, RunGang, Charged, Times, NextIs, Listed, LastOver, Bit;
    TurnsOverRun(disc, law, g, last, acts, f, h);
    QuantaOverRun(disc, law, g, last, acts, f);
    QuantaOverRun(disc, law, g, last, acts, h);
    var e := RunGang(disc, law, g, acts).value;
    ListedCredit(g, f);
    ListedCredit(g, h);
    ListedCredit(e, f);
    ListedCredit(e, h);
  }

  lemma CreditInRange(g: Gang, f: Flow)
    requires GangOk(g) && Listed(g, f)
    ensures f in g.credits && 0 <= g.credits[f] < MTU_SIZE
  {
    WaitingIsListed(g, f);
  }

  /**
   * Fairness for any sizes: the bytes charged to two flows that wait throughout a run differ by less than three quanta
   * from the quanta they got in surplus.
   */
  lemma FairButForSurplus(disc: Qdisc, law: (nat, nat) -> nat, g: Gang, last: Option<nat>, acts: seq<Action>, f: Flow,
                          h: Flow)
    requires GangOk(g) && SafeRun(disc, law, g, acts) && LastOk(g, last) && f != h
    requires AlwaysWaits(disc, law, g, acts, f) && AlwaysWaits(disc, law, g, acts, h)
    ensures var surplus := MTU_SIZE * (Surplus(disc, law, g, last, acts, f) - Surplus(disc, law, g, last, acts, h));
      -3 * MTU_SIZE < Charged(disc, law, g, acts, f) - Charged(disc, law, g, acts, h) - surplus < 3 * MTU_SIZE
  {
    hide GangOk, SafeRun, SafeAction, LastOk, AlwaysWaits, RunGang, Charged, Surplus, NextIs, Listed, LastOver;
    ChargedDifference(disc, law, g, last, acts, f, h);
    GangAlwaysOk(disc, law, g, acts);
    var e := RunGang(disc, law, g, acts).value;
    CreditInRange(g, f);
    CreditInRange(g, h);
    CreditInRange(e, f);
    CreditInRange(e, h);
  }

  // ---------------------------------------------------------------- one size per flow

  predicate AllOfSize(q: seq<Packet>, size: nat) {
    forall i | 0 <= i < |q| :: Size(q[i]) == size
  }

  lemma SuffixOfSize(a: seq<Packet>, q: seq<Packet>, size: nat)
    requires AllOfSize(q, size) && SuffixOf(a, q)
    ensures AllOfSize(a, size)
  {
  }

  lemma FirstOfSize(q: seq<Packet>, size: nat)
    requires AllOfSize(q, size) && q != []
    ensures Size(q[0]) == size
  {
  }

  lemma ArrivalSizes(disc: Qdisc, g: Gang, g1: Gang, a: Action, f: Flow, fs: nat)
    requires a.Arrive? && Enque(disc, a.limit, g, a.flow, a.packet) == Ok(g1)
    requires f in g.queues && f in g1.queues && AllOfSize(g.queues[f], fs) && (a.flow == f ==> Size(a.packet) == fs)
    ensures AllOfSize(g1.queues[f], fs)
  {
    hide Victim;
  }

  /** A flow that was not marked starts without credit; a new flow starts with the packet. */
  lemma ArrivalKeys(disc: Qdisc, g: Gang, g1: Gang, a: Action)
    requires a.Arrive? && Enque(disc, a.limit, g, a.flow, a.packet) == Ok(g1) && KeysOk(g) && KeysOk(g1)
    ensures forall f | f in g1.queues && f !in g.queues ::
      f == a.flow && g1.queues[f] == [a.packet] && g1.credits[f] == 0
    ensures a.flow in g.queues && !g.indicator[a.flow] ==> g1.credits[a.flow] == 0
    ensures forall f | f in g.queues && f != a.flow :: f in g1.queues && g1.credits[f] == g.credits[f]
  {
    hide Victim;
    var c := Created(g, a.flow);
    if a.flow !in g.queues {
      assert c.queues[a.flow] == [];
    }
  }

  /** Besides, arrivals have the size of their flow. */
  predicate ActionOk(disc: Qdisc, g: Gang, a: Action, size: Flow -> nat) {
    SafeAction(disc, g, a) && (a.Arrive? ==> Size(a.packet) == size(a.flow))
  }

  /** Packets have the size of their flow, and a flow that waits for its turn has no credit for one. */
  predicate ShortOk(g: Gang, size: Flow -> nat)
    requires KeysOk(g)
  {
    forall f | f in g.queues :: ShortFlow(g.active, f, g.credits[f], g.queues[f], size(f))
  }

  predicate ShortFlow(active: seq<Flow>, f: Flow, credit: int, q: seq<Packet>, size: nat) {
    AllOfSize(q, size) && (f in active && active[0] != f ==> credit < size)
  }

  lemma ServeKeepsShort(g: Gang, q: seq<Packet>, st: Codel, size: Flow -> nat)
    requires GangOk(g) && HeadOk(g) && SuffixOf(q, g.queues[g.active[0]]) && ShortOk(g, size)
    ensures KeysOk(Served(g, q, st)) && ShortOk(Served(g, q, st), size)
  {
    hide AllOfSize, FlowsOk, NoDuplicates;
    var x := g.active[0];
    assert ShortFlow(g.active, x, g.credits[x], g.queues[x], size(x));
    SuffixOfSize(q, g.queues[x], size(x));
    FirstOfSize(g.queues[x], size(x));
    ListedRest(g.active);
    var g1 := Served(g, q, st);
    forall f | f in g1.queues ensures ShortFlow(g1.active, f, g1.credits[f], g1.queues[f], size(f)) {
      assert ShortFlow(g.active, f, g.credits[f], g.queues[f], size(f));
    }
  }

  lemma ArriveKeepsShort(disc: Qdisc, g: Gang, g1: Gang, a: Action, size: Flow -> nat)
    requires a.Arrive? && Enque(disc, a.limit, g, a.flow, a.packet) == Ok(g1)
    requires GangOk(g) && GangOk(g1) && ShortOk(g, size) && Size(a.packet) == size(a.flow) && 1 <= size(a.flow)
    ensures ShortOk(g1, size)
  {
    hide NoDuplicates, SizesOk, Victim, Enque;
    ArrivalShape(disc, g, g1, a);
    ArrivalKeys(disc, g, g1, a);
    forall f | f in g1.queues ensures ShortFlow(g1.active, f, g1.credits[f], g1.queues[f], size(f)) {
      assert FlowOk(g1.indicator[f], f in g1.active, g1.credits[f], g1.queues[f]);
      if f in g.queues {
        assert ShortFlow(g.active, f, g.credits[f], g.queues[f], size(f));
        assert FlowOk(g.indicator[f], f in g.active, g.credits[f], g.queues[f]);
        ArrivalSizes(disc, g, g1, a, f, size(f));
      }
    }
  }

  lemma ActKeepsShort(disc: Qdisc, law: (nat, nat) -> nat, g: Gang, a: Action, size: Flow -> nat)
    requires GangOk(g) && ActionOk(disc, g, a, size) && ShortOk(g, size)
    ensures Act(disc, law, g, a).Ok? && GangOk(Act(disc, law, g, a).value) && ShortOk(Act(disc, law, g, a).value, size)
  {
    hide Enque, Served, Take, FlowsOk, NoDuplicates, Strands, ShortOk;
    ActKeeps(disc, law, g, a);
    match a
    case Arrive(limit, f, p) => ArriveKeepsShort(disc, g, Act(disc, law, g, a).value, a, size);
    case Serve(clock) =>
      if g.active != [] {
        var x := g.active[0];
        var d := Take(disc, clock, law, g.servos[x], g.queues[x]);
        TakeShortens(disc, clock, law, g.servos[x], g.queues[x]);
        ServeKeepsShort(g, d.q, d.st, size);
      }
  }

  predicate RunOk(disc: Qdisc, law: (nat, nat) -> nat, g: Gang, acts: seq<Action>, size: Flow -> nat)
    decreases |acts|
  {
    acts != [] ==>
      && ActionOk(disc, g, acts[0], size)
      && (var r := Act(disc, law, g, acts[0]); r.Ok? ==> RunOk(disc, law, r.value, acts[1..], size))
  }

  /** With one size per flow, a flow that waits for its turn never has credit for a packet. */
  lemma {:induction false} ShortAlwaysOk(disc: Qdisc, law: (nat, nat) -> nat, g: Gang, acts: seq<Action>,
                                         size: Flow -> nat)
    requires GangOk(g) && ShortOk(g, size) && RunOk(disc, law, g, acts, size)
    ensures RunGang(disc, law, g, acts).Ok?
    ensures GangOk(RunGang(disc, law, g, acts).value) && ShortOk(RunGang(disc, law, g, acts).value, size)
    decreases |acts|
  {
    hide GangOk, ShortOk, Act, ActionOk;
    if acts != [] {
      ActKeepsShort(disc, law, g, acts[0], size);
      ShortAlwaysOk(disc, law, Act(disc, law, g, acts[0]).value, acts[1..], size);
    }
  }

  /** The flow in turn has begun its turn exactly when its credit covers a packet. */
  predicate Steady(g: Gang, last: Option<nat>, size: Flow -> nat) {
    HeadOk(g) ==> var x := g.active[0];
      (last.Some? <==> size(x) <= g.credits[x]) && (last.Some? ==> last.value == size(x))
  }

  /** Then no quantum is in surplus. */
  lemma SteadyHasNoSurplus(g: Gang, a: Action, last: Option<nat>, size: Flow -> nat, f: Flow)
    requires GangOk(g) && ShortOk(g, size) && Steady(g, last, size)
    ensures !Happens(Further, g, a, last, f) && !Happens(Saved, g, a, last, f)
  {
    hide NoDuplicates, FlowsOk, AllOfSize;
    if HeadOk(g) && g.active[0] == f {
      assert ShortFlow(g.active, f, g.credits[f], g.queues[f], size(f));
      FirstOfSize(g.queues[f], size(f));
    }
  }

  lemma ServeKeepsSteady(g: Gang, q: seq<Packet>, st: Codel, a: Action, last: Option<nat>, size: Flow -> nat)
    requires GangOk(g) && HeadOk(g) && a.Serve? && ShortOk(g, size)
    ensures var g1 := Served(g, q, st); Steady(g1, LastAfter(g, a, last, g1), size)
  {
    hide FlowsOk, AllOfSize;
    var x := g.active[0];
    assert ShortFlow(g.active, x, g.credits[x], g.queues[x], size(x));
    FirstOfSize(g.queues[x], size(x));
    ListedRest(g.active);
    if |g.active| > 1 {
      var y := g.active[1];
      assert y in g.active[1..];
      assert y in g.queues by { ActiveIsKnown(g, y); }
      assert ShortFlow(g.active, y, g.credits[y], g.queues[y], size(y));
    }
  }

  lemma ActiveIsKnown(g: Gang, f: Flow)
    requires GangOk(g) && f in g.active
    ensures f in g.queues && f in g.credits
  {
  }

  lemma ArrivalKeepsSteady(disc: Qdisc, g: Gang, g1: Gang, a: Action, last: Option<nat>, size: Flow -> nat)
    requires a.Arrive? && Enque(disc, a.limit, g, a.flow, a.packet) == Ok(g1) && 1 <= size(a.flow)
    requires GangOk(g) && GangOk(g1) && LastOk(g, last) && Steady(g, last, size)
    ensures Steady(g1, last, size)
  {
    hide NoDuplicates, SizesOk, Victim, Enque;
    ArrivalShape(disc, g, g1, a);
    ArrivalKeys(disc, g, g1, a);
    if g.active != [] {
      var x := g.active[0];
      assert x in g.active;
      ActiveIsKnown(g, x);
      assert FlowOk(g.indicator[x], x in g.active, g.credits[x], g.queues[x]);
    } else if g1.active != [] {
      var x := g1.active[0];
      assert x == a.flow;
      if x in g.queues {
        assert FlowOk(g.indicator[x], x in g.active, g.credits[x], g.queues[x]);
      }
    }
  }

  lemma ActKeepsSteady(disc: Qdisc, law: (nat, nat) -> nat, g: Gang, a: Action, last: Option<nat>, size: Flow -> nat)
    requires GangOk(g) && ActionOk(disc, g, a, size) && ShortOk(g, size) && LastOk(g, last) && Steady(g, last, size)
    ensures Act(disc, law, g, a).Ok?
    ensures Steady(Act(disc, law, g, a).value, LastAfter(g, a, last, Act(disc, law, g, a).value), size)
  {
    hide GangOk, Enque, Take, Served, LastOk, LastAfter, Steady, ShortOk;
    ActKeeps(disc, law, g, a);
    var g1 := Act(disc, law, g, a).value;
    NotServed(g, a, last, g1);
    match a
    case Arrive(limit, f, p) => ArrivalKeepsSteady(disc, g, g1, a, last, size);
    case Serve(clock) =>
      if g.active != [] {
        var d := Take(disc, clock, law, g.servos[g.active[0]], g.queues[g.active[0]]);
        ServeKeepsSteady(g, d.q, d.st, a, last, size);
      }
  }

  lemma {:induction false} NoSurplus(disc: Qdisc, law: (nat, nat) -> nat, g: Gang, last: Option<nat>,
                                     acts: seq<Action>, size: Flow -> nat, f: Flow)
    requires GangOk(g) && ShortOk(g, size) && RunOk(disc, law, g, acts, size)
    requires LastOk(g, last) && Steady(g, last, size)
    ensures SafeRun(disc, law, g, acts) && Surplus(disc, law, g, last, acts, f) == 0
    ensures Times(Further, disc, law, g, last, acts, f) == 0 && Times(Saved, disc, law, g, last, acts, f) == 0
    decreases |acts|
  {
    hide GangOk, ShortOk, Act, SafeAction, LastOk, LastAfter, Steady, Happens;
    if acts != [] {
      var a := acts[0];
      ActKeepsShort(disc, law, g, a, size);
      ActKeepsLast(disc, law, g, a, last);
      ActKeepsSteady(disc, law, g, a, last, size);
      SteadyHasNoSurplus(g, a, last, size, f);
      var g1 := Act(disc, law, g, a).value;
      NoSurplus(disc, law, g1, LastAfter(g, a, last, g1), acts[1..], size, f);
    }
  }

  function SteadyLast(g: Gang, size: Flow -> nat): Option<nat> {
    if HeadOk(g) && size(g.active[0]) <= g.credits[g.active[0]] then Some(size(g.active[0])) else None
  }

  /**
   * Fairness for flows of one packet size each: over any run in which two of them have packets throughout, the bytes
   * charged to them differ by less than three quanta.
   */
  lemma Fairness(disc: Qdisc, law: (nat, nat) -> nat, g: Gang, acts: seq<Action>, size: Flow -> nat, f: Flow, h: Flow)
    requires GangOk(g) && ShortOk(g, size) && RunOk(disc, law, g, acts, size) && f != h
    requires AlwaysWaits(disc, law, g, acts, f) && AlwaysWaits(disc, law, g, acts, h)
    ensures -3 * MTU_SIZE < Charged(disc, law, g, acts, f) - Charged(disc, law, g, acts, h) < 3 * MTU_SIZE
  {
    hide GangOk, ShortOk, RunOk, SafeRun, AlwaysWaits, Charged, Surplus;
    var last := SteadyLast(g, size);
    NoSurplus(disc, law, g, last, acts, size, f);
    NoSurplus(disc, law, g, last, acts, size, h);
    FairButForSurplus(disc, law, g, last, acts, f, h);
  }

  // ---------------------------------------------------------------- from the start

  function EmptyGang(): Gang {
    Gang(map[], map[], [], map[], map[])
  }

  lemma EmptyGangOk(size: Flow -> nat)
    ensures GangOk(EmptyGang()) && ShortOk(EmptyGang(), size)
  {
  }

  /** So over every run from the empty gang no assertion fails, every flow is listed once, and just while it has
      packets, and credits are below a quantum. */
  lemma GangFromStart(disc: Qdisc, law: (nat, nat) -> nat, acts: seq<Action>) returns (g: Gang)
    requires SafeRun(disc, law, EmptyGang(), acts)
    ensures RunGang(disc, law, EmptyGang(), acts) == Ok(g) && NoDuplicates(g.active)
    ensures forall f: Flow :: f in g.active <==> f in g.queues && g.queues[f] != []
    ensures g.credits.Keys == g.queues.Keys && forall f | f in g.credits :: 0 <= g.credits[f] < MTU_SIZE
  {
    hide SafeRun, RunGang, NoDuplicates, SizesOk;
    EmptyGangOk(f => 1);
    GangAlwaysOk(disc, law, EmptyGang(), acts);
    g := RunGang(disc, law, EmptyGang(), acts).value;
  }

  lemma {:induction false} RunOkSplits(disc: Qdisc, law: (nat, nat) -> nat, g: Gang, a: seq<Action>, b: seq<Action>,
                                       size: Flow -> nat)
    requires RunOk(disc, law, g, a + b, size)
    ensures RunOk(disc, law, g, a, size)
    ensures var r := RunGang(disc, law, g, a); r.Ok? ==> RunOk(disc, law, r.value, b, size)
    decreases |a|
  {
    hide Act, ActionOk;
    if a == [] {
      assert a + b == b;
    } else {
      assert (a + b)[0] == a[0] && (a + b)[1..] == a[1..] + b;
      var r := Act(disc, law, g, a[0]);
      if r.Ok? {
        RunOkSplits(disc, law, r.value, a[1..], b, size);
      }
    }
  }

  /** And over any stretch of such a run in which two flows have packets throughout, the bytes charged to them differ by
      less than three quanta. */
  lemma FairFromStart(disc: Qdisc, law: (nat, nat) -> nat, before: seq<Action>, acts: seq<Action>, size: Flow -> nat,
                      f: Flow, h: Flow)
    returns (g: Gang)
    requires RunOk(disc, law, EmptyGang(), before + acts, size) && f != h
    ensures RunGang(disc, law, EmptyGang(), before) == Ok(g)
    ensures AlwaysWaits(disc, law, g, acts, f) && AlwaysWaits(disc, law, g, acts, h) ==>
      -3 * MTU_SIZE < Charged(disc, law, g, acts, f) - Charged(disc, law, g, acts, h) < 3 * MTU_SIZE
  {
    hide GangOk, ShortOk, RunOk, RunGang, AlwaysWaits, Charged;
    EmptyGangOk(size);
    RunOkSplits(disc, law, EmptyGang(), before, acts, size);
    ShortAlwaysOk(disc, law, EmptyGang(), before, size);
    g := RunGang(disc, law, EmptyGang(), before).value;
    if AlwaysWaits(disc, law, g, acts, f) && AlwaysWaits(disc, law, g, acts, h) {
      Fairness(disc, law, g, acts, size, f, h);
    }
  }

  // ---------------------------------------------------------------- mixed sizes can starve a flow

  /** Two packets of 434 and 1000 bytes, n times, and one more. */
  function Load(a: Packet, b: Packet, n: nat): (r: seq<Packet>)
    ensures r != []
  {
    if n == 0 then [a] else [a, b] + Load(a, b, n - 1)
  }

  function Pair(f: Flow, h: Flow, q: seq<Packet>, p: Packet, credit: int): Gang {
    var idle := Codel(0, 0, 0, false);
    Gang(map[f := q, h := [p]], map[f := credit, h := 0], [f, h], map[f := true, h := true], map[f := idle, h := idle])
  }

  function Serves(clock: nat -> nat, n: nat): seq<Action> {
    if n == 0 then [] else [Serve(clock)] + Serves(clock, n - 1)
  }

  /** While its credit covers the packet sent last, f stays in turn. */
  lemma PairServes(disc: Qdisc, law: (nat, nat) -> nat, clock: nat -> nat, f: Flow, h: Flow, q: seq<Packet>, p: Packet,
                   credit: int)
    requires disc != CodelDisc && f != h && 1 < |q| && 1 <= Size(q[0]) <= MTU_SIZE
    requires Granted(credit, Size(q[0])) - Size(q[0]) >= Size(q[0])
    ensures var g := Pair(f, h, q, p, credit);
      && Act(disc, law, g, Serve(clock)) == Ok(Pair(f, h, q[1..], p, Granted(credit, Size(q[0])) - Size(q[0])))
      && Charge(g, Serve(clock), f) == Size(q[0]) && Charge(g, Serve(clock), h) == 0 && Waits(g, f) && Waits(g, h)
  {
    var g := Pair(f, h, q, p, credit);
    var next := Served(g, q[1..], Codel(0, 0, 0, false));
    assert next == Pair(f, h, q[1..], p, Granted(credit, Size(q[0])) - Size(q[0]));
  }

  /** One service in a run. */
  lemma OneServed(disc: Qdisc, law: (nat, nat) -> nat, clock: nat -> nat, f: Flow, h: Flow, q: seq<Packet>, p: Packet,
                  credit: int, n: nat)
    requires disc != CodelDisc && f != h && 1 < |q| && 1 <= Size(q[0]) <= MTU_SIZE && n > 0
    requires Granted(credit, Size(q[0])) - Size(q[0]) >= Size(q[0])
    ensures var g, g1 := Pair(f, h, q, p, credit), Pair(f, h, q[1..], p, Granted(credit, Size(q[0])) - Size(q[0]));
      && Charged(disc, law, g, Serves(clock, n), f) == Size(q[0]) + Charged(disc, law, g1, Serves(clock, n - 1), f)
      && Charged(disc, law, g, Serves(clock, n), h) == Charged(disc, law, g1, Serves(clock, n - 1), h)
      && (AlwaysWaits(disc, law, g1, Serves(clock, n - 1), f) ==> AlwaysWaits(disc, law, g, Serves(clock, n), f))
      && (AlwaysWaits(disc, law, g1, Serves(clock, n - 1), h) ==> AlwaysWaits(disc, law, g, Serves(clock, n), h))
      && (SafeRun(disc, law, g1, Serves(clock, n - 1)) ==> SafeRun(disc, law, g, Serves(clock, n)))
  {
    hide Act, Charge, Pair, Waits;
    PairServes(disc, law, clock, f, h, q, p, credit);
    assert Serves(clock, n)[0] == Serve(clock) && Serves(clock, n)[1..] == Serves(clock, n - 1);
  }

  predicate Starved(disc: Qdisc, law: (nat, nat) -> nat, g: Gang, acts: seq<Action>, f: Flow, h: Flow, bytes: nat) {
    && SafeRun(disc, law, g, acts) && AlwaysWaits(disc, law, g, acts, f) && AlwaysWaits(disc, law, g, acts, h)
    && Charged(disc, law, g, acts, f) == bytes && Charged(disc, law, g, acts, h) == 0
  }

  lemma {:induction false} LoadStarves(disc: Qdisc, law: (nat, nat) -> nat, clock: nat -> nat, f: Flow, h: Flow,
                                       a: Packet, b: Packet, p: Packet, n: nat)
    requires disc != CodelDisc && f != h && Size(a) == 434 && Size(b) == 1000
    ensures Starved(disc, law, Pair(f, h, Load(a, b, n), p, 1433), Serves(clock, 2 * n), f, h, 1434 * n)
    decreases n
  {
    hide Act, Charge;
    if n > 0 {
      var q := Load(a, b, n);
      var rest := Load(a, b, n - 1);
      assert q[0] == a && q[1..] == [b] + rest && q[1..][0] == b && q[1..][1..] == rest;
      LoadStarves(disc, law, clock, f, h, a, b, p, n - 1);
      OneServed(disc, law, clock, f, h, [b] + rest, p, 999, 2 * n - 1);
      OneServed(disc, law, clock, f, h, q, p, 1433, 2 * n);
    }
  }

  /**
   * One byte leaves flow f a credit of 1433, and from then on packets of 434 and 1000 bytes in turn always leave it
   * credit for the packet sent last: it is never moved back, and flow h, which waits all the time, is never served.
   */
  lemma MixedSizesCanStarve(disc: Qdisc, law: (nat, nat) -> nat, clock: nat -> nat, f: Flow, h: Flow,
                            one: Packet, a: Packet, b: Packet, p: Packet, n: nat)
    requires disc != CodelDisc && f != h
    requires Size(one) == 1 && Size(a) == 434 && Size(b) == 1000 && 1 <= Size(p) <= MTU_SIZE
    ensures var g := Pair(f, h, [one] + Load(a, b, n), p, 0);
      GangOk(g) && Starved(disc, law, g, Serves(clock, 2 * n + 1), f, h, 1434 * n + 1)
  {
    hide Act, Charge;
    LoadSizes(a, b, n);
    PairIsOk(f, h, [one] + Load(a, b, n), p);
    LoadStarves(disc, law, clock, f, h, a, b, p, n);
    OneServed(disc, law, clock, f, h, [one] + Load(a, b, n), p, 0, 2 * n + 1);
    assert ([one] + Load(a, b, n))[1..] == Load(a, b, n);
  }

  lemma {:induction false} LoadSizes(a: Packet, b: Packet, n: nat)
    requires Size(a) == 434 && Size(b) == 1000
    ensures SizesOk(Load(a, b, n))
  {
    if n > 0 {
      LoadSizes(a, b, n - 1);
    }
  }

  lemma PairIsOk(f: Flow, h: Flow, q: seq<Packet>, p: Packet)
    requires f != h && q != [] && SizesOk(q[1..]) && 1 <= Size(q[0]) <= MTU_SIZE && 1 <= Size(p) <= MTU_SIZE
    ensures GangOk(Pair(f, h, q, p, 0))
  {
    assert SizesOk(q) by {
      forall i | 0 <= i < |q| ensures 1 <= Size(q[i]) <= MTU_SIZE {
        if i > 0 {
          assert q[i] == q[1..][i - 1];
        }
      }
    }
    var g := Pair(f, h, q, p, 0);
    assert g.active[0] == f && g.active[1] == h;
  }

  // ---------------------------------------------------------------- in place

  class QueueGang {
    const disc: Qdisc
    var limit: nat
    var queues: map<Flow, seq<Packet>>
    var credits: map<Flow, int>
    var active: seq<Flow>
    var indicator: map<Flow, bool>
    var servos: map<Flow, Codel>

    ghost function Value(): Gang
      reads this
    {
      Gang(queues, credits, active, indicator, servos)
    }

    constructor (qdisc: Qdisc)
      ensures disc == qdisc && limit == 0 && Value() == EmptyGang() && GangOk(Value())
    {
      disc, limit := qdisc, 0;
      queues, credits, active, indicator, servos := map[], map[], [], map[], map[];
    }

    method AggregateLength() returns (total: nat)
      ensures total == AggregateBelow(queues, 256)
    {
      total := 0;
      for f := 0 to 256
        invariant total == AggregateBelow(queues, f)
      {
        if f in queues {
          total := total + TotalLength(queues[f]);
        }
      }
    }

    method LongestQueue() returns (longest: Option<Flow>)
      ensures longest == LongestBelow(queues, 256)
    {
      longest := None;
      for f := 0 to 256
        invariant longest == LongestBelow(queues, f)
      {
        if f in queues && (longest.None? || TotalLength(queues[f]) > TotalLength(queues[longest.value])) {
          longest := Some(f);
        }
      }
    }

    method CreateNewQueue(f: Flow)
      requires f !in queues
      modifies this`queues, this`credits, this`indicator, this`servos
      ensures Value() == Created(old(Value()), f)
    {
      queues := queues[f := []];
      credits := credits[f := 0];
      indicator := indicator[f := false];
      servos := servos[f := Codel(0, 0, 0, false)];
    }

    /**
     * A packet of flow f arrives; the classifier that finds f is not part of this model. Not ok when an assertion
     * or a lookup fails; with a gang in order and a positive limit neither does.
     */
    method EnquePacket(f: Flow, payload: seq<Byte>, now: nat) returns (ok: bool)
      modifies this`queues, this`credits, this`indicator, this`servos, this`active
      ensures ok <==> Enque(disc, limit, old(Value()), f, Packet(now, payload)).Ok?
      ensures ok ==> Value() == Enque(disc, limit, old(Value()), f, Packet(now, payload)).value
    {
      hide AggregateBelow, LongestBelow;
      if f !in queues {
        CreateNewQueue(f);
      }
      if disc == SproutDisc {
        if limit == 0 {
          return false;
        }
        var total := AggregateLength();
        if total > limit {
          var longest := LongestQueue();
          if longest.Some? {
            if longest.value !in queues || queues[longest.value] == [] {
              return false;
            }
            queues := queues[longest.value := queues[longest.value][1..]];
          }
        }
      }
      if f !in indicator {
        return false;
      }
      queues := queues[f := queues[f] + [Packet(now, payload)]];
      if !indicator[f] {
        indicator := indicator[f := true];
        active := active + [f];
        credits := credits[f := 0];
      }
      return true;
    }

    method GetNext(clock: nat -> nat, law: (nat, nat) -> nat) returns (contents: seq<Byte>)
      requires GangOk(Value())
      modifies this`queues, this`credits, this`indicator, this`servos, this`active
      ensures GangOk(Value())
      ensures GetNextPacket(disc, clock, law, old(Value())) == Ok(Service(Value(), contents))
    {
      hide Take, GangOk, Served;
      ghost var g := Value();
      GetKeeps(disc, clock, law, g);
      if active == [] {
        return [];
      }
      assert HeadOk(g);
      HeadIsMarked(g);
      var current := active[0];
      var size := Size(queues[current][0]);
      ChargeHead(current, size);
      var d := Take(disc, clock, law, servos[current], queues[current]);
      contents := d.p.contents;
      PassOn(g, current, size, d.q, d.st);
    }

    method ChargeHead(f: Flow, size: int)
      requires f in credits
      modifies this`credits
      ensures credits == old(credits)[f := Granted(old(credits)[f], size) - size]
    {
      if credits[f] < size {
        credits := credits[f := credits[f] + MTU_SIZE];
      }
      credits := credits[f := credits[f] - size];
    }

    /** The flow in turn leaves the list, goes to its end, or stays in turn. */
    method PassOn(ghost g: Gang, f: Flow, size: int, q: seq<Packet>, st: Codel)
      requires HeadOk(g) && f == g.active[0] && size == Size(g.queues[f][0]) && g.indicator[f]
      requires Value() == g.(credits := g.credits[f := Granted(g.credits[f], size) - size])
      modifies this`queues, this`credits, this`indicator, this`servos, this`active
      ensures Value() == Served(g, q, st)
    {
      queues, servos := queues[f := q], servos[f := st];
      if q == [] {
        credits := credits[f := 0];
        active := active[1..];
        indicator := indicator[f := false];
      } else {
        assert indicator == indicator[f := true];
        if credits[f] < size {
          active := active[1..] + [f];
        }
      }
    }
  }

  lemma HeadIsMarked(g: Gang)
    requires GangOk(g) && g.active != []
    ensures g.active[0] in g.indicator && g.indicator[g.active[0]]
  {
    var f := g.active[0];
    assert FlowOk(g.indicator[f], f in g.active, g.credits[f], g.queues[f]);
  }
}
