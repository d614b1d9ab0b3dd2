/**
 * Packet queues with CoDel (alfalfa/src/network/ingress-queue.h, codel.cc).
 * The clock may advance between its readings, and the control law may be any
 * function of the time and the count.
 */
module Codels {
  import opened Bytes

  const TARGET: nat := 5
  const INTERVAL: nat := 100
  const MAX_PACKET: nat := 1500

  datatype Packet = Packet(tstamp: nat, contents: seq<Byte>)

  /** The bytes waiting. */
  function TotalLength(q: seq<Packet>): nat {
    if q == [] then 0 else |q[0].contents| + TotalLength(q[1..])
  }

  lemma {:induction false} TotalLengthPush(q: seq<Packet>, p: Packet)
    ensures TotalLength(q + [p]) == TotalLength(q) + |p.contents|
  {
    if q == [] {
      assert ([] + [p])[1..] == [];
    } else {
      assert (q + [p])[1..] == q[1..] + [p];
      TotalLengthPush(q[1..], p);
    }
  }

  /** What a queue without packets yields. */
  const NOTHING: Packet := Packet(0xFFFF_FFFF_FFFF_FFFF, [])

  /** Subtraction of unsigned 64-bit times. */
  function Since(a: nat, b: nat): nat {
    (a - b) % 0x1_0000_0000_0000_0000
  }

  datatype Codel = Codel(firstAbove: nat, dropNext: nat, count: nat, dropping: bool)

  /** A packet taken from the queue: when, what, how many bytes it left, and whether it was then dropped. */
  datatype Taken = Taken(time: nat, packet: Packet, left: nat, dropped: bool)

  datatype Popped = Popped(st: Codel, q: seq<Packet>, p: Packet, ok: bool)

  function Pop(st: Codel, q: seq<Packet>, now: nat): Popped {
    var p := if q == [] then NOTHING else q[0];
    var rest := if q == [] then [] else q[1..];
    if |p.contents| == 0 || Since(now, p.tstamp) < TARGET || TotalLength(rest) < MAX_PACKET then
      Popped(st.(firstAbove := 0), rest, p, false)
    else if st.firstAbove == 0 then
      Popped(st.(firstAbove := now + INTERVAL), rest, p, false)
    else
      Popped(st, rest, p, now >= st.firstAbove)
  }

  /** The outcome of a dequeue: what is left, what is handed on, and all that was taken on the way. */
  datatype Dequeued = Dequeued(st: Codel, q: seq<Packet>, p: Packet, log: seq<Taken>)

  function Entry(q: seq<Packet>, now: nat, dropped: bool): seq<Taken> {
    if q == [] then [] else [Taken(now, q[0], TotalLength(q[1..]), dropped)]
  }

  /** The next packet after a drop; the drop after that is scheduled, or dropping ends. */
  function Rescheduled(law: (nat, nat) -> nat, r: Popped, time: nat): (next: Popped)
    ensures next.q == if r.q == [] then [] else r.q[1..]
  {
    var next := Pop(r.st.(count := r.st.count + 1), r.q, time);
    if next.ok then next.(st := next.st.(dropNext := law(next.st.dropNext, next.st.count)))
    else next.(st := next.st.(dropping := false))
  }

  /** While drops are due: drop the packet in hand, taken from q at the given time, and take the next. */
  function DropLoop(clock: nat -> nat, law: (nat, nat) -> nat, now: nat, q: seq<Packet>, time: nat,
                    r: Popped, i: nat): Dequeued
    requires r.q == if q == [] then [] else q[1..]
    decreases |q|, if r.st.dropping then 1 else 0
  {
    if now >= r.st.dropNext && r.st.dropping && q != [] then
      var rest := DropLoop(clock, law, now, r.q, clock(i), Rescheduled(law, r, clock(i)), i + 1);
      rest.(log := Entry(q, time, true) + rest.log)
    else
      Dequeued(r.st, r.q, r.p, Entry(q, time, false))
  }

  function FirstDrop(clock: nat -> nat, law: (nat, nat) -> nat, now: nat, q: seq<Packet>, time: nat,
                     r: Popped): Dequeued {
    var next := Pop(r.st, r.q, clock(2));
    var count := if Since(now, r.st.dropNext) < INTERVAL then if r.st.count > 2 then r.st.count - 2 else 1 else 1;
    var st := next.st.(dropping := true, count := count, dropNext := law(now, count));
    Dequeued(st, next.q, next.p, Entry(q, time, true) + Entry(r.q, clock(2), false))
  }

  /** One dequeue; reading number i of the clock during it gives clock(i). */
  function Deque(clock: nat -> nat, law: (nat, nat) -> nat, st: Codel, q: seq<Packet>): Dequeued {
    var now := clock(0);
    var time := clock(1);
    var r := Pop(st, q, time);
    if |r.p.contents| == 0 then
      Dequeued(r.st.(dropping := false), r.q, r.p, Entry(q, time, false))
    else if r.st.dropping then
      if !r.ok then Dequeued(r.st.(dropping := false), r.q, r.p, Entry(q, time, false))
      else DropLoop(clock, law, now, q, time, r, 2)
    else if r.ok && (Since(now, r.st.dropNext) < INTERVAL || Since(now, r.st.firstAbove) >= INTERVAL) then
      FirstDrop(clock, law, now, q, time, r)
    else
      Dequeued(r.st, r.q, r.p, Entry(q, time, false))
  }

  // ---------------------------------------------------------------- when packets may be dropped

  /** The packet had waited for the target time, and a full packet's bytes were left behind it. */
  predicate Above(e: Taken) {
    e.packet.tstamp + TARGET <= e.time && e.left >= MAX_PACKET
  }

  predicate AboveFrom(log: seq<Taken>, i: int) {
    forall j | 0 <= i <= j < |log| :: Above(log[j])
  }

  /** The time kept is an interval after some dequeue since which all were above. */
  ghost predicate HistOk(log: seq<Taken>, firstAbove: nat) {
    firstAbove == 0 || exists i | 0 <= i < |log| :: log[i].time + INTERVAL == firstAbove && AboveFrom(log, i)
  }

  /** The last dequeue came an interval after some dequeue since which all were above. */
  ghost predicate MayDrop(log: seq<Taken>) {
    exists i | 0 <= i < |log| :: log[i].time + INTERVAL <= log[|log| - 1].time && AboveFrom(log, i)
  }

  ghost predicate DropsOk(log: seq<Taken>) {
    forall k | 0 <= k < |log| && log[k].dropped :: MayDrop(log[..k + 1])
  }

  function Packets(log: seq<Taken>): seq<Packet> {
    seq(|log|, i requires 0 <= i < |log| => log[i].packet)
  }

  lemma AboveFromMore(log: seq<Taken>, i: int, e: Taken)
    requires AboveFrom(log, i) && Above(e)
    ensures AboveFrom(log + [e], i)
  {
  }

  lemma PopKeeps(st: Codel, q: seq<Packet>, now: nat, log: seq<Taken>, dropped: bool)
    requires q != [] && q[0].tstamp <= now < 0x1_0000_0000_0000_0000
    requires HistOk(log, st.firstAbove)
    ensures var r := Pop(st, q, now);
      && HistOk(log + Entry(q, now, dropped), r.st.firstAbove)
      && (r.ok ==> MayDrop(log + Entry(q, now, dropped)))
  {
    hide AboveFrom, TotalLength;
    var e := Taken(now, q[0], TotalLength(q[1..]), dropped);
    var r := Pop(st, q, now);
    assert Since(now, q[0].tstamp) == now - q[0].tstamp;
    if r.st.firstAbove != 0 {
      assert Above(e);
      if st.firstAbove == 0 {
        assert AboveFrom(log + [e], |log|) by { AboveAlone(log, e); }
        assert (log + [e])[|log|].time + INTERVAL == r.st.firstAbove;
      } else {
        var i :| 0 <= i < |log| && log[i].time + INTERVAL == st.firstAbove && AboveFrom(log, i);
        AboveFromMore(log, i, e);
        assert (log + [e])[i] == log[i];
      }
    }
  }

  lemma AboveAlone(log: seq<Taken>, e: Taken)
    requires Above(e)
    ensures AboveFrom(log + [e], |log|)
  {
  }

  lemma DropsMore(log: seq<Taken>, e: Taken)
    requires DropsOk(log) && (e.dropped ==> MayDrop(log + [e]))
    ensures DropsOk(log + [e])
  {
    hide MayDrop;
    forall k | 0 <= k < |log + [e]| && (log + [e])[k].dropped ensures MayDrop((log + [e])[..k + 1]) {
      if k < |log| {
        assert (log + [e])[..k + 1] == log[..k + 1];
      } else {
        assert (log + [e])[..k + 1] == log + [e];
      }
    }
  }

  /** Only the flag of the last entry differs. */
  lemma SameButFlag(log: seq<Taken>, q: seq<Packet>, now: nat, firstAbove: nat)
    requires q != []
    ensures MayDrop(log + Entry(q, now, true)) == MayDrop(log + Entry(q, now, false))
    ensures HistOk(log + Entry(q, now, true), firstAbove) == HistOk(log + Entry(q, now, false), firstAbove)
  {
    var a, b := log + Entry(q, now, true), log + Entry(q, now, false);
    forall i | 0 <= i < |a| ensures a[i].time == b[i].time && AboveFrom(a, i) == AboveFrom(b, i) {
      assert forall j | 0 <= j < |a| :: Above(a[j]) == Above(b[j]);
    }
  }

  ghost predicate Monotone(clock: nat -> nat) {
    forall i: nat, j: nat | i <= j :: clock(i) <= clock(j)
  }

  predicate NotAfter(q: seq<Packet>, time: nat) {
    forall i | 0 <= i < |q| :: q[i].tstamp <= time
  }

  /** What a dequeue adds to the record of a line. */
  ghost predicate Records(log: seq<Taken>, q: seq<Packet>, d: Dequeued) {
    && DropsOk(log + d.log)
    && HistOk(log + d.log, d.st.firstAbove)
    && Packets(d.log) + d.q == q
    && (q != [] ==> |d.q| < |q|)
  }

  lemma {:induction false} DropLoopKeeps(clock: nat -> nat, law: (nat, nat) -> nat, now: nat, q: seq<Packet>,
                                         time: nat, r: Popped, i: nat, log: seq<Taken>)
    requires r.q == if q == [] then [] else q[1..]
    requires Monotone(clock) && NotAfter(q, clock(i)) && clock(i + |q|) < 0x1_0000_0000_0000_0000
    requires DropsOk(log) && HistOk(log + Entry(q, time, false), r.st.firstAbove)
    requires q != [] && r.st.dropping ==> MayDrop(log + Entry(q, time, false))
    ensures Records(log, q, DropLoop(clock, law, now, q, time, r, i))
    decreases |q|, if r.st.dropping then 1 else 0
  {
    hide HistOk, DropsOk, MayDrop, Pop, Packets, TotalLength, DropLoop;
    DropLoopUnfolds(clock, law, now, q, time, r, i);
    if q != [] && now >= r.st.dropNext && r.st.dropping {
      var e := Taken(time, q[0], TotalLength(q[1..]), true);
      var log1 := log + [e];
      SameButFlag(log, q, time, r.st.firstAbove);
      DropsMore(log, e);
      NextPop(r.st.(count := r.st.count + 1), r.q, clock(i), log1);
      assert NotAfter(r.q, clock(i + 1)) by { assert clock(i) <= clock(i + 1); }
      DropLoopKeeps(clock, law, now, r.q, clock(i), Rescheduled(law, r, clock(i)), i + 1, log1);
      var rest := DropLoop(clock, law, now, r.q, clock(i), Rescheduled(law, r, clock(i)), i + 1);
      DropJoins(log, e, q, rest);
    } else {
      OneTaken(log, q, time);
    }
  }

  lemma DropLoopUnfolds(clock: nat -> nat, law: (nat, nat) -> nat, now: nat, q: seq<Packet>, time: nat,
                        r: Popped, i: nat)
    requires r.q == if q == [] then [] else q[1..]
    ensures DropLoop(clock, law, now, q, time, r, i) ==
      if now >= r.st.dropNext && r.st.dropping && q != [] then
        var rest := DropLoop(clock, law, now, r.q, clock(i), Rescheduled(law, r, clock(i)), i + 1);
        rest.(log := Entry(q, time, true) + rest.log)
      else
        Dequeued(r.st, r.q, r.p, Entry(q, time, false))
  {
    hide Pop, Entry;
  }

  lemma DropJoins(log: seq<Taken>, e: Taken, q: seq<Packet>, rest: Dequeued)
    requires q != [] && e.packet == q[0] && Records(log + [e], q[1..], rest)
    ensures Records(log, q, rest.(log := [e] + rest.log))
  {
    hide HistOk, DropsOk, Packets;
    assert log + ([e] + rest.log) == (log + [e]) + rest.log;
    FirstPacket(e, rest.log, rest.q, q);
  }

  lemma NoPackets(log: seq<Taken>, more: seq<Taken>)
    requires more == []
    ensures log + more == log && Packets(more) == []
  {
  }

  /** Taking the next packet, if there is one. */
  lemma NextPop(st: Codel, q: seq<Packet>, now: nat, log: seq<Taken>)
    requires NotAfter(q, now) && now < 0x1_0000_0000_0000_0000
    requires HistOk(log, st.firstAbove)
    ensures var r := Pop(st, q, now);
      && r.q == (if q == [] then [] else q[1..])
      && HistOk(log + Entry(q, now, false), r.st.firstAbove)
      && (r.ok ==> q != [] && MayDrop(log + Entry(q, now, false)))
      && r.st.dropping == st.dropping && r.st.dropNext == st.dropNext && r.st.count == st.count
  {
    hide HistOk, MayDrop, TotalLength;
    if q == [] {
      assert HistOk(log + [], 0) by { HistOfNone(log + []); }
    } else {
      PopKeeps(st, q, now, log, false);
    }
  }

  lemma HistOfNone(log: seq<Taken>)
    ensures HistOk(log, 0)
  {
  }

  lemma FirstPacket(e: Taken, more: seq<Taken>, left: seq<Packet>, q: seq<Packet>)
    requires q != [] && e.packet == q[0] && Packets(more) + left == q[1..]
    ensures Packets([e] + more) + left == q
  {
    assert Packets([e] + more) == [q[0]] + Packets(more);
  }

  /** Every dequeue keeps the record: what is dropped was due, and nothing is lost or reordered. */
  lemma DequeKeeps(clock: nat -> nat, law: (nat, nat) -> nat, st: Codel, q: seq<Packet>, log: seq<Taken>)
    requires Monotone(clock) && NotAfter(q, clock(0)) && clock(|q| + 2) < 0x1_0000_0000_0000_0000
    requires DropsOk(log) && HistOk(log, st.firstAbove)
    ensures Records(log, q, Deque(clock, law, st, q))
  {
    hide HistOk, DropsOk, MayDrop, Pop, Packets, TotalLength, DropLoop, FirstDrop;
    var time := clock(1);
    assert NotAfter(q, time) && NotAfter(q, clock(2)) && time <= clock(|q| + 2) by { LaterClock(clock, q); }
    var r := Pop(st, q, time);
    NextPop(st, q, time, log);
    OneTaken(log, q, time);
    if |r.p.contents| != 0 && r.st.dropping && r.ok {
      DropLoopKeeps(clock, law, clock(0), q, time, r, 2, log);
    } else if r.ok {
      FirstDropKeeps(clock, law, clock(0), q, time, r, log);
    }
  }

  lemma LaterClock(clock: nat -> nat, q: seq<Packet>)
    requires Monotone(clock) && NotAfter(q, clock(0))
    ensures NotAfter(q, clock(1)) && NotAfter(q, clock(2)) && clock(1) <= clock(|q| + 2) && clock(2) <= clock(|q| + 2)
  {
    assert clock(0) <= clock(1) <= clock(2);
  }

  /** One packet, if any, taken and handed on. */
  lemma OneTaken(log: seq<Taken>, q: seq<Packet>, time: nat)
    requires DropsOk(log)
    ensures DropsOk(log + Entry(q, time, false))
    ensures Packets(Entry(q, time, false)) + (if q == [] then [] else q[1..]) == q
  {
    hide DropsOk, MayDrop, TotalLength;
    if q == [] {
      NoPackets(log, []);
    } else {
      var e := Taken(time, q[0], TotalLength(q[1..]), false);
      DropsMore(log, e);
    }
  }

  lemma FirstDropKeeps(clock: nat -> nat, law: (nat, nat) -> nat, now: nat, q: seq<Packet>, time: nat, r: Popped,
                       log: seq<Taken>)
    requires q != [] && r.q == q[1..] && NotAfter(q, clock(2)) && clock(2) < 0x1_0000_0000_0000_0000
    requires DropsOk(log) && HistOk(log + Entry(q, time, false), r.st.firstAbove)
    requires MayDrop(log + Entry(q, time, false))
    ensures Records(log, q, FirstDrop(clock, law, now, q, time, r))
  {
    hide HistOk, DropsOk, MayDrop, Pop, Packets, TotalLength;
    var e := Taken(time, q[0], TotalLength(q[1..]), true);
    var log1 := log + [e];
    SameButFlag(log, q, time, r.st.firstAbove);
    DropsMore(log, e);
    NextPop(r.st, r.q, clock(2), log1);
    OneTaken(log1, r.q, clock(2));
    var more := Entry(r.q, clock(2), false);
    assert log + ([e] + more) == log1 + more;
    FirstPacket(e, more, if r.q == [] then [] else r.q[1..], q);
  }

  // ---------------------------------------------------------------- what is handed on

  /** The packets taken and not dropped. */
  function Kept(log: seq<Taken>): seq<Packet> {
    if log == [] then [] else (if log[0].dropped then [] else [log[0].packet]) + Kept(log[1..])
  }

  lemma {:induction false} KeptJoin(a: seq<Taken>, b: seq<Taken>)
    ensures Kept(a + b) == Kept(a) + Kept(b)
  {
    if a == [] {
      assert a + b == b;
    } else {
      assert (a + b)[1..] == a[1..] + b;
      KeptJoin(a[1..], b);
    }
  }

  /** One packet is not dropped, and that is the one handed on; or none was left, and nothing is. */
  predicate HandsOn(d: Dequeued) {
    Kept(d.log) == [d.p] || (Kept(d.log) == [] && d.p == NOTHING && d.q == [])
  }

  lemma EntryHandsOn(st: Codel, q: seq<Packet>, now: nat, more: seq<Taken>)
    requires Kept(more) == []
    ensures var r := Pop(st, q, now);
      && r.p == (if q == [] then NOTHING else q[0])
      && HandsOn(Dequeued(r.st, r.q, r.p, more + Entry(q, now, false)))
  {
    KeptJoin(more, Entry(q, now, false));
  }

  lemma DroppedKeepsNone(q: seq<Packet>, now: nat, more: seq<Taken>)
    ensures Kept(Entry(q, now, true)) == [] && Kept(Entry(q, now, true) + more) == Kept(more)
  {
    KeptJoin(Entry(q, now, true), more);
  }

  lemma {:induction false} DropLoopHandsOn(clock: nat -> nat, law: (nat, nat) -> nat, now: nat, q: seq<Packet>,
                                           time: nat, r: Popped, i: nat)
    requires r.q == (if q == [] then [] else q[1..]) && r.p == (if q == [] then NOTHING else q[0])
    ensures HandsOn(DropLoop(clock, law, now, q, time, r, i))
    decreases |q|
  {
    hide DropLoop, Kept, TotalLength;
    DropLoopUnfolds(clock, law, now, q, time, r, i);
    if q != [] && now >= r.st.dropNext && r.st.dropping {
      DropLoopHandsOn(clock, law, now, r.q, clock(i), Rescheduled(law, r, clock(i)), i + 1);
      DroppedKeepsNone(q, time, DropLoop(clock, law, now, r.q, clock(i), Rescheduled(law, r, clock(i)), i + 1).log);
    } else {
      NothingKept();
      assert [] + Entry(q, time, false) == Entry(q, time, false);
      EntryHandsOn(r.st, q, time, []);
    }
  }

  lemma NothingKept()
    ensures Kept([]) == []
  {
  }

  /** Every dequeue hands on the one packet it took and did not drop, or finds none. */
  lemma DequeHandsOn(clock: nat -> nat, law: (nat, nat) -> nat, st: Codel, q: seq<Packet>)
    ensures HandsOn(Deque(clock, law, st, q))
  {
    hide DropLoop, Kept, TotalLength;
    var time := clock(1);
    var r := Pop(st, q, time);
    NothingKept();
    assert [] + Entry(q, time, false) == Entry(q, time, false);
    EntryHandsOn(st, q, time, []);
    DropLoopHandsOn(clock, law, clock(0), q, time, r, 2);
    DroppedKeepsNone(q, time, []);
    EntryHandsOn(r.st, r.q, clock(2), Entry(q, time, true));
  }

  // ---------------------------------------------------------------- whole runs

  /** A queue with its controller, everything that entered, everything that was taken and what was handed on. */
  datatype Line = Line(st: Codel, q: seq<Packet>, entered: seq<Packet>, log: seq<Taken>, returned: seq<Packet>,
    time: nat)

  datatype Event = Enter(now: nat, contents: seq<Byte>) | Leave(clock: nat -> nat)

  function InitialLine(): Line {
    Line(Codel(0, 0, 0, false), [], [], [], [], 0)
  }

  /** The packet handed on, unless the queue ran empty over the drops. */
  function Handed(d: Dequeued): seq<Packet> {
    if d.p == NOTHING && d.q == [] && Kept(d.log) == [] then [] else [d.p]
  }

  function After(law: (nat, nat) -> nat, l: Line, e: Event): Line {
    match e
    case Enter(now, contents) =>
      var p := Packet(now, contents);
      l.(q := l.q + [p], entered := l.entered + [p], time := now)
    case Leave(clock) =>
      var d := Deque(clock, law, l.st, l.q);
      l.(st := d.st, q := d.q, log := l.log + d.log, returned := l.returned + Handed(d),
         time := clock(|l.q| + 2))
  }

  /** Time does not run backwards, and fits 64 bits. */
  ghost predicate Timely(l: Line, e: Event) {
    match e
    case Enter(now, contents) => l.time <= now < 0x1_0000_0000_0000_0000
    case Leave(clock) => Monotone(clock) && l.time <= clock(0) && clock(|l.q| + 2) < 0x1_0000_0000_0000_0000
  }

  ghost predicate LineOk(l: Line) {
    && l.entered == Packets(l.log) + l.q
    && l.returned == Kept(l.log)
    && DropsOk(l.log)
    && HistOk(l.log, l.st.firstAbove)
    && NotAfter(l.q, l.time)
  }

  lemma AfterKeeps(law: (nat, nat) -> nat, l: Line, e: Event)
    requires LineOk(l) && Timely(l, e)
    ensures LineOk(After(law, l, e))
  {
    hide DropsOk, HistOk, Packets, Deque, Kept;
    match e
    case Enter(now, contents) =>
      var p := Packet(now, contents);
      assert l.entered + [p] == Packets(l.log) + (l.q + [p]);
    case Leave(clock) =>
      var d := Deque(clock, law, l.st, l.q);
      assert NotAfter(l.q, clock(0));
      DequeKeeps(clock, law, l.st, l.q, l.log);
      PacketsJoin(l.log, d.log);
      DequeHandsOn(clock, law, l.st, l.q);
      KeptJoin(l.log, d.log);
      assert l.entered == Packets(l.log) + (Packets(d.log) + d.q);
      assert NotAfter(d.q, clock(|l.q| + 2)) by {
        SuffixNotAfter(Packets(d.log), d.q, l.q, clock(0), clock(|l.q| + 2));
      }
  }

  lemma PacketsJoin(a: seq<Taken>, b: seq<Taken>)
    ensures Packets(a + b) == Packets(a) + Packets(b)
  {
  }

  lemma SuffixNotAfter(a: seq<Packet>, b: seq<Packet>, q: seq<Packet>, time: nat, later: nat)
    requires a + b == q && NotAfter(q, time) && time <= later
    ensures NotAfter(b, later)
  {
    forall i | 0 <= i < |b| ensures b[i].tstamp <= later { assert b[i] == q[|a| + i]; }
  }

  ghost predicate TimelyRun(law: (nat, nat) -> nat, l: Line, events: seq<Event>)
    decreases |events|
  {
    events == [] || (Timely(l, events[0]) && TimelyRun(law, After(law, l, events[0]), events[1..]))
  }

  function RunLine(law: (nat, nat) -> nat, l: Line, events: seq<Event>): Line
    decreases |events|
  {
    if events == [] then l else RunLine(law, After(law, l, events[0]), events[1..])
  }

  /**
   * Over every run: what entered is, in order, what was taken followed by what still waits; what was
   * handed on is, in order, what was taken and not dropped; and whatever was dropped had waited for the
   * target time and was taken an interval after some dequeue since which every dequeue was above target
   * with a full packet's bytes left.
   */
  lemma {:induction false} LineAlwaysOk(law: (nat, nat) -> nat, l: Line, events: seq<Event>)
    requires LineOk(l) && TimelyRun(law, l, events)
    ensures LineOk(RunLine(law, l, events))
    decreases |events|
  {
    hide LineOk, After, Timely;
    if events != [] {
      AfterKeeps(law, l, events[0]);
      LineAlwaysOk(law, After(law, l, events[0]), events[1..]);
    }
  }

  lemma InitiallyOk()
    ensures LineOk(InitialLine())
  {
  }

  /** So over every run of a queue that starts empty: what was taken, followed by what waits, is what entered; what was
      handed on is what was taken and not dropped; and whatever was dropped had waited at least the target time. */
  lemma LineFromStart(law: (nat, nat) -> nat, events: seq<Event>)
    requires TimelyRun(law, InitialLine(), events)
    ensures var l := RunLine(law, InitialLine(), events);
      && l.entered == Packets(l.log) + l.q && l.returned == Kept(l.log) && DropsOk(l.log)
      && forall k | 0 <= k < |l.log| && l.log[k].dropped :: l.log[k].packet.tstamp + TARGET <= l.log[k].time
  {
    hide TimelyRun, RunLine, DropsOk, HistOk, NotAfter, Packets, Kept;
    InitiallyOk();
    LineAlwaysOk(law, InitialLine(), events);
    var l := RunLine(law, InitialLine(), events);
    forall k | 0 <= k < |l.log| && l.log[k].dropped
      ensures l.log[k].packet.tstamp + TARGET <= l.log[k].time
    {
      DroppedHadWaited(l.log, k);
    }
  }

  /** Every dropped packet had waited at least the target time. */
  lemma DroppedHadWaited(log: seq<Taken>, k: int)
    requires DropsOk(log) && 0 <= k < |log| && log[k].dropped
    ensures log[k].packet.tstamp + TARGET <= log[k].time
  {
    var prefix := log[..k + 1];
    assert MayDrop(prefix);
    assert prefix[k] == log[k];
  }

  // ---------------------------------------------------------------- when packets are dropped

  /** The packet in front is not empty and had waited for the target time, and a full packet's bytes are behind it. */
  predicate Standing(q: seq<Packet>, time: nat) {
    q != [] && q[0].contents != [] && Since(time, q[0].tstamp) >= TARGET && TotalLength(q[1..]) >= MAX_PACKET
  }

  /** It is standing, and the time set when that began has come. */
  predicate Due(st: Codel, q: seq<Packet>, time: nat) {
    Standing(q, time) && st.firstAbove != 0 && st.firstAbove <= time
  }

  /** The time kept once the packet in front was taken. */
  function AboveAfter(st: Codel, q: seq<Packet>, time: nat): nat {
    if !Standing(q, time) then 0 else if st.firstAbove == 0 then time + INTERVAL else st.firstAbove
  }

  lemma PopIs(st: Codel, q: seq<Packet>, time: nat)
    ensures var r := Pop(st, q, time);
      && r.st == st.(firstAbove := AboveAfter(st, q, time)) && r.ok == Due(st, q, time)
      && r.q == (if q == [] then [] else q[1..]) && r.p == (if q == [] then NOTHING else q[0])
  {
    hide TotalLength, Since;
  }

  /** A dequeue that dropped the first n packets and took the next one, if there is one. */
  predicate Took(clock: nat -> nat, q: seq<Packet>, n: nat, d: Dequeued) {
    && n <= |q|
    && d.q == (if n == |q| then [] else q[n + 1..])
    && d.p == (if n == |q| then NOTHING else q[n])
    && LogFrom(clock, q, 0, n, d.log)
  }

  /** Outside the dropping state one packet is dropped, and dropping begins, exactly when the packet in front is due and
      the last dropping was recent or the queue has been standing for two intervals; otherwise none is. */
  lemma StartsDroppingIff(clock: nat -> nat, law: (nat, nat) -> nat, st: Codel, q: seq<Packet>)
    requires !st.dropping
    ensures var d := Deque(clock, law, st, q);
      var now, time := clock(0), clock(1);
      var recent := Since(now, st.dropNext) < INTERVAL;
      if Due(st, q, time) && (recent || Since(now, st.firstAbove) >= INTERVAL) then
        var count := if !recent || st.count <= 2 then 1 else st.count - 2;
        && Took(clock, q, 1, d)
        && d.st == Codel(AboveAfter(st, q[1..], clock(2)), law(now, count), count, true)
      else
        Took(clock, q, 0, d) && d.st == st.(firstAbove := AboveAfter(st, q, time))
  {
    hide TotalLength, Since;
    if q != [] {
      BytesNeedPacket(q[1..]);
      assert |q| > 1 ==> q[1..][1..] == q[2..];
    }
  }

  lemma BytesNeedPacket(q: seq<Packet>)
    ensures TotalLength(q) > 0 ==> q != []
  {
  }

  /** When drop number j of a dropping state is due. */
  function DropTime(law: (nat, nat) -> nat, st: Codel, j: nat): nat {
    if j == 0 then st.dropNext else law(DropTime(law, st, j - 1), st.count + j)
  }

  predicate DropsNext(clock: nat -> nat, law: (nat, nat) -> nat, st: Codel, q: seq<Packet>, j: nat) {
    j <= |q| && Due(st, q[j..], clock(1 + j)) && clock(0) >= DropTime(law, st, j)
  }

  /** In the dropping state packets are dropped up to the first that is not due or whose drop time has not come;
      dropping goes on exactly when that one is due. */
  lemma DropsWhileDue(clock: nat -> nat, law: (nat, nat) -> nat, st: Codel, q: seq<Packet>) returns (n: nat)
    requires st.dropping
    ensures var d := Deque(clock, law, st, q);
      && Took(clock, q, n, d)
      && (forall j: nat | j < n :: DropsNext(clock, law, st, q, j)) && !DropsNext(clock, law, st, q, n)
      && var on := Due(st, q[n..], clock(1 + n));
      d.st == Codel(AboveAfter(st, q[n..], clock(1 + n)), DropTime(law, st, if on || n == 0 then n else n - 1),
                    st.count + n, on)
  {
    hide TotalLength, Since, DropLoop;
    var r := Pop(st, q, clock(1));
    assert q[0..] == q;
    if Due(st, q, clock(1)) {
      n := LoopDropsWhileDue(clock, law, st, q, 0);
      assert r == InHand(clock, law, st, q, 0);
    } else {
      n := 0;
    }
  }

  /** The packet in hand, and the state, once n packets were dropped. */
  function InHand(clock: nat -> nat, law: (nat, nat) -> nat, st: Codel, q: seq<Packet>, n: nat): Popped
    requires n <= |q|
  {
    var on := Due(st, q[n..], clock(1 + n));
    Popped(Codel(AboveAfter(st, q[n..], clock(1 + n)), DropTime(law, st, if on || n == 0 then n else n - 1),
                 st.count + n, on),
           if n == |q| then [] else q[n + 1..], if n == |q| then NOTHING else q[n], on)
  }

  lemma DropsInHand(clock: nat -> nat, law: (nat, nat) -> nat, st: Codel, q: seq<Packet>, m: nat)
    requires m <= |q|
    ensures var r := InHand(clock, law, st, q, m);
      && r.q == (if q[m..] == [] then [] else q[m..][1..])
      && (DropsNext(clock, law, st, q, m) <==> clock(0) >= r.st.dropNext && r.st.dropping && q[m..] != [])
  {
    hide TotalLength, Since, DropTime, AboveAfter;
  }

  lemma {:induction false} LoopDropsWhileDue(clock: nat -> nat, law: (nat, nat) -> nat, st: Codel, q: seq<Packet>,
                                             m: nat)
    returns (n: nat)
    requires m <= |q| && forall j: nat | j < m :: DropsNext(clock, law, st, q, j)
    ensures m <= n <= |q| && !DropsNext(clock, law, st, q, n)
    ensures forall j: nat | j < n :: DropsNext(clock, law, st, q, j)
    ensures var d := DropLoop(clock, law, clock(0), q[m..], clock(1 + m), InHand(clock, law, st, q, m), 2 + m);
      var r := InHand(clock, law, st, q, n);
      LogFrom(clock, q, m, n, d.log) && d.st == r.st && d.q == r.q && d.p == r.p
    decreases |q| - m
  {
    hide DropLoop, LogFrom, InHand, DropsNext, Rescheduled, Entry;
    var r := InHand(clock, law, st, q, m);
    DropsInHand(clock, law, st, q, m);
    DropLoopUnfolds(clock, law, clock(0), q[m..], clock(1 + m), r, 2 + m);
    assert m < |q| ==> q[m..][1..] == q[m + 1..];
    if DropsNext(clock, law, st, q, m) {
      n := LoopDropsWhileDue(clock, law, st, q, m + 1);
      HandedNext(clock, law, st, q, m);
      var rest := DropLoop(clock, law, clock(0), q[m + 1..], clock(2 + m), InHand(clock, law, st, q, m + 1), 3 + m);
      LogMore(clock, q, m, n, rest.log);
    } else {
      n := m;
      LogEnds(clock, q, m);
    }
  }

  /** What is taken from packet m on, when those before packet n are dropped. */
  predicate LogFrom(clock: nat -> nat, q: seq<Packet>, m: nat, n: nat, log: seq<Taken>)
    requires m <= n <= |q|
  {
    && |log| == (if n == |q| then n - m else n + 1 - m)
    && forall j | 0 <= j < |log| ::
         log[j] == Taken(clock(1 + m + j), q[m + j], TotalLength(q[m + j + 1..]), m + j < n)
  }

  lemma LogMore(clock: nat -> nat, q: seq<Packet>, m: nat, n: nat, log: seq<Taken>)
    requires m < n <= |q| && LogFrom(clock, q, m + 1, n, log)
    ensures LogFrom(clock, q, m, n, Entry(q[m..], clock(1 + m), true) + log)
  {
    hide TotalLength;
    var all := Entry(q[m..], clock(1 + m), true) + log;
    assert q[m..][1..] == q[m + 1..];
    forall j | 0 <= j < |all|
      ensures all[j] == Taken(clock(1 + m + j), q[m + j], TotalLength(q[m + j + 1..]), m + j < n)
    {
      assert j > 0 ==> all[j] == log[j - 1];
    }
  }

  lemma LogEnds(clock: nat -> nat, q: seq<Packet>, m: nat)
    requires m <= |q|
    ensures LogFrom(clock, q, m, m, Entry(q[m..], clock(1 + m), false))
  {
    assert m < |q| ==> q[m..][1..] == q[m + 1..];
  }

  lemma HandedNext(clock: nat -> nat, law: (nat, nat) -> nat, st: Codel, q: seq<Packet>, m: nat)
    requires m < |q| && DropsNext(clock, law, st, q, m)
    ensures Rescheduled(law, InHand(clock, law, st, q, m), clock(2 + m)) == InHand(clock, law, st, q, m + 1)
  {
    hide Pop, Standing;
    var rest := q[m + 1..];
    PopIs(InHand(clock, law, st, q, m).st.(count := st.count + m + 1), rest, clock(2 + m));
    assert rest != [] ==> rest[0] == q[m + 1] && rest[1..] == q[m + 2..];
  }

  /** Every dequeue of the run finds a standing packet in front. */
  ghost predicate StandsThroughout(law: (nat, nat) -> nat, l: Line, events: seq<Event>)
    decreases |events|
  {
    events == [] ||
    (&& (events[0].Leave? ==> Standing(l.q, events[0].clock(1)))
     && StandsThroughout(law, After(law, l, events[0]), events[1..]))
  }

  ghost predicate DroppedSince(log: seq<Taken>, n: nat) {
    exists k | n <= k < |log| :: log[k].dropped
  }

  lemma {:induction false} LogGrows(law: (nat, nat) -> nat, l: Line, events: seq<Event>)
    ensures l.log <= RunLine(law, l, events).log
    decreases |events|
  {
    hide Deque;
    if events != [] {
      LogGrows(law, After(law, l, events[0]), events[1..]);
    }
  }

  lemma DropStays(law: (nat, nat) -> nat, l: Line, events: seq<Event>, n: nat)
    requires DroppedSince(l.log, n)
    ensures DroppedSince(RunLine(law, l, events).log, n)
  {
    hide RunLine;
    LogGrows(law, l, events);
    var k :| n <= k < |l.log| && l.log[k].dropped;
    assert RunLine(law, l, events).log[k].dropped;
  }

  /** One dequeue outside the dropping state: a packet is dropped, or the state stays but for the time kept. */
  lemma LeaveDropsOrStays(law: (nat, nat) -> nat, l: Line, e: Event)
    requires !l.st.dropping && e.Leave?
    ensures var r := After(law, l, e);
      DroppedSince(r.log, |l.log|) || r.st == l.st.(firstAbove := AboveAfter(l.st, l.q, e.clock(1)))
    ensures Due(l.st, l.q, e.clock(1)) && Since(e.clock(0), l.st.firstAbove) >= INTERVAL ==>
      DroppedSince(After(law, l, e).log, |l.log|)
  {
    hide Deque, Since, TotalLength;
    StartsDroppingIff(e.clock, law, l.st, l.q);
    var d, r := Deque(e.clock, law, l.st, l.q), After(law, l, e);
    if Took(e.clock, l.q, 1, d) && |d.log| > 0 {
      assert r.log[|l.log|] == d.log[0];
    }
  }

  /** A queue that goes on standing, once that was noticed at some time, has dropped two intervals later. */
  lemma {:induction false} LateDequeDrops(law: (nat, nat) -> nat, l: Line, events: seq<Event>, j: nat, since: nat)
    requires TimelyRun(law, l, events) && StandsThroughout(law, l, events)
    requires !l.st.dropping && 0 < l.st.firstAbove <= since + INTERVAL
    requires j < |events| && events[j].Leave? && since + 2 * INTERVAL <= events[j].clock(0)
    ensures DroppedSince(RunLine(law, l, events).log, |l.log|)
    decreases |events|
  {
    hide Deque, TotalLength;
    var next := After(law, l, events[0]);
    if events[0].Leave? {
      LeaveDropsOrStays(law, l, events[0]);
      if j == 0 {
        assert events[0].clock(0) <= events[0].clock(1) && events[0].clock(0) <= events[0].clock(|l.q| + 2);
      }
    }
    if DroppedSince(next.log, |l.log|) {
      DropStays(law, next, events[1..], |l.log|);
    } else {
      LateDequeDrops(law, next, events[1..], j - 1, since);
      DroppedBefore(RunLine(law, next, events[1..]).log, |next.log|, |l.log|);
    }
  }

  lemma DroppedBefore(log: seq<Taken>, m: nat, n: nat)
    requires DroppedSince(log, m) && n <= m
    ensures DroppedSince(log, n)
  {
    var k :| m <= k < |log| && log[k].dropped;
  }

  /** CoDel does drop: over a run in which every dequeue finds the queue standing, from a line that is not dropping, a
      dequeue two intervals after another one leaves a dropped packet in the record. */
  lemma {:induction false} StandingQueueDrops(law: (nat, nat) -> nat, l: Line, events: seq<Event>, i: nat, j: nat)
    requires TimelyRun(law, l, events) && StandsThroughout(law, l, events)
    requires !l.st.dropping && l.st.firstAbove <= l.time + INTERVAL
    requires i < j < |events| && events[i].Leave? && events[j].Leave?
    requires events[i].clock(1) + 2 * INTERVAL <= events[j].clock(0)
    ensures DroppedSince(RunLine(law, l, events).log, |l.log|)
    decreases |events|
  {
    hide Deque, TotalLength;
    var e, next := events[0], After(law, l, events[0]);
    if e.Leave? {
      LeaveDropsOrStays(law, l, e);
      assert l.time <= e.clock(0) <= e.clock(1) <= e.clock(|l.q| + 2);
    }
    if DroppedSince(next.log, |l.log|) {
      DropStays(law, next, events[1..], |l.log|);
    } else if i == 0 {
      LateDequeDrops(law, next, events[1..], j - 1, e.clock(1));
      DroppedBefore(RunLine(law, next, events[1..]).log, |next.log|, |l.log|);
    } else {
      StandingQueueDrops(law, next, events[1..], i - 1, j - 1);
      DroppedBefore(RunLine(law, next, events[1..]).log, |next.log|, |l.log|);
    }
  }

  function Drops(log: seq<Taken>): nat {
    if log == [] then 0 else (if log[0].dropped then 1 else 0) + Drops(log[1..])
  }

  lemma EntryDrops(q: seq<Packet>, now: nat, dropped: bool, more: seq<Taken>)
    ensures Drops(Entry(q, now, dropped) + more) == (if q != [] && dropped then 1 else 0) + Drops(more)
  {
    var log := Entry(q, now, dropped) + more;
    assert q == [] ==> log == more;
    assert q != [] ==> log[1..] == more;
  }

  lemma NothingDropped(q: seq<Packet>, now: nat)
    ensures Drops(Entry(q, now, false)) == 0
  {
    EntryDrops(q, now, false, []);
    assert Entry(q, now, false) + [] == Entry(q, now, false);
  }

  // ---------------------------------------------------------------- in place

  class IngressQueue {
    var packets: seq<Packet>
    var totalLength: nat

    ghost predicate Valid()
      reads this
    {
      totalLength == TotalLength(packets)
    }

    constructor ()
      ensures Valid() && packets == []
    {
      packets, totalLength := [], 0;
    }

    method Enque(payload: seq<Byte>, now: nat)
      requires Valid()
      modifies this
      ensures Valid() && packets == old(packets) + [Packet(now, payload)]
    {
      TotalLengthPush(packets, Packet(now, payload));
      packets, totalLength := packets + [Packet(now, payload)], totalLength + |payload|;
    }

    method Deque() returns (p: Packet)
      requires Valid()
      modifies this
      ensures Valid()
      ensures if old(packets) == [] then p == NOTHING && packets == []
              else p == old(packets)[0] && packets == old(packets)[1..]
    {
      if packets == [] {
        return NOTHING;
      }
      p := packets[0];
      packets, totalLength := packets[1..], totalLength - |packets[0].contents|;
    }
  }

  class CodelController {
    var firstAbove: nat
    var dropNext: nat
    var count: nat
    var dropping: bool
    var dropCount: nat

    ghost function Value(): Codel
      reads this
    {
      Codel(firstAbove, dropNext, count, dropping)
    }

    constructor ()
      ensures Value() == InitialLine().st && dropCount == 0
    {
      firstAbove, dropNext, count, dropping, dropCount := 0, 0, 0, false, 0;
    }

    method DoDeque(q: IngressQueue, now: nat) returns (p: Packet, ok: bool)
      requires q.Valid()
      modifies this`firstAbove, q
      ensures q.Valid()
      ensures Pop(old(Value()), old(q.packets), now) == Popped(Value(), q.packets, p, ok)
    {
      p := q.Deque();
      ok := false;
      if |p.contents| == 0 {
        firstAbove := 0;
      } else {
        var sojourn := Since(now, p.tstamp);
        if sojourn < TARGET || q.totalLength < MAX_PACKET {
          firstAbove := 0;
        } else if firstAbove == 0 {
          firstAbove := now + INTERVAL;
        } else if now >= firstAbove {
          ok := true;
        }
      }
    }

    /** The drop loop ends because every round takes a packet. */
    method DropDue(q: IngressQueue, clock: nat -> nat, law: (nat, nat) -> nat, now: nat, first: Packet,
                   ghost taken: seq<Packet>)
      returns (p: Packet)
      requires q.Valid() && taken != [] && q.packets == taken[1..] && dropping
      modifies this, q
      ensures q.Valid()
      ensures var d := DropLoop(clock, law, now, taken, clock(1), Popped(old(Value()), old(q.packets), first, true), 2);
        && Value() == d.st && q.packets == d.q && p == d.p
        && dropCount == old(dropCount) + Drops(d.log)
    {
      hide Pop, DropLoop, Entry, Drops;
      ghost var d := DropLoop(clock, law, now, taken, clock(1), Popped(Value(), q.packets, first, true), 2);
      ghost var hand := taken;
      var ok := true;
      p := first;
      var i := 2;
      while now >= dropNext && dropping
        invariant q.Valid() && q.packets == (if hand == [] then [] else hand[1..]) && (dropping ==> hand != [])
        invariant 2 <= i
        invariant var e := DropLoop(clock, law, now, hand, clock(i - 1), Popped(Value(), q.packets, p, ok), i);
          && e.st == d.st && e.q == d.q && e.p == d.p
          && dropCount + Drops(e.log) == old(dropCount) + Drops(d.log)
        decreases |hand|, dropping
      {
        ghost var before := Popped(Value(), q.packets, p, ok);
        DropLoopUnfolds(clock, law, now, hand, clock(i - 1), before, i);
        ghost var rest := DropLoop(clock, law, now, q.packets, clock(i), Rescheduled(law, before, clock(i)), i + 1);
        EntryDrops(hand, clock(i - 1), true, rest.log);
        dropCount := dropCount + 1;
        count := count + 1;
        hand := q.packets;
        PopFromNothing(Value(), q.packets, clock(i));
        p, ok := DoDeque(q, clock(i));
        if !ok {
          dropping := false;
        } else {
          dropNext := law(dropNext, count);
        }
        assert Rescheduled(law, before, clock(i)) == Popped(Value(), q.packets, p, ok);
        i := i + 1;
      }
      DropLoopUnfolds(clock, law, now, hand, clock(i - 1), Popped(Value(), q.packets, p, ok), i);
      NothingDropped(hand, clock(i - 1));
    }

    /** One dequeue, reading the clock once for itself and once for every packet taken. */
    method DequePacket(q: IngressQueue, clock: nat -> nat, law: (nat, nat) -> nat) returns (p: Packet)
      requires q.Valid()
      modifies this, q
      ensures q.Valid()
      ensures var d := Deque(clock, law, old(Value()), old(q.packets));
        && Value() == d.st && q.packets == d.q && p == d.p
        && dropCount == old(dropCount) + Drops(d.log)
    {
      hide Pop, DropLoop, Entry, Since, Drops;
      ghost var st, taken := Value(), q.packets;
      var now := clock(0);
      PopFromNothing(st, taken, clock(1));
      NothingDropped(taken, clock(1));
      var ok;
      p, ok := DoDeque(q, clock(1));
      if |p.contents| == 0 {
        dropping := false;
        return;
      }
      if dropping {
        if !ok {
          dropping := false;
        } else {
          p := DropDue(q, clock, law, now, p, taken);
        }
      } else if ok && (Since(now, dropNext) < INTERVAL || Since(now, firstAbove) >= INTERVAL) {
        dropCount := dropCount + 1;
        PopFromNothing(Value(), q.packets, clock(2));
        EntryDrops(taken, clock(1), true, Entry(q.packets, clock(2), false));
        NothingDropped(q.packets, clock(2));
        p, ok := DoDeque(q, clock(2));
        dropping := true;
        if Since(now, dropNext) < INTERVAL {
          count := if count > 2 then count - 2 else 1;
        } else {
          count := 1;
        }
        dropNext := law(now, count);
      }
    }
  }

  lemma PopFromNothing(st: Codel, q: seq<Packet>, now: nat)
    ensures Pop(st, q, now).ok ==> q != []
    ensures Pop(st, q, now).q == if q == [] then [] else q[1..]
    ensures Pop(st, q, now).st.(firstAbove := 0) == st.(firstAbove := 0)
    ensures |Pop(st, q, now).p.contents| > 0 ==> q != []
  {
  }
}
