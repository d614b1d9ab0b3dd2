/**
 * Sprout's count of bytes received or lost: sequence numbers are byte offsets, every
 * packet says how far back the receiver may still wait for others
 * (alfalfa/src/network/network.cc, alfalfa/src/sprout/receiver.cc, alfalfa/src/network/sproutconn.cc).
 */
module SproutAccounting {
  import opened Bytes

  const REORDER_LIMIT: nat := 10
  const MAX_WINDOW: nat := 65535
  const OVERHEAD: nat := 50

  // ---------------------------------------------------------------- sender

  /** A sequence number and the time it was sent. */
  datatype Stamp = Stamp(num: nat, time: nat)

  /** Without the stamps more than the reorder limit before now. */
  function Trim(q: seq<Stamp>, now: int): seq<Stamp> {
    if q != [] && q[0].time < now - REORDER_LIMIT then Trim(q[1..], now) else q
  }

  function Capped(window: int): int {
    if window > MAX_WINDOW then MAX_WINDOW else window
  }

  predicate TimesSorted(q: seq<Stamp>) {
    forall i, j | 0 <= i <= j < |q| :: q[i].time <= q[j].time
  }

  class SendQueue {
    var sentPackets: seq<Stamp>

    constructor ()
      ensures sentPackets == []
    {
      sentPackets := [];
    }

    /** The stamp just pushed is never popped, so the assertion in the loop holds. Only old stamps go, and all of
        them up to the first recent one. */
    method Add(num: nat, now: nat) returns (window: int)
      requires REORDER_LIMIT <= now
      modifies this
      ensures sentPackets == Trim(old(sentPackets) + [Stamp(num, now)], now)
      ensures sentPackets != [] && sentPackets[|sentPackets| - 1] == Stamp(num, now)
      ensures sentPackets[0].time + REORDER_LIMIT >= now
      ensures var all := old(sentPackets) + [Stamp(num, now)];
              var gone := |all| - |sentPackets|;
              && 0 <= gone && sentPackets == all[gone..]
              && forall i | 0 <= i < gone :: all[i].time + REORDER_LIMIT < now
      ensures window == Capped(num - sentPackets[0].num)
    {
      sentPackets := sentPackets + [Stamp(num, now)];
      ghost var k := TrimDrops(sentPackets, now);
      while sentPackets[0].time < now - REORDER_LIMIT
        invariant sentPackets != [] && sentPackets[|sentPackets| - 1] == Stamp(num, now)
        invariant Trim(sentPackets, now) == Trim(old(sentPackets) + [Stamp(num, now)], now)
        decreases |sentPackets|
      {
        sentPackets := sentPackets[1..];
        assert sentPackets != [];
      }
      window := num - sentPackets[0].num;
      if window > MAX_WINDOW {
        window := MAX_WINDOW;
      }
    }
  }

  // ---------------------------------------------------------------- receiver

  datatype PacketLen = PacketLen(num: nat, len: nat)

  /** The bytes of the packets that start at or after a number. */
  function SumFrom(s: seq<PacketLen>, start: int): nat {
    if s == [] then 0 else SumFrom(s[..|s| - 1], start) + if s[|s| - 1].num >= start then s[|s| - 1].len else 0
  }

  lemma {:induction false} SumJoin(a: seq<PacketLen>, b: seq<PacketLen>, start: int)
    ensures SumFrom(a + b, start) == SumFrom(a, start) + SumFrom(b, start)
  {
    if b == [] {
      assert a + b == a;
    } else {
      assert (a + b)[..|a + b| - 1] == a + b[..|b| - 1];
      SumJoin(a, b[..|b| - 1], start);
    }
  }

  lemma SumOne(p: PacketLen, start: int)
    ensures SumFrom([p], start) == if p.num >= start then p.len else 0
  {
    assert [p][..0] == [];
    assert SumFrom([p][..0], start) == 0;
  }

  predicate NumsSorted(s: seq<PacketLen>) {
    forall i, j | 0 <= i <= j < |s| :: s[i].num <= s[j].num
  }

  function Max(a: int, b: int): int {
    if a < b then b else a
  }

  lemma SortedMeans(s: seq<PacketLen>)
    requires NumsSorted(s)
    ensures forall i, j | 0 <= i <= j < |s| :: s[i].num <= s[j].num
  {
  }

  lemma InsertedSum(a: seq<PacketLen>, b: seq<PacketLen>, p: PacketLen, all: seq<PacketLen>, start: int)
    requires SumFrom(a + b, start) == SumFrom(all, start)
    ensures SumFrom(a + [p] + b, start) == SumFrom(all + [p], start)
  {
    hide SumFrom;
    SumJoin(a + [p], b, start);
    SumJoin(a, [p], start);
    SumJoin(a, b, start);
    SumJoin(all, [p], start);
  }

  lemma InsertedSorted(a: seq<PacketLen>, b: seq<PacketLen>, p: PacketLen)
    requires NumsSorted(a + b)
    requires forall i | 0 <= i < |a| :: a[i].num <= p.num
    requires forall i | 0 <= i < |b| :: p.num <= b[i].num
    ensures NumsSorted(a + [p] + b)
  {
    var s, t := a + b, a + [p] + b;
    forall i, j | 0 <= i <= j < |t| ensures t[i].num <= t[j].num {
      var i1, j1 := if i <= |a| then i else i - 1, if j <= |a| then j else j - 1;
      if i != |a| && j != |a| {
        assert t[i] == s[i1] && t[j] == s[j1] && s[i1].num <= s[j1].num;
      }
    }
  }

  class RecvQueue {
    // The priority queue, smallest number first.
    var received: seq<PacketLen>
    var throwawayBefore: int

    ghost var all: seq<PacketLen>

    /** Whatever was popped counts as thrown away. */
    ghost predicate Valid()
      reads this
    {
      && NumsSorted(received)
      && (forall start | start >= throwawayBefore :: SumFrom(received, start) == SumFrom(all, start))
    }

    constructor ()
      ensures Valid() && all == [] && throwawayBefore == 0
    {
      received, throwawayBefore, all := [], 0, [];
    }

    method Recv(num: nat, window: int, len: nat)
      requires Valid()
      modifies this
      ensures Valid() && all == old(all) + [PacketLen(num, len)]
      ensures throwawayBefore == Max(old(throwawayBefore), num - window)
    {
      hide SumFrom, NumsSorted;
      var p := PacketLen(num, len);
      assert forall i, j | 0 <= i <= j < |received| :: received[i].num <= received[j].num by { SortedMeans(received); }
      var i := 0;
      while i < |received| && received[i].num <= num
        invariant 0 <= i <= |received|
        invariant forall k | 0 <= k < i :: received[k].num <= num
      {
        i := i + 1;
      }
      var a, b := received[..i], received[i..];
      assert received == a + b;
      forall start | start >= throwawayBefore
        ensures SumFrom(a + [p] + b, start) == SumFrom(all + [p], start)
      {
        InsertedSum(a, b, p, all, start);
      }
      InsertedSorted(a, b, p);
      received := a + [p] + b;
      all := all + [p];
      throwawayBefore := Max(throwawayBefore, num - window);
    }

    /** The count of bytes received or lost. */
    method PacketCount() returns (count: int)
      requires Valid()
      modifies this`received
      ensures Valid()
      ensures count == throwawayBefore + SumFrom(all, throwawayBefore)
    {
      while received != [] && received[0].num < throwawayBefore
        invariant Valid()
        decreases |received|
      {
        forall start | start >= throwawayBefore ensures SumFrom(received[1..], start) == SumFrom(received, start) {
          assert received == [received[0]] + received[1..];
          SumJoin([received[0]], received[1..], start);
          SumOne(received[0], start);
        }
        received := received[1..];
      }
      var copy := received;
      var sum := 0;
      while copy != []
        invariant Valid() && NumsSorted(copy) && forall i | 0 <= i < |copy| :: copy[i].num >= throwawayBefore
        invariant sum + SumFrom(copy, throwawayBefore) == SumFrom(received, throwawayBefore)
        decreases |copy|
      {
        assert copy == [copy[0]] + copy[1..];
        SumJoin([copy[0]], copy[1..], throwawayBefore);
        SumOne(copy[0], throwawayBefore);
        sum := sum + copy[0].len;
        copy := copy[1..];
      }
      count := throwawayBefore + sum;
    }
  }

  // ---------------------------------------------------------------- a lossy, reordering network

  /** A packet on its way: its number and length, when it was sent, and the window it carries. */
  datatype Sent = Sent(num: nat, len: nat, time: nat, window: int)

  /** The sender's next number and its recent stamps, all it sent, what arrived and what the receiver threw away. */
  datatype Link = Link(next: nat, queue: seq<Stamp>, log: seq<Sent>, arrived: set<int>, all: seq<PacketLen>,
    throwaway: int)

  datatype Event = Send(len: nat, now: nat) | Arrive(i: int)

  function InitialLink(): Link {
    Link(0, [], [], {}, [], 0)
  }

  function After(l: Link, e: Event): Link {
    match e
    case Send(len, now) =>
      var queue := Trim(l.queue + [Stamp(l.next, now)], now);
      var window := if queue == [] then 0 else Capped(l.next - queue[0].num);
      l.(next := l.next + len + OVERHEAD, queue := queue, log := l.log + [Sent(l.next, len, now, window)])
    case Arrive(i) =>
      if 0 <= i < |l.log| then
        var p := l.log[i];
        l.(arrived := l.arrived + {i}, all := l.all + [PacketLen(p.num, p.len)],
           throwaway := Max(l.throwaway, p.num - p.window))
      else l
  }

  /** Time does not run backwards, and no packet arrives twice. */
  predicate EventOk(l: Link, e: Event) {
    match e
    case Send(len, now) => REORDER_LIMIT <= now && (l.log != [] ==> l.log[|l.log| - 1].time <= now)
    case Arrive(i) => 0 <= i < |l.log| && i !in l.arrived
  }

  /** The count the receiver reports. */
  function Count(l: Link): int {
    l.throwaway + SumFrom(l.all, l.throwaway)
  }

  // ---------------------------------------------------------------- invariant

  /** Where packet n starts, or would start. */
  function EndAt(log: seq<Sent>, next: nat, n: nat): nat
    requires n <= |log|
  {
    if n < |log| then log[n].num else next
  }

  /** Numbers are byte offsets: each packet starts where the one before it, with its overhead, ends. */
  predicate Offsets(log: seq<Sent>, next: nat) {
    && (forall i | 0 <= i < |log| :: log[i].num + log[i].len + OVERHEAD == EndAt(log, next, i + 1))
    && EndAt(log, next, 0) == 0
  }

  predicate LogTimes(log: seq<Sent>) {
    forall i, j | 0 <= i <= j < |log| :: log[i].time <= log[j].time
  }

  /** The window of packet i reaches back to packet f, sent no more than the limit earlier; all before f were. */
  predicate Reaches(log: seq<Sent>, i: int, f: int)
    requires 0 <= f <= i < |log|
  {
    && log[i].window == Capped(log[i].num - log[f].num)
    && log[f].time + REORDER_LIMIT >= log[i].time
    && forall k | 0 <= k < f :: log[k].time + REORDER_LIMIT < log[i].time
  }

  ghost predicate WindowOk(log: seq<Sent>, i: int)
    requires 0 <= i < |log|
  {
    exists f | 0 <= f <= i :: Reaches(log, i, f)
  }

  function Stamps(log: seq<Sent>): seq<Stamp> {
    seq(|log|, i requires 0 <= i < |log| => Stamp(log[i].num, log[i].time))
  }

  /** The stamps kept are those of the latest packets, from the first sent within the limit of the last; the others
      were sent before that. */
  ghost predicate QueueOk(log: seq<Sent>, queue: seq<Stamp>) {
    && |queue| <= |log| && queue == Stamps(log[|log| - |queue|..])
    && (queue != [] ==> log[|log| - |queue|].time + REORDER_LIMIT >= log[|log| - 1].time)
    && forall k | 0 <= k < |log| - |queue| :: log[k].time + REORDER_LIMIT < log[|log| - 1].time
  }

  /** The bytes of the packets below n that arrived and start at or after a number. */
  function ArrivedFrom(log: seq<Sent>, arrived: set<int>, start: int, n: nat): nat
    requires n <= |log|
  {
    if n == 0 then 0 else
      ArrivedFrom(log, arrived, start, n - 1)
      + if n - 1 in arrived && log[n - 1].num >= start then log[n - 1].len else 0
  }

  /** The throwaway mark comes from a packet that arrived. */
  ghost predicate MarkOk(log: seq<Sent>, arrived: set<int>, throwaway: int) {
    && 0 <= throwaway
    && (throwaway == 0 || exists i | 0 <= i < |log| && i in arrived :: throwaway == log[i].num - log[i].window)
    && (forall i | i in arrived && 0 <= i < |log| :: log[i].num - log[i].window <= throwaway)
  }

  ghost predicate WindowsOk(log: seq<Sent>) {
    forall i | 0 <= i < |log| :: WindowOk(log, i)
  }

  ghost predicate SumsOk(log: seq<Sent>, arrived: set<int>, all: seq<PacketLen>) {
    forall start: int :: SumFrom(all, start) == ArrivedFrom(log, arrived, start, |log|)
  }

  ghost predicate LinkOk(l: Link) {
    && Offsets(l.log, l.next) && LogTimes(l.log)
    && QueueOk(l.log, l.queue)
    && WindowsOk(l.log)
    && (forall i | i in l.arrived :: 0 <= i < |l.log|)
    && SumsOk(l.log, l.arrived, l.all)
    && MarkOk(l.log, l.arrived, l.throwaway)
  }

  // ---------------------------------------------------------------- sending

  /** Trimming drops a prefix of old stamps and stops at a recent one. */
  lemma {:induction false} TrimDrops(q: seq<Stamp>, now: nat) returns (k: nat)
    requires q != [] && q[|q| - 1].time == now
    ensures k < |q| && Trim(q, now) == q[k..] && q[k].time + REORDER_LIMIT >= now
    ensures forall i | 0 <= i < k :: q[i].time + REORDER_LIMIT < now
  {
    if q[0].time < now - REORDER_LIMIT {
      var k1 := TrimDrops(q[1..], now);
      k := k1 + 1;
      forall i | 0 <= i < k ensures q[i].time + REORDER_LIMIT < now {
        if i > 0 {
          assert q[i] == q[1..][i - 1];
        }
      }
    } else {
      k := 0;
    }
  }

  lemma StampsSuffix(log: seq<Sent>, m: nat, k: nat)
    requires m + k <= |log|
    ensures Stamps(log[m..])[k..] == Stamps(log[m + k..])
  {
  }

  lemma StampsMore(log: seq<Sent>, p: Sent, m: nat)
    requires m <= |log|
    ensures Stamps((log + [p])[m..]) == Stamps(log[m..]) + [Stamp(p.num, p.time)]
  {
    assert (log + [p])[m..] == log[m..] + [p];
  }

  lemma StampsAt(log: seq<Sent>)
    ensures |Stamps(log)| == |log| && forall i | 0 <= i < |log| :: Stamps(log)[i] == Stamp(log[i].num, log[i].time)
  {
  }

  lemma QueueGrows(log: seq<Sent>, queue: seq<Stamp>, p: Sent)
    requires QueueOk(log, queue) && (log != [] ==> log[|log| - 1].time <= p.time)
    ensures var log1, queue1 := log + [p], Trim(queue + [Stamp(p.num, p.time)], p.time);
      && queue1 != [] && QueueOk(log1, queue1)
      && queue1[0].num == log1[|log1| - |queue1|].num
  {
    hide Trim, Stamps;
    var log1 := log + [p];
    var m := |log| - |queue|;
    var q := queue + [Stamp(p.num, p.time)];
    StampsMore(log, p, m);
    StampsAt(log1[m..]);
    var k := TrimDrops(q, p.time);
    StampsSuffix(log1, m, k);
    forall i | 0 <= i < m + k ensures log1[i].time + REORDER_LIMIT < p.time {
      if i >= m {
        assert q[i - m].time == log1[i].time;
      }
    }
  }

  lemma OffsetsGrow(log: seq<Sent>, next: nat, p: Sent)
    requires Offsets(log, next) && p.num == next
    ensures Offsets(log + [p], next + p.len + OVERHEAD)
  {
    var log1, next1 := log + [p], next + p.len + OVERHEAD;
    forall i | 0 <= i < |log1| ensures log1[i].num + log1[i].len + OVERHEAD == EndAt(log1, next1, i + 1) {
      if i < |log| {
        assert log[i].num + log[i].len + OVERHEAD == EndAt(log, next, i + 1);
      }
    }
  }

  lemma NewWindow(log: seq<Sent>, queue: seq<Stamp>, p: Sent)
    requires queue != [] && QueueOk(log + [p], queue) && queue[0].num == (log + [p])[|log| + 1 - |queue|].num
    requires p.window == Capped(p.num - queue[0].num)
    ensures WindowOk(log + [p], |log|)
  {
    var log1 := log + [p];
    assert Reaches(log1, |log|, |log1| - |queue|);
  }

  lemma OldWindow(log: seq<Sent>, p: Sent, i: int)
    requires 0 <= i < |log| && WindowOk(log, i)
    ensures WindowOk(log + [p], i)
  {
    var f :| 0 <= f <= i && Reaches(log, i, f);
    assert Reaches(log + [p], i, f);
  }

  lemma {:induction false} ArrivedFrame(log: seq<Sent>, p: Sent, arrived: set<int>, start: int, n: nat)
    requires n <= |log|
    ensures ArrivedFrom(log + [p], arrived, start, n) == ArrivedFrom(log, arrived, start, n)
  {
    if n != 0 {
      ArrivedFrame(log, p, arrived, start, n - 1);
    }
  }

  lemma WindowsGrow(log: seq<Sent>, p: Sent)
    requires WindowsOk(log) && WindowOk(log + [p], |log|)
    ensures WindowsOk(log + [p])
  {
    hide WindowOk;
    forall i | 0 <= i < |log + [p]| ensures WindowOk(log + [p], i) {
      if i < |log| {
        OldWindow(log, p, i);
      }
    }
  }

  lemma SumsGrow(log: seq<Sent>, p: Sent, arrived: set<int>, all: seq<PacketLen>)
    requires SumsOk(log, arrived, all) && |log| !in arrived
    ensures SumsOk(log + [p], arrived, all)
  {
    hide SumFrom, ArrivedFrom;
    forall start: int ensures SumFrom(all, start) == ArrivedFrom(log + [p], arrived, start, |log + [p]|) {
      ArrivedFrame(log, p, arrived, start, |log|);
      ArrivedNext(log + [p], arrived, start, |log + [p]|);
    }
  }

  lemma SendKeeps(l: Link, e: Event)
    requires LinkOk(l) && EventOk(l, e) && e.Send?
    ensures LinkOk(After(l, e))
  {
    hide Trim, SumsOk, WindowsOk, QueueOk, WindowOk, Offsets, MarkOk, LogTimes;
    var r := After(l, e);
    var p := r.log[|l.log|];
    QueueGrows(l.log, l.queue, p);
    OffsetsGrow(l.log, l.next, p);
    NewWindow(l.log, r.queue, p);
    WindowsGrow(l.log, p);
    SumsGrow(l.log, p, l.arrived, l.all);
    TimesGrow(l.log, p);
    MarkGrows(l.log, p, l.arrived, l.throwaway);
  }

  lemma TimesGrow(log: seq<Sent>, p: Sent)
    requires LogTimes(log) && (log != [] ==> log[|log| - 1].time <= p.time)
    ensures LogTimes(log + [p])
  {
  }

  lemma MarkGrows(log: seq<Sent>, p: Sent, arrived: set<int>, throwaway: int)
    requires MarkOk(log, arrived, throwaway) && forall i | i in arrived :: 0 <= i < |log|
    ensures MarkOk(log + [p], arrived, throwaway)
  {
    if throwaway != 0 {
      var i :| 0 <= i < |log| && i in arrived && throwaway == log[i].num - log[i].window;
      assert (log + [p])[i] == log[i];
    }
  }

  lemma ArrivedNext(log: seq<Sent>, arrived: set<int>, start: int, n: nat)
    requires 0 < n <= |log|
    ensures ArrivedFrom(log, arrived, start, n)
         == ArrivedFrom(log, arrived, start, n - 1)
          + if n - 1 in arrived && log[n - 1].num >= start then log[n - 1].len else 0
  {
  }

  // ---------------------------------------------------------------- arrival

  lemma {:induction false} ArrivedMore(log: seq<Sent>, arrived: set<int>, i: int, start: int, n: nat)
    requires n <= |log| && 0 <= i < |log| && i !in arrived
    ensures ArrivedFrom(log, arrived + {i}, start, n)
         == ArrivedFrom(log, arrived, start, n) + if i < n && log[i].num >= start then log[i].len else 0
  {
    if n != 0 {
      ArrivedMore(log, arrived, i, start, n - 1);
    }
  }

  lemma WindowBounds(log: seq<Sent>, next: nat, i: int)
    requires 0 <= i < |log| && WindowOk(log, i) && Offsets(log, next)
    ensures 0 <= log[i].num - log[i].window <= log[i].num
  {
    var f :| 0 <= f <= i && Reaches(log, i, f);
    NumsAscend(log, next, f, i);
  }

  lemma {:induction false} NumsAscend(log: seq<Sent>, next: nat, i: int, j: int)
    requires 0 <= i <= j < |log| && Offsets(log, next)
    ensures log[i].num <= log[j].num
    ensures i < j ==> log[i].num + log[i].len + OVERHEAD <= log[j].num
    decreases j - i
  {
    hide Offsets;
    if i < j {
      EndNext(log, next, i + 1);
      NumsAscend(log, next, i + 1, j);
    }
  }

  lemma ArriveKeeps(l: Link, e: Event)
    requires LinkOk(l) && EventOk(l, e) && e.Arrive?
    ensures LinkOk(After(l, e))
  {
    hide ArrivedFrom, SumFrom, QueueOk, WindowOk, Offsets, LogTimes;
    var r := After(l, e);
    var p := l.log[e.i];
    forall start: int ensures SumFrom(r.all, start) == ArrivedFrom(r.log, r.arrived, start, |r.log|) {
      ArrivedMore(l.log, l.arrived, e.i, start, |l.log|);
      SumJoin(l.all, [PacketLen(p.num, p.len)], start);
      SumOne(PacketLen(p.num, p.len), start);
    }
    WindowBounds(l.log, l.next, e.i);
    if r.throwaway != l.throwaway {
      assert r.throwaway == l.log[e.i].num - l.log[e.i].window;
    } else if l.throwaway != 0 {
      var i :| 0 <= i < |l.log| && i in l.arrived && l.throwaway == l.log[i].num - l.log[i].window;
      assert i in r.arrived;
    }
  }

  // ---------------------------------------------------------------- what the count promises

  lemma EndNext(log: seq<Sent>, next: nat, n: nat)
    requires 0 < n <= |log| && Offsets(log, next)
    ensures EndAt(log, next, n) == log[n - 1].num + log[n - 1].len + OVERHEAD
  {
  }

  /** Packets that start at or after a number and arrived fit between it and the end of what was sent. */
  lemma {:induction false} ArrivedFits(log: seq<Sent>, next: nat, arrived: set<int>, start: int, n: nat)
    requires n <= |log| && Offsets(log, next)
    ensures start + ArrivedFrom(log, arrived, start, n) <= Max(start, EndAt(log, next, n))
  {
    hide Offsets;
    if n != 0 {
      EndNext(log, next, n);
      ArrivedFits(log, next, arrived, start, n - 1);
    }
  }

  /** The count never exceeds what was sent, so the sender's queue estimate is never negative. */
  lemma CountWithinSent(l: Link)
    requires LinkOk(l)
    ensures 0 <= Count(l) <= l.next
  {
    hide ArrivedFrom, SumFrom, QueueOk, Offsets, LogTimes;
    ArrivedFits(l.log, l.next, l.arrived, l.throwaway, |l.log|);
    if l.throwaway != 0 {
      var i :| 0 <= i < |l.log| && i in l.arrived && l.throwaway == l.log[i].num - l.log[i].window;
      WindowBounds(l.log, l.next, i);
      NumBelowNext(l.log, l.next, i);
    }
  }

  lemma NumBelowNext(log: seq<Sent>, next: nat, i: int)
    requires 0 <= i < |log| && Offsets(log, next)
    ensures log[i].num <= next
  {
    NumsAscend(log, next, i, |log| - 1);
    EndNext(log, next, |log|);
  }

  /** The window of an arriving packet did not reach the largest value its field can hold. */
  predicate Unsaturated(l: Link, e: Event) {
    e.Arrive? && 0 <= e.i < |l.log| ==> l.log[e.i].window < MAX_WINDOW
  }

  /** What lies between two starts of packets is at most their distance. */
  lemma {:induction false} SkippedFits(log: seq<Sent>, next: nat, arrived: set<int>, start: int, f: int, n: nat)
    requires n <= |log| && Offsets(log, next) && 0 <= f < |log| && start <= log[f].num
    ensures ArrivedFrom(log, arrived, start, n)
         <= ArrivedFrom(log, arrived, log[f].num, n) + Max(0, Min(EndAt(log, next, n), log[f].num) - start)
  {
    hide Offsets;
    if n != 0 {
      EndNext(log, next, n);
      SkippedFits(log, next, arrived, start, f, n - 1);
      if log[n - 1].num < log[f].num {
        assert n - 1 < f by { BeforeByNumber(log, next, n - 1, f); }
        NumsAscend(log, next, n - 1, f);
      }
    }
  }

  lemma BeforeByNumber(log: seq<Sent>, next: nat, i: int, j: int)
    requires Offsets(log, next) && 0 <= i < |log| && 0 <= j < |log| && log[i].num < log[j].num
    ensures i < j
  {
    hide Offsets;
    if j <= i {
      NumsAscend(log, next, j, i);
    }
  }

  function Min(a: int, b: int): int {
    if a < b then a else b
  }

  /** The window of an unsaturated packet reaches back exactly to the start of a packet. */
  lemma MarkIsStart(log: seq<Sent>, i: int) returns (f: int)
    requires 0 <= i < |log| && WindowOk(log, i) && log[i].window < MAX_WINDOW
    ensures 0 <= f <= i && Reaches(log, i, f) && log[i].num - log[i].window == log[f].num
  {
    f :| 0 <= f <= i && Reaches(log, i, f);
  }

  /** While windows are not saturated, the count never decreases. */
  lemma CountNeverDecreases(l: Link, e: Event)
    requires LinkOk(l) && EventOk(l, e) && Unsaturated(l, e)
    ensures Count(l) <= Count(After(l, e))
  {
    hide ArrivedFrom, SumFrom, QueueOk, Offsets, LogTimes, Trim;
    if e.Arrive? {
      var r := After(l, e);
      var p := l.log[e.i];
      SumJoin(l.all, [PacketLen(p.num, p.len)], r.throwaway);
      if r.throwaway > l.throwaway {
        var f := MarkIsStart(l.log, e.i);
        SkippedFits(l.log, l.next, l.arrived, l.throwaway, f, |l.log|);
      }
    }
  }

  /** Whatever lies before an unsaturated mark was sent more than the limit before a packet that arrived. */
  lemma SkippedIsOld(l: Link, k: int)
    requires LinkOk(l) && 0 <= k < |l.log| && l.log[k].num < l.throwaway
    requires forall i | i in l.arrived :: 0 <= i < |l.log| && l.log[i].window < MAX_WINDOW
    ensures exists i | i in l.arrived && 0 <= i < |l.log| :: l.log[k].time + REORDER_LIMIT < l.log[i].time
  {
    hide ArrivedFrom, SumFrom, QueueOk, Offsets, LogTimes;
    var i :| 0 <= i < |l.log| && i in l.arrived && l.throwaway == l.log[i].num - l.log[i].window;
    var f := MarkIsStart(l.log, i);
    BeforeByNumber(l.log, l.next, k, f);
    assert l.log[k].time + REORDER_LIMIT < l.log[i].time;
  }

  predicate LaterArrived(l: Link, k: int)
    requires 0 <= k < |l.log|
  {
    exists i | i in l.arrived && 0 <= i < |l.log| :: l.log[k].time + REORDER_LIMIT < l.log[i].time
  }

  /** With unsaturated windows, a packet lies before the mark, and so counts as received or lost, if and only if some
      packet that arrived was sent more than the limit after it. */
  lemma SkippedIff(l: Link, k: int)
    requires LinkOk(l) && 0 <= k < |l.log|
    requires forall i | i in l.arrived :: 0 <= i < |l.log| && l.log[i].window < MAX_WINDOW
    ensures l.log[k].num < l.throwaway <==> LaterArrived(l, k)
  {
    hide ArrivedFrom, SumFrom, QueueOk, Offsets;
    if l.log[k].num < l.throwaway {
      SkippedIsOld(l, k);
    }
    if i :| i in l.arrived && 0 <= i < |l.log| && l.log[k].time + REORDER_LIMIT < l.log[i].time {
      assert WindowOk(l.log, i);
      var f := MarkIsStart(l.log, i);
      assert k < f;
      NumsAscend(l.log, l.next, k, f);
    }
  }

  // ---------------------------------------------------------------- whole runs

  /** The bytes of received packets with numbers from lo up to hi. */
  function SumBetween(s: seq<PacketLen>, lo: int, hi: int): nat {
    if s == [] then 0
    else SumBetween(s[..|s| - 1], lo, hi) + if lo <= s[|s| - 1].num < hi then s[|s| - 1].len else 0
  }

  lemma {:induction false} SumSplits(s: seq<PacketLen>, lo: int, hi: int)
    requires lo <= hi
    ensures SumFrom(s, lo) == SumBetween(s, lo, hi) + SumFrom(s, hi)
  {
    if s != [] {
      var rest := s[..|s| - 1];
      SumSplits(rest, lo, hi);
      assert s == rest + [s[|s| - 1]];
      SumJoin(rest, [s[|s| - 1]], lo);
      SumJoin(rest, [s[|s| - 1]], hi);
      SumOne(s[|s| - 1], lo);
      SumOne(s[|s| - 1], hi);
    }
  }

  /** Where the receiver will throw away up to, once a packet arrives. */
  function MarkOf(p: Sent): int {
    p.num - p.window
  }

  /** A packet thrown in: the count falls exactly when more is thrown away than is skipped or added. */
  lemma ThrowawayDrops(all: seq<PacketLen>, throwaway: int, p: Sent)
    requires MarkOf(p) <= p.num
    ensures var t := Max(throwaway, MarkOf(p));
      t + SumFrom(all + [PacketLen(p.num, p.len)], t) < throwaway + SumFrom(all, throwaway)
      <==> throwaway < MarkOf(p) && MarkOf(p) - throwaway + p.len < SumBetween(all, throwaway, MarkOf(p))
  {
    hide SumFrom, SumBetween;
    var t := Max(throwaway, MarkOf(p));
    SumJoin(all, [PacketLen(p.num, p.len)], t);
    SumOne(PacketLen(p.num, p.len), t);
    SumSplits(all, throwaway, t);
  }

  lemma MarkIsBelow(l: Link, i: int)
    requires LinkOk(l) && 0 <= i < |l.log|
    ensures MarkOf(l.log[i]) <= l.log[i].num && l.log[i].window <= MAX_WINDOW
  {
    hide MarkOk, QueueOk, SumFrom, ArrivedFrom;
    assert WindowOk(l.log, i);
    WindowBounds(l.log, l.next, i);
  }

  /** An arrival lowers the count exactly when the packets it makes the receiver throw away hold more bytes than
      the numbers skipped and the packet itself, which takes a saturated window. */
  lemma CountDropsIff(l: Link, i: int)
    requires LinkOk(l) && EventOk(l, Arrive(i))
    ensures 0 <= i < |l.log|
    ensures Count(After(l, Arrive(i))) < Count(l) <==>
      && l.throwaway < MarkOf(l.log[i])
      && MarkOf(l.log[i]) - l.throwaway + l.log[i].len < SumBetween(l.all, l.throwaway, MarkOf(l.log[i]))
    ensures Count(After(l, Arrive(i))) < Count(l) ==> l.log[i].window == MAX_WINDOW
  {
    hide LinkOk, SumFrom, SumBetween;
    MarkIsBelow(l, i);
    ThrowawayDrops(l.all, l.throwaway, l.log[i]);
    if l.log[i].window < MAX_WINDOW {
      CountNeverDecreases(l, Arrive(i));
    }
  }

  predicate RunOk(l: Link, events: seq<Event>)
    decreases |events|
  {
    events == [] || (EventOk(l, events[0]) && RunOk(After(l, events[0]), events[1..]))
  }

  function RunLink(l: Link, events: seq<Event>): Link
    decreases |events|
  {
    if events == [] then l else RunLink(After(l, events[0]), events[1..])
  }

  lemma InitiallyOk()
    ensures LinkOk(InitialLink())
  {
  }

  lemma EventKeeps(l: Link, e: Event)
    requires LinkOk(l) && EventOk(l, e)
    ensures LinkOk(After(l, e))
  {
    hide LinkOk, After;
    if e.Send? {
      SendKeeps(l, e);
    } else {
      ArriveKeeps(l, e);
    }
  }

  /** Over every run of losses and reorderings the count stays within what was sent. */
  lemma {:induction false} LinkAlwaysOk(l: Link, events: seq<Event>)
    requires LinkOk(l) && RunOk(l, events)
    ensures LinkOk(RunLink(l, events)) && 0 <= Count(RunLink(l, events)) <= RunLink(l, events).next
    decreases |events|
  {
    hide LinkOk, After, EventOk, Count;
    if events == [] {
      CountWithinSent(l);
    } else {
      EventKeeps(l, events[0]);
      LinkAlwaysOk(After(l, events[0]), events[1..]);
    }
  }

  predicate NeverSaturates(l: Link, events: seq<Event>)
    decreases |events|
  {
    events == [] || (Unsaturated(l, events[0]) && NeverSaturates(After(l, events[0]), events[1..]))
  }

  lemma {:induction false} CountIsMonotone(l: Link, events: seq<Event>)
    requires LinkOk(l) && RunOk(l, events) && NeverSaturates(l, events)
    ensures Count(l) <= Count(RunLink(l, events))
    decreases |events|
  {
    hide LinkOk, After, EventOk, Count, Unsaturated;
    if events != [] {
      EventKeeps(l, events[0]);
      CountNeverDecreases(l, events[0]);
      CountIsMonotone(After(l, events[0]), events[1..]);
    }
  }

  /** What the sender has sent since only grows, so a report from the past leaves a queue that is not negative. The
      estimate is a 32-bit integer: it is that queue, and the assertion holds, for less than 2^31 bytes, and the
      assertion holds exactly when the queue modulo 2^32 is below 2^31. */
  lemma QueueEstimate(l: Link, later: seq<Event>)
    requires LinkOk(l) && RunOk(l, later)
    ensures var queue := RunLink(l, later).next - Count(l);
      && 0 <= queue
      && (queue < 0x8000_0000 ==> Int32(queue) == queue)
      && (Int32(queue) >= 0 <==> queue % 0x1_0000_0000 < 0x8000_0000)
  {
    hide LinkOk, EventOk;
    NextGrows(l, later);
    CountWithinSent(l);
  }

  lemma {:induction false} NextGrows(l: Link, events: seq<Event>)
    ensures l.next <= RunLink(l, events).next
    decreases |events|
  {
    if events != [] {
      NextGrows(After(l, events[0]), events[1..]);
    }
  }

  // ---------------------------------------------------------------- two runs that go wrong

  const PAYLOAD: nat := 1440
  const STRIDE: nat := 1490

  function Sends(n: nat): seq<Event> {
    if n == 0 then [] else [Send(PAYLOAD, REORDER_LIMIT)] + Sends(n - 1)
  }

  /** The link after n payloads of the usual size sent in one millisecond. */
  function Burst(n: nat): Link {
    Link(STRIDE * n, seq(n, i requires 0 <= i => Stamp(STRIDE * i, REORDER_LIMIT)),
         seq(n, i requires 0 <= i => Sent(STRIDE * i, PAYLOAD, REORDER_LIMIT, Capped(STRIDE * i))), {}, [], 0)
  }

  lemma BurstGrows(n: nat)
    ensures EventOk(Burst(n), Send(PAYLOAD, REORDER_LIMIT))
    ensures After(Burst(n), Send(PAYLOAD, REORDER_LIMIT)) == Burst(n + 1)
  {
    var l := Burst(n);
    var queue := l.queue + [Stamp(l.next, REORDER_LIMIT)];
    assert Trim(queue, REORDER_LIMIT) == queue == Burst(n + 1).queue;
    assert After(l, Send(PAYLOAD, REORDER_LIMIT)).log == Burst(n + 1).log;
  }

  lemma {:induction false} BurstRuns(n: nat, m: nat, tail: seq<Event>)
    ensures RunLink(Burst(n), Sends(m) + tail) == RunLink(Burst(n + m), tail)
    ensures RunOk(Burst(n), Sends(m) + tail) == RunOk(Burst(n + m), tail)
    decreases m
  {
    hide Burst, After, EventOk;
    if m == 0 {
      assert Sends(m) + tail == tail;
    } else {
      BurstGrows(n);
      var events := Sends(m) + tail;
      assert events[0] == Send(PAYLOAD, REORDER_LIMIT) && events[1..] == Sends(m - 1) + tail;
      BurstRuns(n + 1, m - 1, tail);
    }
  }

  lemma BurstStarts()
    ensures Burst(0) == InitialLink()
  {
  }

  /** The first packet of 44 arrived, and one more, empty, was sent. */
  function Saturated(): Link {
    After(After(Burst(44), Send(0, REORDER_LIMIT)), Arrive(0))
  }

  lemma SaturatedLink()
    ensures EventOk(Burst(44), Send(0, REORDER_LIMIT))
    ensures EventOk(After(Burst(44), Send(0, REORDER_LIMIT)), Arrive(0))
    ensures Saturated().all == [PacketLen(0, PAYLOAD)] && Saturated().throwaway == 0
    ensures |Saturated().log| == 45 && Saturated().log[44] == Sent(65560, 0, REORDER_LIMIT, MAX_WINDOW)
    ensures Saturated().arrived == {0}
  {
    var l := Burst(44);
    var queue := l.queue + [Stamp(l.next, REORDER_LIMIT)];
    assert Trim(queue, REORDER_LIMIT) == queue && queue[0].num == 0;
  }

  /** A saturated window can make the count go back: 44 full payloads and an empty one are sent within the reorder
      limit, and only the first and the last arrive. The mark falls inside the first, which had been counted. */
  lemma SaturationCanDecrease() returns (events: seq<Event>)
    ensures events == Sends(44) + [Send(0, REORDER_LIMIT), Arrive(0)] && RunOk(InitialLink(), events)
    ensures var l := RunLink(InitialLink(), events);
      && EventOk(l, Arrive(44)) && l.log[44].window == MAX_WINDOW
      && Count(l) == 1440 && Count(After(l, Arrive(44))) == 25
  {
    hide Burst, Trim, LinkOk, RunLink, RunOk, Sends, After, EventOk, Saturated, Count;
    var tail := [Send(0, REORDER_LIMIT), Arrive(0)];
    events := Sends(44) + tail;
    BurstStarts();
    BurstRuns(0, 44, tail);
    SaturatedIs();
    SaturatedLink();
    RunOfTwo(Burst(44), tail[0], tail[1]);
    SaturatedCounts(Saturated());
  }

  lemma SaturatedIs()
    ensures Saturated() == After(After(Burst(44), Send(0, REORDER_LIMIT)), Arrive(0))
  {
  }

  lemma SaturatedCounts(l: Link)
    requires l.all == [PacketLen(0, PAYLOAD)] && l.throwaway == 0 && l.arrived == {0}
    requires |l.log| == 45 && l.log[44] == Sent(65560, 0, REORDER_LIMIT, MAX_WINDOW)
    ensures EventOk(l, Arrive(44)) && Count(l) == 1440 && Count(After(l, Arrive(44))) == 25
  {
    hide SumFrom;
    SumOne(PacketLen(0, PAYLOAD), 0);
    SumJoin([PacketLen(0, PAYLOAD)], [PacketLen(65560, 0)], 25);
    SumOne(PacketLen(0, PAYLOAD), 25);
    SumOne(PacketLen(65560, 0), 25);
  }

  lemma RunOfTwo(l: Link, a: Event, b: Event)
    ensures RunLink(l, [a, b]) == After(After(l, a), b)
    ensures RunOk(l, [a, b]) == (EventOk(l, a) && EventOk(After(l, a), b))
  {
    hide After, EventOk;
    assert [a, b][1..] == [b];
    assert RunLink(After(l, a), [b]) == RunLink(After(After(l, a), b), []);
    assert RunOk(After(After(l, a), b), []);
  }

  lemma BurstSent(n: nat) returns (events: seq<Event>)
    ensures RunOk(InitialLink(), events) && RunLink(InitialLink(), events).next == STRIDE * n
  {
    hide Sends, After, EventOk;
    events := Sends(n) + [];
    BurstStarts();
    BurstRuns(0, n, []);
  }

  lemma NothingCounted()
    ensures Count(InitialLink()) == 0
  {
  }

  /** With 2^31 bytes sent since the count was reported, the estimate is negative and the assertion fails. */
  lemma EstimateCanFail() returns (later: seq<Event>)
    ensures LinkOk(InitialLink()) && RunOk(InitialLink(), later)
    ensures Int32(RunLink(InitialLink(), later).next - Count(InitialLink())) < 0
  {
    hide RunOk, RunLink, LinkOk, Count, InitialLink;
    InitiallyOk();
    NothingCounted();
    later := BurstSent(1441266);
  }
}
