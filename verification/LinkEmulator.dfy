/**
 * The trace-driven link emulator (alfalfa/src/examples/cellsim.cc): packets wait for the
 * propagation delay, then for delivery opportunities of 1500 bytes each.
 */
module LinkEmulators {
  import opened Bytes

  const SERVICE_SIZE: nat := 1500

  datatype Delayed = Delayed(entry: nat, release: nat, contents: seq<Byte>)

  datatype Partial = Partial(earned: int, packet: Delayed)

  function Size(p: Delayed): nat {
    |p.contents|
  }

  function Sum(s: seq<Delayed>): nat {
    if s == [] then 0 else Sum(s[..|s| - 1]) + Size(s[|s| - 1])
  }

  lemma SumNext(s: seq<Delayed>, p: Delayed)
    ensures Sum(s + [p]) == Sum(s) + Size(p)
  {
    assert (s + [p])[..|s|] == s;
  }

  // ---------------------------------------------------------------- what every operation keeps

  function InLimbo(limbo: seq<Partial>): seq<Delayed> {
    if limbo == [] then [] else [limbo[0].packet]
  }

  /** The packets past their delay, in order. */
  function Pending(limbo: seq<Partial>, pdp: seq<Delayed>): seq<Delayed> {
    InLimbo(limbo) + pdp
  }

  function Earned(limbo: seq<Partial>): int {
    if limbo == [] then 0 else limbo[0].earned
  }

  /** At most one packet is in limbo, with part of its bytes earned. */
  predicate LimboOk(limbo: seq<Partial>) {
    |limbo| <= 1 && (limbo != [] ==> 0 < limbo[0].earned < Size(limbo[0].packet))
  }

  /** Nothing is lost or reordered. */
  predicate Conserved(written: seq<Delayed>, sent: seq<Delayed>, limbo: seq<Partial>, pdp: seq<Delayed>,
                      delay: seq<Delayed>) {
    written == sent + Pending(limbo, pdp) + delay
  }

  /** Every byte of every opportunity is delivered, earned by the packet in limbo, or wasted. */
  predicate Balanced(used: nat, sent: seq<Delayed>, limbo: seq<Partial>, wasted: nat) {
    SERVICE_SIZE * used == Sum(sent) + Earned(limbo) + wasted
  }

  predicate AllReleased(s: seq<Delayed>, time: nat) {
    forall i | 0 <= i < |s| :: s[i].release <= time
  }

  predicate NoneReleased(s: seq<Delayed>, time: nat) {
    forall i | 0 <= i < |s| :: s[i].release > time
  }

  predicate Sorted(s: seq<nat>) {
    forall i, j | 0 <= i <= j < |s| :: s[i] <= s[j]
  }

  function Releases(s: seq<Delayed>): seq<nat> {
    seq(|s|, i requires 0 <= i < |s| => s[i].release)
  }

  /** No packet is delivered before its release time. */
  predicate OnTime(sent: seq<Delayed>, times: seq<nat>) {
    |times| == |sent| && forall i | 0 <= i < |sent| :: sent[i].release <= times[i]
  }

  /** Bytes wasted at some time, and how many packets had been written and sent by then. */
  datatype Waste = Waste(time: nat, written: nat, sent: nat, amount: nat)

  /** Whatever had been written but not sent when bytes were wasted was not yet released. */
  predicate WasteOk(written: seq<Delayed>, waste: seq<Waste>) {
    forall k | 0 <= k < |waste| :: OneWasteOk(written, waste[k])
  }

  predicate OneWasteOk(written: seq<Delayed>, w: Waste) {
    w.sent <= w.written <= |written| && NoneReleased(written[w.sent..w.written], w.time)
  }

  function Wasted(waste: seq<Waste>): nat {
    if waste == [] then 0 else Wasted(waste[..|waste| - 1]) + waste[|waste| - 1].amount
  }

  lemma WastedNext(waste: seq<Waste>, w: Waste)
    ensures Wasted(waste + [w]) == Wasted(waste) + w.amount
  {
    assert (waste + [w])[..|waste|] == waste;
  }

  lemma WrittenMore(written: seq<Delayed>, waste: seq<Waste>, p: Delayed)
    requires WasteOk(written, waste)
    ensures WasteOk(written + [p], waste)
  {
    forall k | 0 <= k < |waste| ensures OneWasteOk(written + [p], waste[k]) {
      var w := waste[k];
      assert OneWasteOk(written, w);
      assert (written + [p])[w.sent..w.written] == written[w.sent..w.written];
    }
  }

  function Contents(s: seq<Delayed>): seq<seq<Byte>> {
    seq(|s|, i requires 0 <= i < |s| => s[i].contents)
  }

  /** The opportunities after a time. */
  function Later(schedule: seq<nat>, time: nat): (r: seq<nat>)
    ensures |r| <= |schedule|
    ensures r != [] ==> r[0] > time && r[0] in schedule
  {
    if schedule == [] || schedule[0] > time then schedule else Later(schedule[1..], time)
  }

  /** The packets whose delay is not over at a time. */
  function Unreleased(delay: seq<Delayed>, time: nat): (r: seq<Delayed>) {
    if delay == [] || delay[0].release > time then delay else Unreleased(delay[1..], time)
  }

  /** The assertion on the next opportunity, as seen at a time: it is less than 2^31 ms away, modulo 2^32. */
  predicate NextIsNear(schedule: seq<nat>, time: nat) {
    schedule == [] || (schedule[0] - time) % 0x1_0000_0000 < 0x8000_0000
  }

  /** The time to the next opportunity or release, whichever is first. */
  function Sooner(schedule: seq<nat>, delay: seq<Delayed>, time: nat): int {
    var s := if schedule == [] then INT_MAX else Int32(schedule[0] - time);
    var d := if delay == [] then INT_MAX else Max0(Int32(delay[0].release - time));
    if d < s then d else s
  }

  function Max0(x: int): int {
    if x < 0 then 0 else x
  }

  /** No opportunity and no release comes before m milliseconds have passed, and one does then, if any comes within
      2^31 milliseconds. */
  predicate IsLeastWait(schedule: seq<nat>, delay: seq<Delayed>, time: nat, m: int) {
    && m <= INT_MAX
    && (forall t | t in schedule :: m <= t - time)
    && (forall p | p in delay :: m <= p.release - time)
    && (|| m == INT_MAX
        || (exists t | t in schedule :: m == t - time)
        || (exists p | p in delay :: m == p.release - time))
  }

  /** A time of x, stored in 32 bits, is taken for one that is too soon, when the right one is m. */
  predicate TakenTooSoon(x: int, m: int) {
    INT_MAX < x && Max0(Int32(x)) < m
  }

  /** The wait is the least one, if and only if neither first time is taken for one that is too soon. */
  lemma SoonerIsLeastIff(schedule: seq<nat>, delay: seq<Delayed>, time: nat, m: int)
    requires Sorted(schedule) && Sorted(Releases(delay)) && NextIsNear(schedule, time)
    requires (schedule != [] ==> time < schedule[0]) && (delay != [] ==> time < delay[0].release)
    requires IsLeastWait(schedule, delay, time, m)
    ensures Sooner(schedule, delay, time) == m <==>
      && (schedule != [] ==> !TakenTooSoon(schedule[0] - time, m))
      && (delay != [] ==> !TakenTooSoon(delay[0].release - time, m))
  {
    LeastIsFirst(schedule, delay, time, m);
  }

  /** In order, the first of each is what matters. */
  lemma LeastIsFirst(schedule: seq<nat>, delay: seq<Delayed>, time: nat, m: int)
    requires Sorted(schedule) && Sorted(Releases(delay)) && IsLeastWait(schedule, delay, time, m)
    ensures schedule != [] ==> m <= schedule[0] - time
    ensures delay != [] ==> m <= delay[0].release - time
    ensures || m == INT_MAX
            || (schedule != [] && m == schedule[0] - time)
            || (delay != [] && m == delay[0].release - time)
  {
    if schedule != [] {
      assert schedule[0] in schedule;
    }
    if delay != [] {
      assert delay[0] in delay;
    }
    if t :| t in schedule && m == t - time {
      assert schedule[0] <= t;
    } else if p :| p in delay && m == p.release - time {
      var i :| 0 <= i < |delay| && delay[i] == p;
      assert Releases(delay)[0] <= Releases(delay)[i];
    }
  }

  // ---------------------------------------------------------------- what a number of bytes delivers

  /** Bytes played to packets that wait: the first n are delivered, the next has earned part of its size, and only when
      all are delivered is the rest wasted. */
  predicate Played(q: seq<Delayed>, bytes: int, n: int, earned: int, wasted: int) {
    && 0 <= n <= |q| && 0 <= earned && 0 <= wasted
    && bytes == Sum(q[..n]) + earned + wasted
    && (earned > 0 ==> n < |q| && earned < Size(q[n]))
    && (wasted > 0 ==> n == |q|)
  }

  lemma {:induction false} SumGrows(q: seq<Delayed>, m: nat, n: nat)
    requires m < n <= |q| && forall i | 0 <= i < |q| :: 0 < Size(q[i])
    ensures Sum(q[..m]) + Size(q[m]) <= Sum(q[..n])
    decreases n - m
  {
    assert q[..n] == q[..n - 1] + [q[n - 1]];
    SumNext(q[..n - 1], q[n - 1]);
    if m < n - 1 {
      SumGrows(q, m, n - 1);
    }
  }

  /** There is only one such outcome, when no packet is empty. */
  lemma PlayedOnce(q: seq<Delayed>, bytes: int, n: int, earned: int, wasted: int, n1: int, earned1: int, wasted1: int)
    requires Played(q, bytes, n, earned, wasted) && Played(q, bytes, n1, earned1, wasted1)
    requires forall i | 0 <= i < |q| :: 0 < Size(q[i])
    ensures n == n1 && earned == earned1 && wasted == wasted1
  {
    if n < n1 {
      SumGrows(q, n, n1);
    } else if n1 < n {
      SumGrows(q, n1, n);
    }
  }

  lemma {:induction false} SumJoin(a: seq<Delayed>, b: seq<Delayed>)
    ensures Sum(a + b) == Sum(a) + Sum(b)
  {
    if b == [] {
      assert a + b == a;
    } else {
      assert (a + b)[..|a + b| - 1] == a + b[..|b| - 1];
      SumJoin(a, b[..|b| - 1]);
    }
  }

  /** The first packets of a delay line, up to those not released. */
  lemma {:induction false} ReleasedFirst(delay: seq<Delayed>, time: nat) returns (k: nat)
    ensures k <= |delay| && Unreleased(delay, time) == delay[k..]
    ensures forall i | 0 <= i < k :: delay[i].release <= time
    ensures k < |delay| ==> delay[k].release > time
  {
    k := 0;
    if delay != [] && delay[0].release <= time {
      var k1 := ReleasedFirst(delay[1..], time);
      k := k1 + 1;
      assert forall i | 0 < i < k :: delay[i] == delay[1..][i - 1];
    }
  }

  /** The packets that can be delivered at a time: those past their delay, and those released by then. */
  function Available(limbo: seq<Partial>, pdp: seq<Delayed>, delay: seq<Delayed>, time: nat): (q: seq<Delayed>)
    requires |Unreleased(delay, time)| <= |delay|
  {
    Pending(limbo, pdp) + delay[..|delay| - |Unreleased(delay, time)|]
  }

  /** What a tick leaves, told by the balance before and after. */
  lemma TickPlays(sent0: seq<Delayed>, limbo0: seq<Partial>, pdp0: seq<Delayed>, delay0: seq<Delayed>, used0: nat,
                  wasted0: nat, sent: seq<Delayed>, limbo: seq<Partial>, pdp: seq<Delayed>, used: nat, wasted: nat,
                  time: nat, written: seq<Delayed>)
    requires Conserved(written, sent0, limbo0, pdp0, delay0) && Balanced(used0, sent0, limbo0, wasted0)
    requires Conserved(written, sent, limbo, pdp, Unreleased(delay0, time)) && Balanced(used, sent, limbo, wasted)
    requires LimboOk(limbo) && used0 <= used && wasted0 <= wasted && |sent0| <= |sent|
    requires wasted0 < wasted ==> limbo == [] && pdp == []
    ensures |Unreleased(delay0, time)| <= |delay0|
    ensures var q := Available(limbo0, pdp0, delay0, time);
      && |sent| - |sent0| <= |q| && sent == sent0 + q[..|sent| - |sent0|]
      && Played(q, Earned(limbo0) + SERVICE_SIZE * (used - used0), |sent| - |sent0|, Earned(limbo), wasted - wasted0)
  {
    hide Sum, Unreleased;
    var k := ReleasedFirst(delay0, time);
    var q := Available(limbo0, pdp0, delay0, time);
    var n := |sent| - |sent0|;
    SentFirst(sent0, q, sent, Pending(limbo, pdp), Unreleased(delay0, time), delay0, k, Pending(limbo0, pdp0));
    SumJoin(sent0, q[..n]);
    if limbo != [] {
      assert q[n] == q[n..][0] == limbo[0].packet;
    }
  }

  lemma SentFirst(sent0: seq<Delayed>, q: seq<Delayed>, sent: seq<Delayed>, pending: seq<Delayed>, rest: seq<Delayed>,
                  delay0: seq<Delayed>, k: nat, pending0: seq<Delayed>)
    requires k <= |delay0| && rest == delay0[k..] && q == pending0 + delay0[..k] && |sent0| <= |sent|
    requires sent0 + pending0 + delay0 == sent + pending + rest
    ensures |sent| - |sent0| <= |q| && sent == sent0 + q[..|sent| - |sent0|] && q[|sent| - |sent0|..] == pending
  {
    assert delay0 == delay0[..k] + rest;
    assert (sent0 + q) + rest == (sent + pending) + rest;
    assert sent0 + q == ((sent0 + q) + rest)[..|sent0 + q|];
    assert sent + pending == ((sent + pending) + rest)[..|sent + pending|];
    assert sent0 + q == sent + pending;
    assert sent == (sent0 + q)[..|sent|] == sent0 + q[..|sent| - |sent0|];
    assert pending == (sent0 + q)[|sent|..] == q[|sent| - |sent0|..];
  }

  class DelayQueue {
    var delay: seq<Delayed>
    var pdp: seq<Delayed>
    var limbo: seq<Partial>
    var schedule: seq<nat>
    var delivered: seq<seq<Byte>>
    const msDelay: nat

    // All that was written and sent, when it was sent, the opportunities used and the bytes wasted.
    ghost var written: seq<Delayed>
    ghost var sent: seq<Delayed>
    ghost var times: seq<nat>
    ghost var used: nat
    ghost var waste: seq<Waste>
    ghost var taken: nat
    ghost var now: nat

    /** What holds even between the steps of a tick. */
    ghost predicate Flowing()
      reads this
    {
      && LimboOk(limbo)
      && Conserved(written, sent, limbo, pdp, delay)
      && OnTime(sent, times)
      && WasteOk(written, waste)
      && AllReleased(Pending(limbo, pdp), now)
      && Sorted(Releases(delay)) && Sorted(schedule)
      && (forall i | 0 <= i < |delay| :: delay[i].release <= now + msDelay)
      && taken <= |sent| && delivered == Contents(sent[taken..])
    }

    ghost predicate Valid()
      reads this
    {
      Flowing() && Balanced(used, sent, limbo, Wasted(waste))
    }

    constructor (ms: nat, services: seq<nat>, start: nat)
      requires Sorted(services)
      ensures Valid() && written == [] && sent == [] && used == 0
      ensures now == start && schedule == services && msDelay == ms
    {
      delay, pdp, limbo, schedule, delivered, msDelay := [], [], [], services, [], ms;
      written, sent, times, used, waste, taken, now := [], [], [], 0, [], 0, start;
    }

    method Write(packet: seq<Byte>, time: nat)
      requires Valid() && now <= time
      modifies this`delay, this`written, this`now
      ensures Valid() && now == time
      ensures written == old(written) + [Delayed(time, time + msDelay, packet)]
    {
      var p := Delayed(time, time + msDelay, packet);
      WrittenMore(written, waste, p);
      WriteLast(written, sent, limbo, pdp, delay, p);
      delay := delay + [p];
      written := written + [p];
      now := time;
    }

    /** Move packets from the end of the delay to the queue. */
    method Release(time: nat)
      requires Valid() && now <= time
      modifies this`delay, this`pdp, this`now
      ensures Valid() && now == time && NoneReleased(delay, time)
      ensures delay == Unreleased(old(delay), time)
    {
      hide OnTime, WasteOk, Balanced, Contents, Conserved, AllReleased;
      assert AllReleased(Pending(limbo, pdp), time) by { ReleasedLater(Pending(limbo, pdp), now, time); }
      now := time;
      while delay != [] && delay[0].release <= time
        invariant Valid() && now == time
        invariant Unreleased(delay, time) == Unreleased(old(delay), time)
        decreases |delay|
      {
        MoveOne(written, sent, limbo, pdp, delay);
        ReleasesRest(delay);
        ReleasedMore(InLimbo(limbo), pdp, delay[0], time);
        pdp, delay := pdp + [delay[0]], delay[1..];
      }
      FirstBounds(delay, time);
    }

    /** While an opportunity is played out, the bytes not yet placed are still in hand. */
    ghost predicate Playing(bytes: int)
      reads this
    {
      Flowing() && 0 <= bytes && SERVICE_SIZE * used == Sum(sent) + Earned(limbo) + Wasted(waste) + bytes
    }

    method Deliver(p: Delayed)
      requires p.release <= now && OnTime(sent, times) && taken <= |sent| && delivered == Contents(sent[taken..])
      modifies this`delivered, this`sent, this`times
      ensures sent == old(sent) + [p] && OnTime(sent, times)
      ensures delivered == old(delivered) + [p.contents] && delivered == Contents(sent[taken..])
    {
      delivered := delivered + [p.contents];
      assert (sent + [p])[taken..] == sent[taken..] + [p];
      sent, times := sent + [p], times + [now];
    }

    /** The packet in limbo comes first. */
    method ServeLimbo(bytes: int) returns (left: int)
      requires Playing(bytes) && bytes == SERVICE_SIZE
      modifies this`limbo, this`delivered, this`sent, this`times
      ensures Playing(left) && (left > 0 ==> limbo == [])
      ensures old(limbo) == [] ==> left == bytes && limbo == []
      ensures |old(sent)| <= |sent|
    {
      hide WasteOk, Wasted, Sorted, Sum, Contents, OnTime;
      left := bytes;
      if limbo != [] {
        var size := Size(limbo[0].packet);
        if limbo[0].earned + left >= size {
          LimboDelivered(written, sent, limbo, pdp, delay, now);
          SumNext(sent, limbo[0].packet);
          Deliver(limbo[0].packet);
          left := left - (size - limbo[0].earned);
          assert left >= 0;
          limbo := limbo[1..];
          assert limbo == [];
        } else {
          limbo := [limbo[0].(earned := limbo[0].earned + left)];
          left := 0;
        }
      }
    }

    /** The rest of the opportunity goes to the packets that wait; a packet it cannot finish goes to limbo. */
    method ServeQueue(bytes: int)
      requires Playing(bytes) && (bytes > 0 ==> limbo == []) && NoneReleased(delay, now)
      modifies this`limbo, this`pdp, this`delivered, this`sent, this`times, this`waste
      ensures Valid() && |old(sent)| <= |sent| && Wasted(old(waste)) <= Wasted(waste)
      ensures waste != old(waste) ==> limbo == [] && pdp == []
      ensures old(limbo) == [] && old(pdp) == [] ==> limbo == [] && pdp == []
    {
      hide WasteOk, Wasted, Sorted, Sum, Contents, OnTime, AllReleased, Pending;
      var left := bytes;
      while left > 0
        invariant Playing(left) && (left > 0 ==> limbo == [])
        invariant |old(sent)| <= |sent| && Wasted(old(waste)) <= Wasted(waste)
        invariant waste == old(waste) || (left == 0 && limbo == [] && pdp == [])
        invariant old(limbo) == [] && old(pdp) == [] ==> limbo == [] && pdp == []
        decreases |pdp|, left
      {
        if pdp == [] {
          Underflow(left);
          left := 0;
        } else {
          var packet := pdp[0];
          QueueServed(written, sent, limbo, pdp, delay, now);
          if left >= Size(packet) {
            SumNext(sent, packet);
            Deliver(packet);
            pdp := pdp[1..];
            left := left - Size(packet);
          } else {
            QueueToLimbo(limbo, pdp, left);
            limbo, pdp := [Partial(left, packet)], pdp[1..];
            left := 0;
          }
        }
      }
    }

    method Underflow(bytes: int)
      requires Playing(bytes) && limbo == [] && pdp == [] && NoneReleased(delay, now)
      modifies this`waste
      ensures Playing(0) && Wasted(old(waste)) <= Wasted(waste)
    {
      hide Sum, Contents, OnTime, Sorted, AllReleased, Wasted, LimboOk;
      var w := Waste(now, |written|, |sent|, bytes);
      assert written[|sent|..|written|] == delay;
      WastedNext(waste, w);
      waste := waste + [w];
    }

    /** Everything due at the given time: the bytes of the opportunities used are played to the packets that can be
        delivered, in order. */
    method Tick(time: nat)
      requires Valid() && now <= time
      modifies this`delay, this`pdp, this`limbo, this`schedule, this`delivered, this`sent, this`times, this`used,
        this`waste, this`now
      ensures Valid() && now == time && NoneReleased(delay, time)
      ensures schedule == Later(old(schedule), time) && used == old(used) + |old(schedule)| - |schedule|
      ensures delay == Unreleased(old(delay), time)
      ensures taken == old(taken) && written == old(written) && |old(sent)| <= |sent|
      ensures |Unreleased(old(delay), time)| <= |old(delay)|
      ensures var q := old(Available(limbo, pdp, delay, time));
        && |sent| - |old(sent)| <= |q| && sent == old(sent) + q[..|sent| - |old(sent)|]
        && Played(q, Earned(old(limbo)) + SERVICE_SIZE * (used - old(used)), |sent| - |old(sent)|, Earned(limbo),
                  Wasted(waste) - Wasted(old(waste)))
    {
      hide Flowing, Wasted, Sum, Conserved, Later, Unreleased, NoneReleased, Played, Available, LimboOk, Balanced;
      ghost var k := ReleasedFirst(delay, time);
      assert Conserved(written, sent, limbo, pdp, delay) by { FlowsOn(); }
      Release(time);
      UseOpportunities(time);
      FlowsOn();
      TickPlays(old(sent), old(limbo), old(pdp), old(delay), old(used), Wasted(old(waste)), sent, limbo, pdp, used,
                Wasted(waste), time, written);
    }

    lemma FlowsOn()
      requires Flowing()
      ensures LimboOk(limbo) && Conserved(written, sent, limbo, pdp, delay)
    {
    }

    /** The opportunities up to the given time, one after the other. */
    method UseOpportunities(time: nat)
      requires Valid() && now == time && NoneReleased(delay, time)
      modifies this`pdp, this`limbo, this`schedule, this`delivered, this`sent, this`times, this`used, this`waste
      ensures Valid() && schedule == Later(old(schedule), time)
      ensures used == old(used) + |old(schedule)| - |schedule| && old(used) <= used
      ensures |old(sent)| <= |sent| && Wasted(old(waste)) <= Wasted(waste)
      ensures waste == old(waste) || (limbo == [] && pdp == [])
    {
      hide WasteOk, Wasted, Sum, Contents, OnTime, Conserved, AllReleased, Sorted, Later, NoneReleased, LimboOk;
      while schedule != [] && schedule[0] <= time
        invariant Valid() && now == time && NoneReleased(delay, time)
        invariant Later(schedule, time) == Later(old(schedule), time)
        invariant used == old(used) + |old(schedule)| - |schedule| && old(used) <= used
        invariant |old(sent)| <= |sent| && Wasted(old(waste)) <= Wasted(waste)
        invariant waste == old(waste) || (limbo == [] && pdp == [])
        decreases |schedule|
      {
        SortedRest(schedule);
        LaterNext(schedule, time);
        schedule := schedule[1..];
        used := used + 1;
        var left := ServeLimbo(SERVICE_SIZE);
        ServeQueue(left);
      }
      LaterNext(schedule, time);
    }

    method Read(time: nat) returns (packets: seq<seq<Byte>>)
      requires Valid() && now <= time
      modifies this
      ensures Valid() && now == time && written == old(written) && old(taken) <= taken == |sent|
      ensures packets == Contents(sent[old(taken)..])
    {
      hide WasteOk, Wasted, Sum, OnTime, Conserved, AllReleased, Sorted, NoneReleased, LimboOk, Played, Available;
      Tick(time);
      packets := delivered;
      delivered := [];
      taken := |sent|;
    }

    /**
     * How long to sleep. The clock is read once here and again by the tick; differences are
     * stored in 32-bit integers, so the assertion on the schedule holds exactly when the first
     * opportunity after the tick, taken modulo 2^32 milliseconds, is less than 2^31 away.
     */
    method WaitTime(time: nat, tickTime: nat) returns (wait: int, asserted: bool)
      requires Valid() && now <= time <= tickTime
      modifies this
      ensures Valid() && now == tickTime && written == old(written) && taken == old(taken)
      ensures schedule == Later(old(schedule), tickTime) && delay == Unreleased(old(delay), tickTime)
      ensures asserted <==> NextIsNear(Later(old(schedule), tickTime), time)
      ensures asserted ==> wait == Sooner(Later(old(schedule), tickTime), Unreleased(old(delay), tickTime), time)
      ensures asserted ==> 0 <= wait <= INT_MAX
    {
      hide WasteOk, Wasted, Sum, OnTime, Conserved, AllReleased, Sorted, NoneReleased, LimboOk, Flowing, Played,
           Available;
      var delayWait, scheduleWait := INT_MAX, INT_MAX;
      Tick(tickTime);
      if delay != [] {
        delayWait := Max0(Int32(delay[0].release - time));
      }
      if schedule != [] {
        scheduleWait := Int32(schedule[0] - time);
      }
      asserted := scheduleWait >= 0;
      wait := if delayWait < scheduleWait then delayWait else scheduleWait;
    }
  }

  lemma LaterNext(schedule: seq<nat>, time: nat)
    ensures if schedule == [] || schedule[0] > time then Later(schedule, time) == schedule
            else Later(schedule, time) == Later(schedule[1..], time)
  {
  }

  lemma FarIsNotNear(start: nat, gap: nat)
    requires 0x8000_0000 <= gap < 0x1_0000_0000
    ensures !NextIsNear(Later([start + gap], start), start)
  {
  }

  /** Opportunities less than 2^31 ms ahead never fail the assertion. */
  lemma NearSchedule(schedule: seq<nat>, time: nat, tickTime: nat)
    requires time <= tickTime && forall t | t in schedule :: t < time + 0x8000_0000
    ensures NextIsNear(Later(schedule, tickTime), time)
  {
  }

  /** A trace whose first line is from 2^31 up to 2^32 ms ahead fails the assertion on the first call. */
  method FarOpportunity(ms: nat, start: nat, gap: nat) returns (wait: int, asserted: bool)
    requires 0x8000_0000 <= gap < 0x1_0000_0000
    ensures !asserted
  {
    hide NextIsNear, Later, Unreleased, Sooner, DelayQueue.Valid;
    FarIsNotNear(start, gap);
    assert Sorted([start + gap]);
    var q := new DelayQueue(ms, [start + gap], start);
    wait, asserted := q.WaitTime(start, start);
  }

  /** The first pending packet is delivered. */
  lemma FirstDelivered(written: seq<Delayed>, sent: seq<Delayed>, pending: seq<Delayed>, delay: seq<Delayed>, now: nat)
    requires pending != [] && written == sent + pending + delay && AllReleased(pending, now)
    ensures pending[0].release <= now && AllReleased(pending[1..], now)
    ensures written == (sent + [pending[0]]) + pending[1..] + delay
  {
  }

  lemma LimboDelivered(written: seq<Delayed>, sent: seq<Delayed>, limbo: seq<Partial>, pdp: seq<Delayed>,
                       delay: seq<Delayed>, now: nat)
    requires |limbo| == 1 && Conserved(written, sent, limbo, pdp, delay) && AllReleased(Pending(limbo, pdp), now)
    ensures Conserved(written, sent + [limbo[0].packet], [], pdp, delay)
    ensures limbo[0].packet.release <= now && AllReleased(Pending([], pdp), now)
  {
    hide AllReleased;
    FirstDelivered(written, sent, Pending(limbo, pdp), delay, now);
    assert Pending(limbo, pdp)[1..] == Pending([], pdp);
  }

  lemma QueueServed(written: seq<Delayed>, sent: seq<Delayed>, limbo: seq<Partial>, pdp: seq<Delayed>,
                    delay: seq<Delayed>, now: nat)
    requires limbo == [] && pdp != [] && Conserved(written, sent, limbo, pdp, delay)
    requires AllReleased(Pending(limbo, pdp), now)
    ensures pdp[0].release <= now
    ensures Conserved(written, sent + [pdp[0]], [], pdp[1..], delay) && AllReleased(Pending([], pdp[1..]), now)
  {
    hide AllReleased;
    FirstDelivered(written, sent, Pending(limbo, pdp), delay, now);
    assert Pending(limbo, pdp) == pdp && Pending([], pdp[1..]) == pdp[1..];
  }

  lemma QueueToLimbo(limbo: seq<Partial>, pdp: seq<Delayed>, bytes: int)
    requires limbo == [] && pdp != []
    ensures Pending([Partial(bytes, pdp[0])], pdp[1..]) == Pending(limbo, pdp)
  {
  }

  lemma SortedRest(s: seq<nat>)
    requires Sorted(s) && s != []
    ensures Sorted(s[1..])
  {
  }

  lemma WriteLast(written: seq<Delayed>, sent: seq<Delayed>, limbo: seq<Partial>, pdp: seq<Delayed>,
                  delay: seq<Delayed>, p: Delayed)
    requires Conserved(written, sent, limbo, pdp, delay) && Sorted(Releases(delay))
    requires forall i | 0 <= i < |delay| :: delay[i].release <= p.release
    ensures Conserved(written + [p], sent, limbo, pdp, delay + [p]) && Sorted(Releases(delay + [p]))
  {
    var r := Releases(delay + [p]);
    forall i, j | 0 <= i <= j < |r| ensures r[i] <= r[j] {
      if j < |delay| {
        assert Releases(delay)[i] <= Releases(delay)[j];
      }
    }
  }

  lemma ReleasedLater(s: seq<Delayed>, a: nat, b: nat)
    requires AllReleased(s, a) && a <= b
    ensures AllReleased(s, b)
  {
  }

  lemma ReleasedMore(a: seq<Delayed>, b: seq<Delayed>, p: Delayed, time: nat)
    requires AllReleased(a + b, time) && p.release <= time
    ensures AllReleased(a + (b + [p]), time)
  {
    assert a + (b + [p]) == (a + b) + [p];
  }

  lemma FirstBounds(delay: seq<Delayed>, time: nat)
    requires Sorted(Releases(delay)) && (delay != [] ==> delay[0].release > time)
    ensures NoneReleased(delay, time)
  {
    forall i | 0 <= i < |delay| ensures delay[i].release > time {
      assert Releases(delay)[0] <= Releases(delay)[i];
    }
  }

  lemma MoveOne(written: seq<Delayed>, sent: seq<Delayed>, limbo: seq<Partial>, pdp: seq<Delayed>, delay: seq<Delayed>)
    requires Conserved(written, sent, limbo, pdp, delay) && delay != []
    ensures Conserved(written, sent, limbo, pdp + [delay[0]], delay[1..])
  {
    assert pdp + delay == (pdp + [delay[0]]) + delay[1..];
  }

  lemma ReleasesRest(delay: seq<Delayed>)
    requires delay != [] && Sorted(Releases(delay))
    ensures Sorted(Releases(delay[1..]))
  {
    assert forall i | 0 <= i < |delay| - 1 :: Releases(delay[1..])[i] == Releases(delay)[i + 1];
  }
}
