/** The state synchronisation protocol over a network of packets (network/networktransport.cc, transportsender.cc,
    transportfragment.cc): an instruction is serialised, cut into fragments and encoded; what the network carries,
    loses, duplicates and reorders are single packets; and a party acts on an instruction once the last of its
    fragments is there. How an instruction is serialised is a parameter. */
module SspPackets {
  import opened Outcomes
  import opened Bytes
  import opened TransportSenders
  import opened Transports
  import opened SspProtocol
  import opened SspTheorems
  import Fragments

  type Packet = seq<Byte>

  datatype Codec = Codec(encode: Instruction -> Packet, decode: Packet -> Option<Instruction>)

  /** Nothing is serialised as the empty string, and parsing undoes serialising. */
  ghost predicate CodecOk(c: Codec) {
    forall i :: c.encode(i) != [] && c.decode(c.encode(i)) == Some(i)
  }

  /** One direction: the sender's counter, all packets ever sent, and the fragments the receiver has. The last field
      records what was cut, for the proofs. */
  datatype Channel = Channel(nextId: nat, packets: set<Packet>, assembly: Fragments.Assembly, sent: Fragments.Sent)

  datatype Network = Network(sys: System, ab: Channel, ba: Channel)

  const EMPTY_CHANNEL := Channel(0, {}, Fragments.EMPTY_ASSEMBLY, map[])

  datatype PacketAction =
    | Own(action: Action)
    | Send(env: Env, mtu: int)
    | Arrive(packet: Packet, at: nat)

  datatype PacketEvent = PacketEvent(byA: bool, action: PacketAction)

  function SwapParties(n: Network): Network {
    Network(Swap(n.sys), n.ba, n.ab)
  }

  // ---- steps of party a ----

  function Packets(fs: seq<Fragments.Fragment>): set<Packet>
    requires Fragments.AllFit(fs)
  {
    set i | 0 <= i < |fs| :: Fragments.ToWire(fs[i]).value
  }

  function Posted(ch: Channel, fs: seq<Fragments.Fragment>): Channel
    requires Fragments.AllFit(fs)
  {
    ch.(nextId := ch.nextId + 1, packets := ch.packets + Packets(fs), sent := ch.sent[ch.nextId + 1 := fs])
  }

  /** `send_in_fragments`: a number that does not fit the wire fails an assertion. */
  function Post(c: Codec, ch: Channel, inst: Instruction, mtu: int): Outcome<Channel> {
    if mtu <= Fragments.HEADER_LEN then AssertFailed else
      var fs := Fragments.Cut(c.encode(inst), ch.nextId + 1, mtu - Fragments.HEADER_LEN, 0);
      if Fragments.AllFit(fs) then Ok(Posted(ch, fs)) else AssertFailed
  }

  /** The instruction that a tick sends, if any. */
  function Sends(s: SenderState, e: Env): Option<Instruction>
    requires s.sent != []
  {
    match Tick(s, e) case Ok((_, sent)) => sent case AssertFailed => None
  }

  /** The first half of `recv`: one packet is decoded and its fragment added. */
  function Take(c: Codec, ch: Channel, packet: Packet): Outcome<(Channel, Option<Instruction>)> {
    var f :- Fragments.FromWire(packet);
    var (a, done) :- Fragments.Receive(ch.assembly, f);
    match done
    case None => Ok((ch.(assembly := a), None))
    case Some(payload) =>
      var inst := c.decode(payload);
      if inst.None? then AssertFailed else Ok((ch.(assembly := a), inst))
  }

  function ActOnPackets(c: Codec, n: Network, action: PacketAction): Outcome<Network> {
    match action
    case Own(a) =>
      var sys :- Act(n.sys, a);
      Ok(n.(sys := sys))
    case Send(env, mtu) =>
      var sys :- Act(n.sys, TickAction(env));
      if n.sys.a.sender.sent == [] then AssertFailed else
        var sent := Sends(n.sys.a.sender, env);
        if sent.None? then Ok(n.(sys := sys)) else
          var ab :- Post(c, n.ab, sent.value, mtu);
          Ok(n.(sys := sys, ab := ab))
    case Arrive(packet, at) =>
      var (ba, inst) :- Take(c, n.ba, packet);
      if inst.None? then Ok(n.(ba := ba)) else
        var sys :- Act(n.sys, Deliver(inst.value, at));
        Ok(n.(sys := sys, ba := ba))
  }

  function StepOnPackets(c: Codec, n: Network, ev: PacketEvent): Outcome<Network> {
    if ev.byA then ActOnPackets(c, n, ev.action)
    else
      var next :- ActOnPackets(c, SwapParties(n), ev.action);
      Ok(SwapParties(next))
  }

  function RunOnPackets(c: Codec, n: Network, events: seq<PacketEvent>): Outcome<Network>
    decreases |events|
  {
    if events == [] then Ok(n)
    else
      var next :- StepOnPackets(c, n, events[0]);
      RunOnPackets(c, next, events[1..])
  }

  // ---- what a run may do ----

  /** The payload is at most 32768 full fragments. */
  predicate FitsWire(c: Codec, inst: Option<Instruction>, mtu: int) {
    inst.Some? ==> |c.encode(inst.value)| <= Fragments.MAX_FRAGMENTS * (mtu - Fragments.HEADER_LEN)
  }

  /** As for whole instructions, but what arrives is any packet ever sent, and what is sent fits the wire. */
  predicate PacketAllowed(c: Codec, n: Network, action: PacketAction) {
    match action
    case Own(a) => !a.TickAction? && !a.Deliver? && Allowed(n.sys, a)
    case Send(env, mtu) =>
      && Allowed(n.sys, TickAction(env)) && mtu > Fragments.HEADER_LEN && n.ab.nextId + 1 < Fragments.MAX_ID
      && FitsWire(c, Sends(n.sys.a.sender, env), mtu)
    case Arrive(packet, at) => packet in n.ba.packets && n.sys.clockA <= at
  }

  predicate PacketRun(c: Codec, n: Network, events: seq<PacketEvent>)
    decreases |events|
  {
    events == [] ||
    var ev := events[0];
    && PacketAllowed(c, if ev.byA then n else SwapParties(n), ev.action)
    && match StepOnPackets(c, n, ev)
       case AssertFailed => true
       case Ok(next) => PacketRun(c, next, events[1..])
  }

  // ---- the invariant of a channel ----

  predicate PacketOk(p: Packet, sent: Fragments.Sent) {
    var f := Fragments.FromWire(p);
    f.Ok? && Fragments.Genuine(f.value, sent)
  }

  ghost predicate Carried(c: Codec, payload: Packet, out: set<Instruction>) {
    exists i :: i in out && c.encode(i) == payload
  }

  /** All fragments are on the network, in a form that decodes to them. */
  predicate Available(fs: seq<Fragments.Fragment>, packets: set<Packet>) {
    forall i | 0 <= i < |fs| :: var p := Fragments.ToWire(fs[i]);
      p.Ok? && p.value in packets && Fragments.FromWire(p.value) == Ok(fs[i])
  }

  lemma AvailableMore(fs: seq<Fragments.Fragment>, packets: set<Packet>, more: set<Packet>)
    requires Available(fs, packets) && packets <= more
    ensures Available(fs, more)
  {
    hide Fragments.ToWire, Fragments.FromWire;
  }

  /** Every packet is a fragment of an instruction that was sent, and the assembly holds such fragments. */
  ghost predicate ChannelOk(c: Codec, ch: Channel, out: set<Instruction>) {
    && Fragments.WellSent(ch.sent)
    && (forall id | id in ch.sent :: id <= ch.nextId && Carried(c, Fragments.Concat(ch.sent[id]), out))
    && (forall p | p in ch.packets :: PacketOk(p, ch.sent))
    && (forall id | id in ch.sent :: Available(ch.sent[id], ch.packets))
    && Fragments.Agrees(ch.assembly, Ideally(ch.assembly), ch.sent)
  }

  function Ideally(a: Fragments.Assembly): Fragments.Ideal {
    Fragments.Ideal(a.currentId, Fragments.Have(a))
  }

  ghost predicate PacketInv(c: Codec, n: Network) {
    Inv(n.sys) && ChannelOk(c, n.ab, n.sys.ab) && ChannelOk(c, n.ba, n.sys.ba)
  }

  // ---- sending ----

  lemma SentMore(sent: Fragments.Sent, id: nat, fs: seq<Fragments.Fragment>, payload: Packet)
    requires Fragments.WellSent(sent) && id !in sent && fs != [] && Fragments.Splits(fs, id, payload)
    ensures Fragments.WellSent(sent[id := fs])
    ensures forall f | Fragments.Genuine(f, sent) :: Fragments.Genuine(f, sent[id := fs])
    ensures forall i | 0 <= i < |fs| :: Fragments.Genuine(fs[i], sent[id := fs])
  {
  }

  lemma AgreesMore(a: Fragments.Assembly, sent: Fragments.Sent, id: nat, fs: seq<Fragments.Fragment>)
    requires Fragments.Agrees(a, Ideally(a), sent) && id !in sent
    ensures Fragments.Agrees(a, Ideally(a), sent[id := fs])
  {
    if a.currentId == id {
      assert Fragments.Have(Fragments.EMPTY_ASSEMBLY) == {};
    }
  }

  lemma CarriedMore(c: Codec, payload: Packet, out: set<Instruction>, inst: Instruction)
    ensures Carried(c, payload, out) ==> Carried(c, payload, out + {inst})
    ensures Carried(c, c.encode(inst), out + {inst})
  {
    assert inst in out + {inst};
  }

  /** Every packet of a split that fits the wire decodes to a fragment of it. */
  lemma PacketsDecode(fs: seq<Fragments.Fragment>, id: nat, payload: Packet, sent: Fragments.Sent)
    requires Fragments.AllFit(fs) && Fragments.Splits(fs, id, payload) && id < Fragments.MAX_ID
    requires forall i | 0 <= i < |fs| :: Fragments.Genuine(fs[i], sent)
    ensures forall p | p in Packets(fs) :: PacketOk(p, sent)
    ensures Available(fs, Packets(fs))
  {
    hide Fragments.ToWire, Fragments.FromWire, Fragments.Genuine;
    forall i | 0 <= i < |fs|
      ensures Fragments.FromWire(Fragments.ToWire(fs[i]).value) == Ok(fs[i])
    {
      FitsOne(fs, i);
      Fragments.WireRoundTrip(fs[i]);
    }
  }

  lemma FitsOne(fs: seq<Fragments.Fragment>, i: nat)
    requires Fragments.AllFit(fs) && i < |fs|
    ensures fs[i].initialized && fs[i].num < Fragments.MAX_FRAGMENTS
  {
    assert Fragments.ToWire(fs[i]).Ok?;
  }

  /** An instruction can be sent exactly if it fits the wire. */
  lemma PostIff(c: Codec, ch: Channel, inst: Instruction, mtu: int) returns (fs: seq<Fragments.Fragment>)
    requires CodecOk(c) && mtu > Fragments.HEADER_LEN
    ensures fs == Fragments.Cut(c.encode(inst), ch.nextId + 1, mtu - Fragments.HEADER_LEN, 0) && fs != []
    ensures Fragments.AllFit(fs) <==> FitsWire(c, Some(inst), mtu)
    ensures Post(c, ch, inst, mtu) == if Fragments.AllFit(fs) then Ok(Posted(ch, fs)) else AssertFailed
    ensures Fragments.AllFit(fs) ==> Fragments.Splits(fs, ch.nextId + 1, c.encode(inst))
  {
    hide Fragments.AllFit, Fragments.Splits, Fragments.Cut, Fragments.Chunked, Fragments.Sized, Fragments.Concat;
    var payload, id, chunk := c.encode(inst), ch.nextId + 1, mtu - Fragments.HEADER_LEN;
    fs := Fragments.Cut(payload, id, chunk, 0);
    Fragments.CutChunked(payload, id, chunk);
    Fragments.AllFitIff(fs, id, |payload|, chunk);
    Fragments.SplitsIff(fs, id, payload, chunk);
    Fragments.Times(Fragments.MAX_FRAGMENTS, 0x1_0000, chunk);
  }

  lemma PostKeeps(c: Codec, ch: Channel, out: set<Instruction>, inst: Instruction, mtu: int) returns (ch1: Channel)
    requires CodecOk(c) && ChannelOk(c, ch, out) && mtu > Fragments.HEADER_LEN && ch.nextId + 1 < Fragments.MAX_ID
    requires FitsWire(c, Some(inst), mtu)
    ensures Post(c, ch, inst, mtu) == Ok(ch1) && ChannelOk(c, ch1, out + {inst})
  {
    hide Fragments.AllFit, Fragments.Splits, Fragments.Cut, Fragments.WellSent, Fragments.Agrees, Fragments.Genuine,
      FitsWire, Fragments.Concat, CodecOk, Post, Carried, Fragments.Have, Available;
    var fs := PostIff(c, ch, inst, mtu);
    var id, payload := ch.nextId + 1, c.encode(inst);
    ch1 := Posted(ch, fs);
    SentMore(ch.sent, id, fs, payload);
    AgreesMore(ch.assembly, ch.sent, id, fs);
    PacketsDecode(fs, id, payload, ch1.sent);
    SplitIsPayload(fs, id, payload);
    forall k | k in ch1.sent
      ensures k <= ch1.nextId && Carried(c, Fragments.Concat(ch1.sent[k]), out + {inst})
    {
      CarriedMore(c, Fragments.Concat(ch1.sent[k]), out, inst);
    }
    forall k | k in ch1.sent
      ensures Available(ch1.sent[k], ch1.packets)
    {
      AvailableMore(ch1.sent[k], if k == id then Packets(fs) else ch.packets, ch1.packets);
    }
  }

  lemma SplitIsPayload(fs: seq<Fragments.Fragment>, id: nat, payload: Packet)
    requires Fragments.Splits(fs, id, payload)
    ensures Fragments.Concat(fs) == payload
  {
  }

  // ---- receiving ----

  /** Any packet that was ever sent: no assertion fails, and what it completes is an instruction that was sent. */
  lemma TakeKeeps(c: Codec, ch: Channel, out: set<Instruction>, packet: Packet)
    returns (ch1: Channel, inst: Option<Instruction>)
    requires CodecOk(c) && ChannelOk(c, ch, out) && packet in ch.packets
    ensures Take(c, ch, packet) == Ok((ch1, inst)) && ChannelOk(c, ch1, out)
    ensures inst.Some? ==> inst.value in out
  {
    hide Fragments.WellSent, Fragments.Agrees, Fragments.Genuine, Fragments.FromWire, Fragments.Receive,
      Fragments.IdealStep, Fragments.Concat;
    assert PacketOk(packet, ch.sent);
    var f := Fragments.FromWire(packet).value;
    var a, done := Fragments.ReceiveAgrees(ch.assembly, Ideally(ch.assembly), f, ch.sent);
    Fragments.OutputIsPayload(Ideally(ch.assembly), f, ch.sent);
    AgreesIdeally(a, Fragments.IdealStep(Ideally(ch.assembly), f, ch.sent).0, ch.sent);
    ch1, inst := ch.(assembly := a), None;
    if done.Some? {
      var i :| i in out && c.encode(i) == done.value;
      inst := Some(i);
    }
  }

  lemma AgreesIdeally(a: Fragments.Assembly, m: Fragments.Ideal, sent: Fragments.Sent)
    requires Fragments.Agrees(a, m, sent)
    ensures m == Ideally(a)
  {
  }

  // ---- every step of every run ----

  lemma OwnKeepsSent(sys: System, action: Action, next: System)
    requires Act(sys, action) == Ok(next) && !action.TickAction?
    ensures next.ab == sys.ab && next.ba == sys.ba
  {
    hide Recv, GetRemoteDiff, CalculateTimers;
  }

  lemma TickSends(sys: System, env: Env, next: System)
    requires sys.a.sender.sent != [] && Act(sys, TickAction(env)) == Ok(next)
    ensures next.ba == sys.ba
    ensures var sent := Sends(sys.a.sender, env); next.ab == if sent.Some? then sys.ab + {sent.value} else sys.ab
  {
    hide Tick;
  }

  lemma SendKeeps(c: Codec, n: Network, env: Env, mtu: int) returns (next: Network)
    requires CodecOk(c) && PacketInv(c, n) && PacketAllowed(c, n, Send(env, mtu))
    ensures ActOnPackets(c, n, Send(env, mtu)) == Ok(next) && PacketInv(c, next)
  {
    hide Inv, Allowed, Act, ChannelOk, CodecOk, FitsWire, Sends, Post;
    AllowedHasSent(n.sys, env);
    var sys := ActKeeps(n.sys, TickAction(env));
    TickSends(n.sys, env, sys);
    next := n.(sys := sys);
    var sent := Sends(n.sys.a.sender, env);
    if sent.Some? {
      var ab := PostKeeps(c, n.ab, n.sys.ab, sent.value, mtu);
      next := next.(ab := ab);
    }
  }

  lemma AllowedHasSent(sys: System, env: Env)
    requires Allowed(sys, TickAction(env))
    ensures sys.a.sender.sent != []
  {
  }

  lemma ArriveKeeps(c: Codec, n: Network, packet: Packet, at: nat) returns (next: Network)
    requires CodecOk(c) && PacketInv(c, n) && PacketAllowed(c, n, Arrive(packet, at))
    ensures ActOnPackets(c, n, Arrive(packet, at)) == Ok(next) && PacketInv(c, next)
  {
    hide Inv, Act, ChannelOk, CodecOk, Take;
    var ba, inst := TakeKeeps(c, n.ba, n.sys.ba, packet);
    next := n.(ba := ba);
    if inst.Some? {
      var sys := ActKeeps(n.sys, Deliver(inst.value, at));
      OwnKeepsSent(n.sys, Deliver(inst.value, at), sys);
      next := next.(sys := sys);
    }
  }

  lemma ActOnPacketsKeeps(c: Codec, n: Network, action: PacketAction) returns (next: Network)
    requires CodecOk(c) && PacketInv(c, n) && PacketAllowed(c, n, action)
    ensures ActOnPackets(c, n, action) == Ok(next) && PacketInv(c, next)
  {
    hide Inv, Act, Allowed, ChannelOk, CodecOk, Take, Post, Sends, FitsWire;
    match action {
      case Own(a) =>
        var sys := ActKeeps(n.sys, a);
        OwnKeepsSent(n.sys, a, sys);
        next := n.(sys := sys);
      case Send(env, mtu) => next := SendKeeps(c, n, env, mtu);
      case Arrive(packet, at) => next := ArriveKeeps(c, n, packet, at);
    }
  }

  lemma SwapKeeps(c: Codec, n: Network)
    requires PacketInv(c, n)
    ensures PacketInv(c, SwapParties(n))
  {
    hide Direction, ChannelOk;
  }

  lemma {:induction false} PacketRunKeeps(c: Codec, n: Network, events: seq<PacketEvent>) returns (last: Network)
    requires CodecOk(c) && PacketInv(c, n) && PacketRun(c, n, events)
    ensures RunOnPackets(c, n, events) == Ok(last) && PacketInv(c, last)
    decreases |events|
  {
    hide CodecOk, PacketInv, ActOnPackets, PacketAllowed;
    if events == [] {
      last := n;
    } else {
      var ev, next := events[0], n;
      if ev.byA {
        next := ActOnPacketsKeeps(c, n, ev.action);
      } else {
        SwapKeeps(c, n);
        next := ActOnPacketsKeeps(c, SwapParties(n), ev.action);
        SwapKeeps(c, next);
        next := SwapParties(next);
      }
      last := PacketRunKeeps(c, next, events[1..]);
    }
  }

  function InitialNetwork(nowA: nat, nowB: nat, delayA: nat, delayB: nat): Network {
    Network(InitialSystem(nowA, nowB, delayA, delayB), EMPTY_CHANNEL, EMPTY_CHANNEL)
  }

  lemma StartsInOrder(c: Codec, nowA: nat, nowB: nat, delayA: nat, delayB: nat)
    ensures PacketInv(c, InitialNetwork(nowA, nowB, delayA, delayB))
  {
    hide Inv, InitialSystem;
    InitiallyHolds(nowA, nowB, delayA, delayB);
    NoneSent(nowA, nowB, delayA, delayB);
    Fragments.InitiallyAgrees(map[]);
    assert Fragments.Have(Fragments.EMPTY_ASSEMBLY) == {};
  }

  lemma NoneSent(nowA: nat, nowB: nat, delayA: nat, delayB: nat)
    ensures var sys := InitialSystem(nowA, nowB, delayA, delayB); sys.ab == {} && sys.ba == {}
  {
  }

  /** Exactly-once, in-order delivery over packets: whatever the network does to single packets, no assertion of the
      protocol, of cutting or of reassembly fails, and each side has been handed a prefix of exactly what the other side
      pushed. The receiver still holds the state its peer counts as acknowledged. */
  lemma ExactlyOnceOverPackets(c: Codec, nowA: nat, nowB: nat, delayA: nat, delayB: nat, events: seq<PacketEvent>)
    returns (last: Network)
    requires CodecOk(c) && PacketRun(c, InitialNetwork(nowA, nowB, delayA, delayB), events)
    ensures RunOnPackets(c, InitialNetwork(nowA, nowB, delayA, delayB), events) == Ok(last)
    ensures Faithful(last.sys.la, last.sys.a.sender, last.sys.b.receiver)
    ensures Faithful(last.sys.lb, last.sys.b.sender, last.sys.a.receiver)
    ensures last.sys.a.sender.sent != [] && HasNum(last.sys.b.receiver.received, last.sys.a.sender.sent[0].num)
    ensures last.sys.b.sender.sent != [] && HasNum(last.sys.a.receiver.received, last.sys.b.sender.sent[0].num)
  {
    hide SenderInv, ReceiverInv, AckInv, NetworkInv, Faithful, StrictlySorted, ChannelOk, CodecOk, InitialNetwork,
      PacketRun, RunOnPackets, HasNum;
    StartsInOrder(c, nowA, nowB, delayA, delayB);
    last := PacketRunKeeps(c, InitialNetwork(nowA, nowB, delayA, delayB), events);
    var s := last.sys;
    NonEmptyLists(s);
    DirectionFaithful(s.a.sender, s.b.receiver, s.b.sender.ackNum, s.ab, s.ba, s.la, s.clockA);
    DirectionFaithful(s.b.sender, s.a.receiver, s.a.sender.ackNum, s.ba, s.ab, s.lb, s.clockB);
  }

  // ---- an instruction gets through ----

  function Arrivals(fs: seq<Fragments.Fragment>, at: nat): seq<PacketEvent>
    requires Fragments.AllFit(fs)
  {
    seq(|fs|, i requires 0 <= i < |fs| => PacketEvent(false, Arrive(Fragments.ToWire(fs[i]).value, at)))
  }

  /** The assembly has exactly the first k fragments of the id. */
  predicate Has(a: Fragments.Assembly, id: nat, k: nat) {
    if a.currentId == id then Fragments.Have(a) == Fragments.Range(k) else k == 0
  }

  /** The next fragment of an id: nothing comes out before the last one. */
  lemma TakeNext(c: Codec, ch: Channel, out: set<Instruction>, id: nat, k: nat)
    returns (ch1: Channel, inst: Option<Instruction>)
    requires CodecOk(c) && ChannelOk(c, ch, out) && id in ch.sent && k < |ch.sent[id]| && Has(ch.assembly, id, k)
    requires Fragments.ToWire(ch.sent[id][k]).Ok?
    ensures Take(c, ch, Fragments.ToWire(ch.sent[id][k]).value) == Ok((ch1, inst)) && ChannelOk(c, ch1, out)
    ensures ch1 == ch.(assembly := ch1.assembly)
    ensures if k + 1 < |ch.sent[id]| then inst == None && Has(ch1.assembly, id, k + 1)
            else inst.Some? && c.encode(inst.value) == Fragments.Concat(ch.sent[id]) && inst.value in out
  {
    hide Fragments.WellSent, Fragments.Agrees, Fragments.FromWire, Fragments.ToWire, Fragments.Receive,
      Fragments.Concat, Fragments.Range, Fragments.Have;
    var fs := ch.sent[id];
    var f, p := fs[k], Fragments.ToWire(fs[k]).value;
    SentIsGenuine(ch.sent, id, k);
    assert Available(fs, ch.packets);
    ch1, inst := TakeKeeps(c, ch, out, p);
    var a, done := Fragments.ReceiveAgrees(ch.assembly, Ideally(ch.assembly), f, ch.sent);
    AgreesIdeally(a, Fragments.IdealStep(Ideally(ch.assembly), f, ch.sent).0, ch.sent);
    RangeNext(k);
    RangeDiffers(k + 1, |fs|);
    assert Carried(c, Fragments.Concat(fs), out);
  }

  lemma SentIsGenuine(sent: Fragments.Sent, id: nat, k: nat)
    requires Fragments.WellSent(sent) && id in sent && k < |sent[id]|
    ensures sent[id][k].id == id && sent[id][k].num == k && Fragments.Genuine(sent[id][k], sent)
  {
    hide Fragments.Concat;
    assert Fragments.Splits(sent[id], id, Fragments.Concat(sent[id]));
  }

  lemma RangeNext(k: nat)
    ensures Fragments.Range(k) + {k} == Fragments.Range(k + 1) && {} + {k} == {k}
    ensures Fragments.Range(0) == {}
  {
  }

  lemma RangeDiffers(k: nat, n: nat)
    requires k <= n
    ensures Fragments.Range(k) == Fragments.Range(n) <==> k == n
  {
    Fragments.RangeSize(k);
    Fragments.RangeSize(n);
  }

  /** The fragments of an instruction from the k-th on, in a row, have the effect of the whole instruction. */
  lemma {:induction false} RestArrives(c: Codec, n: Network, id: nat, k: nat, at: nat)
    returns (inst: Instruction, next: Network)
    requires CodecOk(c) && PacketInv(c, n) && id in n.ab.sent && k < |n.ab.sent[id]| && Has(n.ab.assembly, id, k)
    requires n.sys.clockB <= at && Fragments.AllFit(n.ab.sent[id])
    ensures var events := Arrivals(n.ab.sent[id], at)[k..];
      PacketRun(c, n, events) && RunOnPackets(c, n, events) == Ok(next) && PacketInv(c, next)
    ensures c.encode(inst) == Fragments.Concat(n.ab.sent[id]) && inst in n.sys.ab
    ensures Step(n.sys, Event(false, Deliver(inst, at))) == Ok(next.sys) && next.ba == n.ba
    decreases |n.ab.sent[id]| - k
  {
    hide CodecOk, Inv, Act, ChannelOk, Has, Fragments.AllFit, Fragments.ToWire, Fragments.Concat, Take;
    var fs := n.ab.sent[id];
    FitsAt(fs, k);
    var packet := Fragments.ToWire(fs[k]).value;
    var events := Arrivals(fs, at)[k..];
    assert events[0] == PacketEvent(false, Arrive(packet, at)) && events[1..] == Arrivals(fs, at)[k + 1..];
    PacketIsThere(c, n.ab, n.sys.ab, id, k);
    SwapKeeps(c, n);
    var next1 := ActOnPacketsKeeps(c, SwapParties(n), Arrive(packet, at));
    SwapKeeps(c, next1);
    var ch, done := TakeNext(c, n.ab, n.sys.ab, id, k);
    if k + 1 < |fs| {
      inst, next := RestArrives(c, SwapParties(next1), id, k + 1, at);
    } else {
      inst, next := done.value, SwapParties(next1);
      assert events[1..] == [];
      NothingMore(c, next);
    }
  }

  lemma NothingMore(c: Codec, n: Network)
    ensures PacketRun(c, n, []) && RunOnPackets(c, n, []) == Ok(n)
  {
  }

  lemma FitsAt(fs: seq<Fragments.Fragment>, k: nat)
    requires Fragments.AllFit(fs) && k < |fs|
    ensures Fragments.ToWire(fs[k]).Ok?
  {
    hide Fragments.ToWire;
  }

  lemma PacketIsThere(c: Codec, ch: Channel, out: set<Instruction>, id: nat, k: nat)
    requires ChannelOk(c, ch, out) && id in ch.sent && k < |ch.sent[id]| && Fragments.ToWire(ch.sent[id][k]).Ok?
    ensures Fragments.ToWire(ch.sent[id][k]).value in ch.packets
  {
    hide Fragments.ToWire, Fragments.FromWire;
    assert Available(ch.sent[id], ch.packets);
  }

  lemma {:induction false} RunsJoin(c: Codec, n: Network, a: seq<PacketEvent>, b: seq<PacketEvent>)
    requires PacketRun(c, n, a) && RunOnPackets(c, n, a).Ok? && PacketRun(c, RunOnPackets(c, n, a).value, b)
    ensures PacketRun(c, n, a + b)
    ensures RunOnPackets(c, n, a + b) == RunOnPackets(c, RunOnPackets(c, n, a).value, b)
    decreases |a|
  {
    hide StepOnPackets, PacketAllowed;
    if a == [] {
      assert a + b == b;
    } else {
      assert (a + b)[0] == a[0] && (a + b)[1..] == a[1..] + b;
      RunsJoin(c, StepOnPackets(c, n, a[0]).value, a[1..], b);
    }
  }

  lemma RunOfOne(c: Codec, n: Network, ev: PacketEvent, next: Network)
    requires PacketAllowed(c, if ev.byA then n else SwapParties(n), ev.action) && StepOnPackets(c, n, ev) == Ok(next)
    ensures PacketRun(c, n, [ev]) && RunOnPackets(c, n, [ev]) == Ok(next)
  {
    hide StepOnPackets, PacketAllowed;
    assert [ev][1..] == [];
    NothingMore(c, next);
  }

  /** Nothing of a new instruction is there yet. */
  lemma FreshHas(c: Codec, ch: Channel, out: set<Instruction>)
    requires ChannelOk(c, ch, out)
    ensures Has(ch.assembly, ch.nextId + 1, 0) && ch.nextId + 1 !in ch.sent
  {
    hide Fragments.WellSent;
    RangeNext(0);
    assert Fragments.Have(Fragments.EMPTY_ASSEMBLY) == {};
  }

  /** The first step: the retry is cut and posted. */
  lemma PostRetry(c: Codec, n: Network, e: Env, inst: Instruction, sys: System, mtu: int)
    returns (next: Network, fs: seq<Fragments.Fragment>)
    requires CodecOk(c) && PacketInv(c, n) && Allowed(n.sys, TickAction(e)) && Act(n.sys, TickAction(e)) == Ok(sys)
    requires n.sys.a.sender.sent != [] && Sends(n.sys.a.sender, e) == Some(inst)
    requires mtu > Fragments.HEADER_LEN && n.ab.nextId + 1 < Fragments.MAX_ID && FitsWire(c, Some(inst), mtu)
    ensures PacketAllowed(c, n, Send(e, mtu)) && ActOnPackets(c, n, Send(e, mtu)) == Ok(next) && PacketInv(c, next)
    ensures Fragments.AllFit(fs) && fs != [] && Fragments.Concat(fs) == c.encode(inst)
    ensures next == Network(sys, Posted(n.ab, fs), n.ba)
  {
    hide CodecOk, Inv, Allowed, Act, ChannelOk, Fragments.AllFit, Fragments.Splits, FitsWire, Sends, Fragments.Concat,
      Post;
    next := SendKeeps(c, n, e, mtu);
    fs := PostIff(c, n.ab, inst, mtu);
    SplitIsPayload(fs, n.ab.nextId + 1, c.encode(inst));
  }

  /** From every state in order, over packets: sending once more what the receiver lacks, its fragments in a row and a
      read hand b everything a has pushed, provided that it fits the wire and b's queue is not full. */
  lemma CanCatchUpOverPackets(c: Codec, n: Network, mtu: int)
    returns (inst: Instruction, events: seq<PacketEvent>, last: Network)
    requires CodecOk(c) && PacketInv(c, n) && mtu > Fragments.HEADER_LEN && n.ab.nextId + 1 < Fragments.MAX_ID
    requires var s := n.sys.a.sender; s.shutdown || s.sent[|s.sent| - 1].num + 1 < MAX_NUM
    requires |NotBelow(n.sys.b.receiver.received, n.sys.a.sender.sent[0].num)| <= MAX_RECEIVED_STATES
    ensures inst.oldNum == inst.throwawayNum == n.sys.a.sender.sent[0].num
    ensures FitsWire(c, Some(inst), mtu) ==>
      && PacketRun(c, n, events) && RunOnPackets(c, n, events) == Ok(last)
      && last.sys.la.pushed == n.sys.la.pushed && last.sys.la.delivered == last.sys.la.pushed
  {
    hide Direction, Act, NotBelow, HasNum, Allowed, ChannelOk, FitsWire, Fragments.AllFit, Fragments.Concat, Has, Tick,
      PacketRun, RunOnPackets, Posted, CodecOk;
    NonEmptyLists(n.sys);
    HoldsFront(n.sys);
    var e, sys1;
    e, inst, sys1 := SendRetry(n.sys);
    events, last := [], n;
    if FitsWire(c, Some(inst), mtu) {
      var n1, fs := PostRetry(c, n, e, inst, sys1, mtu);
      var n2 := PostedArrives(c, n, n1, inst, fs, sys1.clockB);
      var sys2 := AcceptRetry(Swap(sys1), inst);
      var sys3 := ReadEverything(sys2, inst.newNum);
      last := n2.(sys := Swap(sys3));
      var first, read := PacketEvent(true, Send(e, mtu)), PacketEvent(false, Own(Read));
      var rest := Arrivals(fs, sys1.clockB);
      RunOfOne(c, n, first, n1);
      AllowedRead(sys2);
      RunOfOne(c, n2, read, last);
      RunsJoin(c, n, [first], rest);
      RunsJoin(c, n, [first] + rest, [read]);
      events := [first] + rest + [read];
    }
  }

  /** The second step: all fragments of the new instruction arrive. */
  lemma PostedArrives(c: Codec, n: Network, n1: Network, inst: Instruction, fs: seq<Fragments.Fragment>, at: nat)
    returns (n2: Network)
    requires CodecOk(c) && PacketInv(c, n) && PacketInv(c, n1) && n1.sys.clockB <= at
    requires Fragments.AllFit(fs) && fs != [] && Fragments.Concat(fs) == c.encode(inst)
    requires n1.ab == Posted(n.ab, fs)
    ensures var rest := Arrivals(fs, at); PacketRun(c, n1, rest) && RunOnPackets(c, n1, rest) == Ok(n2)
    ensures Step(n1.sys, Event(false, Deliver(inst, at))) == Ok(n2.sys)
  {
    hide Inv, Act, ChannelOk, Fragments.AllFit, Fragments.Concat, Has, PacketRun, RunOnPackets, Arrivals;
    FreshHas(c, n.ab, n.sys.ab);
    var other;
    other, n2 := RestArrives(c, n1, n.ab.nextId + 1, 0, at);
    assert c.decode(c.encode(other)) == Some(other) && c.decode(c.encode(inst)) == Some(inst);
    assert Arrivals(fs, at)[0..] == Arrivals(fs, at);
  }
}
