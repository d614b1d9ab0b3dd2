/** Splitting an instruction into numbered fragments and putting it together again
    (network/transportfragment.cc). The payload is the serialised instruction. */
module Fragments {
  import opened Outcomes
  import opened Bytes

  const HEADER_LEN := 66
  const FRAG_HEADER_LEN := 10
  const MAX_FRAGMENTS := 0x8000
  const MAX_ID := 0x1_0000_0000_0000_0000

  type Payload = seq<Byte>

  datatype Fragment = Fragment(id: nat, num: nat, final: bool, initialized: bool, contents: Payload)

  /** The element a vector is resized with. */
  const BLANK := Fragment(MAX_ID - 1, 0xFFFF, false, false, [])

  // ---- the wire format ----

  function ToWire(f: Fragment): Outcome<seq<Byte>> {
    if !f.initialized || f.num >= MAX_FRAGMENTS then AssertFailed
    else Ok(ToBytes(f.id, 8) + ToBytes(Bit(f.final) * 0x8000 + f.num, 2) + f.contents)
  }

  function FromWire(x: seq<Byte>): Outcome<Fragment> {
    if |x| < FRAG_HEADER_LEN then AssertFailed
    else
      var combined := FromBytes(x[8..10]);
      Ok(Fragment(FromBytes(x[..8]), combined % 0x8000, combined / 0x8000 == 1, true, x[10..]))
  }

  lemma WireRoundTrip(f: Fragment)
    requires f.initialized && f.num < MAX_FRAGMENTS && f.id < MAX_ID
    ensures ToWire(f).Ok? && FromWire(ToWire(f).value) == Ok(f)
  {
    hide ToBytes, FromBytes, Pow256;
    Widths();
    var combined := Bit(f.final) * 0x8000 + f.num;
    var x := ToWire(f).value;
    assert x[..8] == ToBytes(f.id, 8) && x[8..10] == ToBytes(combined, 2) && x[10..] == f.contents;
    FromToBytes(f.id, 8);
    FromToBytes(combined, 2);
  }

  /** Every string long enough to hold a header is the encoding of exactly one fragment. */
  lemma WireIsOnto(x: seq<Byte>)
    requires |x| >= FRAG_HEADER_LEN
    ensures FromWire(x).Ok? && ToWire(FromWire(x).value) == Ok(x)
  {
    hide ToBytes, FromBytes, Pow256;
    Widths();
    ToFromBytes(x[..8]);
    ToFromBytes(x[8..10]);
    var f := FromWire(x).value;
    assert Bit(f.final) * 0x8000 + f.num == FromBytes(x[8..10]);
    assert x == x[..8] + x[8..10] + x[10..];
  }

  lemma Widths()
    ensures Pow256(2) == 0x1_0000 && Pow256(8) == MAX_ID
  {
    assert Pow256(1) == 256 * Pow256(0);
    assert Pow256(2) == 0x1_0000;
    assert Pow256(3) == 256 * Pow256(2);
    assert Pow256(4) == 0x1_0000_0000;
    assert Pow256(5) == 256 * Pow256(4);
    assert Pow256(6) == 0x1_0000_0000_0000;
    assert Pow256(7) == 256 * Pow256(6);
  }

  // ---- splitting ----

  function Concat(fs: seq<Fragment>): Payload {
    if fs == [] then [] else Concat(fs[..|fs| - 1]) + fs[|fs| - 1].contents
  }

  /** The fragments of one instruction: numbered from zero, only the last one final, all of them
      together the payload. */
  predicate Splits(fs: seq<Fragment>, id: nat, payload: Payload) {
    && (forall i | 0 <= i < |fs| ::
          fs[i].id == id && fs[i].num == i && fs[i].initialized && (fs[i].final <==> i == |fs| - 1))
    && Concat(fs) == payload
  }

  /** A payload in chunks, the first of them numbered n. The counter is 16 bits wide. */
  function Cut(payload: Payload, id: nat, chunk: nat, n: nat): seq<Fragment>
    requires 0 < chunk
    decreases |payload|
  {
    if payload == [] then []
    else if |payload| <= chunk then [Fragment(id, n % 0x1_0000, true, true, payload)]
    else [Fragment(id, n % 0x1_0000, false, true, payload[..chunk])] + Cut(payload[chunk..], id, chunk, n + 1)
  }

  class Fragmenter {
    var nextInstructionId: nat

    constructor ()
      ensures nextInstructionId == 0
    {
      nextInstructionId := 0;
    }

    /** Ids are fresh; every fragment but the last fills the MTU and none exceeds it. An empty payload gives no
        fragment at all. The counter is 16 bits wide, so numbers start over after 65536 fragments, and the
        fragments are a proper split exactly when there are no more. */
    method MakeFragments(payload: Payload, mtu: int) returns (fs: seq<Fragment>)
      requires mtu > HEADER_LEN
      modifies this
      ensures nextInstructionId == old(nextInstructionId) + 1
      ensures fs == Cut(payload, nextInstructionId, mtu - HEADER_LEN, 0)
      ensures Concat(fs) == payload && (fs == [] <==> payload == [])
      ensures Chunked(fs, nextInstructionId, mtu - HEADER_LEN, true) && Sized(|fs|, mtu - HEADER_LEN, |payload|, 0)
      ensures Splits(fs, nextInstructionId, payload) <==> |payload| <= 0x1_0000 * (mtu - HEADER_LEN)
    {
      hide Splits, Chunked, Concat, Sized, Cut;
      nextInstructionId := nextInstructionId + 1;
      var rest, fragmentNum := payload, 0;
      var chunk := mtu - HEADER_LEN;
      fs := [];
      assert fs + Cut(payload, nextInstructionId, chunk, 0) == Cut(payload, nextInstructionId, chunk, 0);
      while rest != []
        invariant nextInstructionId == old(nextInstructionId) + 1 && fragmentNum == |fs| % 0x1_0000
        invariant fs + Cut(rest, nextInstructionId, chunk, |fs|) == Cut(payload, nextInstructionId, chunk, 0)
        decreases |rest|
      {
        var thisFragment, final := rest, true;
        CutOne(fs, rest, nextInstructionId, chunk);
        CountOne(|fs|);
        if |rest| + HEADER_LEN > mtu {
          thisFragment, rest, final := rest[..chunk], rest[chunk..], false;
        } else {
          rest := [];
        }
        fs := fs + [Fragment(nextInstructionId, fragmentNum, final, true, thisFragment)];
        fragmentNum := (fragmentNum + 1) % 0x1_0000;
      }
      CutNothing(nextInstructionId, chunk, |fs|);
      assert fs + [] == fs;
      CutChunked(payload, nextInstructionId, chunk);
      SplitsIff(fs, nextInstructionId, payload, chunk);
    }
  }

  lemma CutNothing(id: nat, chunk: nat, n: nat)
    requires 0 < chunk
    ensures Cut([], id, chunk, n) == []
  {
  }

  /** Cutting off one more chunk. */
  lemma CutOne(fs: seq<Fragment>, rest: Payload, id: nat, chunk: nat)
    requires 0 < chunk && rest != []
    ensures var n := |fs| % 0x1_0000;
      var f := Fragment(id, n, |rest| <= chunk, true, if |rest| <= chunk then rest else rest[..chunk]);
      fs + Cut(rest, id, chunk, |fs|)
      == (fs + [f]) + Cut(if |rest| <= chunk then [] else rest[chunk..], id, chunk, |fs| + 1)
  {
    hide Cut;
    CutUnfolds(rest, id, chunk, |fs|);
    var f := Fragment(id, |fs| % 0x1_0000, |rest| <= chunk, true, if |rest| <= chunk then rest else rest[..chunk]);
    var more := Cut(if |rest| <= chunk then [] else rest[chunk..], id, chunk, |fs| + 1);
    assert fs + ([f] + more) == (fs + [f]) + more;
  }

  lemma CutUnfolds(rest: Payload, id: nat, chunk: nat, n: nat)
    requires 0 < chunk && rest != []
    ensures var f := Fragment(id, n % 0x1_0000, |rest| <= chunk, true, if |rest| <= chunk then rest else rest[..chunk]);
      Cut(rest, id, chunk, n) == [f] + Cut(if |rest| <= chunk then [] else rest[chunk..], id, chunk, n + 1)
  {
  }

  lemma CountOne(n: nat)
    ensures (n % 0x1_0000 + 1) % 0x1_0000 == (n + 1) % 0x1_0000
  {
  }

  /** What is cut is a list of full chunks, but for the last, that together are the payload. */
  lemma CutChunked(payload: Payload, id: nat, chunk: nat)
    requires 0 < chunk
    ensures var fs := Cut(payload, id, chunk, 0);
      Concat(fs) == payload && (fs == [] <==> payload == []) && Chunked(fs, id, chunk, true)
      && Sized(|fs|, chunk, |payload|, 0)
  {
    hide Chunked, Concat, Sized, Cut;
    var fs, rest: Payload := [], payload;
    NoChunks(id, chunk, |payload|);
    assert fs + Cut(payload, id, chunk, 0) == Cut(payload, id, chunk, 0);
    while rest != []
      invariant fs + Cut(rest, id, chunk, |fs|) == Cut(payload, id, chunk, 0)
      invariant Concat(fs) + rest == payload && (fs == [] ==> rest == payload) && (payload == [] ==> fs == [])
      invariant Chunked(fs, id, chunk, rest == []) && Sized(|fs|, chunk, |payload|, |rest|)
      decreases |rest|
    {
      var n := |fs| % 0x1_0000;
      CutOne(fs, rest, id, chunk);
      OneChunkMore(|fs|, chunk, |payload|, |rest|);
      var f := Fragment(id, n, |rest| <= chunk, true, if |rest| <= chunk then rest else rest[..chunk]);
      ChunkMore(fs, f, chunk);
      fs, rest := fs + [f], if |rest| <= chunk then [] else rest[chunk..];
    }
    assert fs + [] == fs && Cut([], id, chunk, |fs|) == [] by { CutNothing(id, chunk, |fs|); }
    NoChunks(id, chunk, 0);
  }

  /** A list of fragments being built: all full, except that the last may be the final one. */
  predicate Chunked(fs: seq<Fragment>, id: nat, chunk: nat, done: bool) {
    forall i | 0 <= i < |fs| ::
      && fs[i].id == id && fs[i].num == i % 0x1_0000 && fs[i].initialized && fs[i].contents != []
      && (if done && i == |fs| - 1 then fs[i].final && |fs[i].contents| <= chunk
          else !fs[i].final && |fs[i].contents| == chunk)
  }

  lemma NoChunks(id: nat, chunk: nat, total: nat)
    ensures Chunked([], id, chunk, false) && Chunked([], id, chunk, true)
    ensures Concat([]) == [] && Sized(0, chunk, total, total)
  {
  }

  lemma ChunkMore(fs: seq<Fragment>, f: Fragment, chunk: nat)
    requires Chunked(fs, f.id, chunk, false) && f.num == |fs| % 0x1_0000 && f.initialized && f.contents != []
    requires if f.final then |f.contents| <= chunk else |f.contents| == chunk
    ensures Chunked(fs + [f], f.id, chunk, f.final) && Concat(fs + [f]) == Concat(fs) + f.contents
  {
    assert (fs + [f])[..|fs|] == fs;
  }

  /** n chunks, the last of which may be shorter once nothing is left. */
  predicate Sized(n: nat, chunk: nat, total: nat, left: nat) {
    if left != 0 || n == 0 then total == n * chunk + left else (n - 1) * chunk < total <= n * chunk
  }

  lemma OneChunkMore(n: nat, chunk: nat, total: nat, left: nat)
    requires Sized(n, chunk, total, left) && 0 < left
    ensures if left > chunk then Sized(n + 1, chunk, total, left - chunk) else Sized(n + 1, chunk, total, 0)
  {
    assert (n + 1) * chunk == n * chunk + chunk;
  }

  /** The numbers are the positions exactly when there are at most 65536. */
  lemma SplitsIff(fs: seq<Fragment>, id: nat, payload: Payload, chunk: nat)
    requires 0 < chunk && Chunked(fs, id, chunk, true) && Concat(fs) == payload
    requires Sized(|fs|, chunk, |payload|, 0)
    ensures Splits(fs, id, payload) <==> |payload| <= 0x1_0000 * chunk
  {
    hide Concat, Chunked, Splits;
    NumbersArePositions(fs, id, payload, chunk);
    if |fs| <= 0x1_0000 {
      Times(|fs|, 0x1_0000, chunk);
    } else {
      Times(0x1_0000, |fs| - 1, chunk);
    }
  }

  lemma NumbersArePositions(fs: seq<Fragment>, id: nat, payload: Payload, chunk: nat)
    requires Chunked(fs, id, chunk, true) && Concat(fs) == payload
    ensures Splits(fs, id, payload) <==> |fs| <= 0x1_0000
  {
    hide Concat;
    if |fs| > 0x1_0000 {
      assert fs[0x1_0000].num == 0;
    }
  }

  lemma Times(a: nat, b: nat, chunk: nat)
    requires a <= b
    ensures a * chunk <= b * chunk
  {
  }

  // ---- reassembly ----

  /** `total` is -1 until the final fragment has been seen. */
  datatype Assembly = Assembly(fragments: seq<Fragment>, currentId: nat, arrived: nat, total: int)

  const EMPTY_ASSEMBLY := Assembly([], MAX_ID - 1, 0, -1)

  function Resize(fs: seq<Fragment>, n: nat): (r: seq<Fragment>)
    ensures |r| == n
  {
    if n <= |fs| then fs[..n] else fs + seq(n - |fs|, _ => BLANK)
  }

  function Store(a: Assembly, f: Fragment): Outcome<Assembly> {
    if a.currentId != f.id then
      Ok(Assembly(Resize([], f.num + 1)[f.num := f], f.id, 1, -1))
    else if |a.fragments| > f.num && a.fragments[f.num].initialized then
      if a.fragments[f.num] == f then Ok(a) else AssertFailed
    else
      var fs := if |a.fragments| < f.num + 1 then Resize(a.fragments, f.num + 1) else a.fragments;
      Ok(a.(fragments := fs[f.num := f], arrived := a.arrived + 1))
  }

  function NoteFinal(a: Assembly, f: Fragment): Outcome<Assembly> {
    if !f.final then Ok(a)
    else if |a.fragments| > f.num + 1 then AssertFailed
    else Ok(a.(fragments := Resize(a.fragments, f.num + 1), total := f.num + 1))
  }

  function Add(a: Assembly, f: Fragment): Outcome<(Assembly, bool)> {
    var a1 :- Store(a, f);
    var a2 :- NoteFinal(a1, f);
    if a2.total != -1 && a2.arrived > a2.total then AssertFailed
    else Ok((a2, a2.arrived == a2.total))
  }

  /** Adding any fragment, genuine or not. It starts over if its id is new. The assertions fail exactly when another
      fragment is held under its number, when it is final with one held behind it, or when more have arrived than belong
      together. Otherwise it takes its place, the others stay, and it completes exactly if as many have arrived. */
  lemma AddEffect(a: Assembly, f: Fragment)
    ensures var mine := a.currentId == f.id;
      var held := if mine then a.fragments else [];
      var known := f.num < |held| && held[f.num].initialized;
      var total := if f.final then f.num + 1 else if mine then a.total else -1;
      var arrived := if !mine then 1 else if known then a.arrived else a.arrived + 1;
      && (Add(a, f).AssertFailed? <==>
            || (known && held[f.num] != f) || (f.final && f.num + 1 < |held|) || (total != -1 && total < arrived))
      && (Add(a, f).Ok? ==>
            var (b, done) := Add(a, f).value;
            && b == Assembly(b.fragments, f.id, arrived, total) && (done <==> arrived == total)
            && |b.fragments| == (if f.num < |held| then |held| else f.num + 1)
            && forall i | 0 <= i < |b.fragments| ::
              b.fragments[i] == if i == f.num then f else if i < |held| then held[i] else BLANK)
  {
  }

  function GetAssembly(a: Assembly): Outcome<(Assembly, Payload)> {
    if a.arrived != a.total || a.total > |a.fragments| || (exists i :: 0 <= i < a.total && !a.fragments[i].initialized)
    then AssertFailed
    else Ok((Assembly([], a.currentId, 0, -1), Concat(a.fragments[..a.total])))
  }

  /** One received fragment, as `Transport::recv` handles it: a completed payload, or nothing. */
  function Receive(a: Assembly, f: Fragment): Outcome<(Assembly, Option<Payload>)> {
    var (a1, done) :- Add(a, f);
    if done then
      var (a2, payload) :- GetAssembly(a1);
      Ok((a2, Some(payload)))
    else
      Ok((a1, None))
  }

  class FragmentAssembly {
    var fragments: seq<Fragment>
    var currentId: nat
    var fragmentsArrived: nat
    var fragmentsTotal: int

    ghost function State(): Assembly
      reads this
    {
      Assembly(fragments, currentId, fragmentsArrived, fragmentsTotal)
    }

    constructor ()
      ensures State() == EMPTY_ASSEMBLY
    {
      fragments, currentId, fragmentsArrived, fragmentsTotal := [], MAX_ID - 1, 0, -1;
    }

    method AddFragment(f: Fragment) returns (r: Outcome<bool>)
      modifies this
      ensures r.Ok? <==> Add(old(State()), f).Ok?
      ensures r.Ok? ==> Add(old(State()), f) == Ok((State(), r.value))
    {
      if currentId != f.id {
        fragments := Resize([], f.num + 1);
        fragments := fragments[f.num := f];
        fragmentsArrived, fragmentsTotal, currentId := 1, -1, f.id;
      } else if |fragments| > f.num && fragments[f.num].initialized {
        if fragments[f.num] != f {
          return AssertFailed;
        }
      } else {
        if |fragments| < f.num + 1 {
          fragments := Resize(fragments, f.num + 1);
        }
        fragments := fragments[f.num := f];
        fragmentsArrived := fragmentsArrived + 1;
      }
      if f.final {
        fragmentsTotal := f.num + 1;
        if |fragments| > fragmentsTotal {
          return AssertFailed;
        }
        fragments := Resize(fragments, fragmentsTotal);
      }
      if fragmentsTotal != -1 && fragmentsArrived > fragmentsTotal {
        return AssertFailed;
      }
      return Ok(fragmentsArrived == fragmentsTotal);
    }

    method TakeAssembly() returns (r: Outcome<Payload>)
      modifies this
      ensures r.Ok? <==> GetAssembly(old(State())).Ok?
      ensures r.Ok? ==> GetAssembly(old(State())) == Ok((State(), r.value))
    {
      if fragmentsArrived != fragmentsTotal || fragmentsTotal > |fragments| {
        return AssertFailed;
      }
      var encoded: Payload := [];
      for i := 0 to fragmentsTotal
        invariant State() == old(State())
        invariant forall j | 0 <= j < i :: fragments[j].initialized
        invariant encoded == Concat(fragments[..i])
      {
        if !fragments[i].initialized {
          return AssertFailed;
        }
        assert fragments[..i + 1][..i] == fragments[..i];
        encoded := encoded + fragments[i].contents;
      }
      fragments, fragmentsArrived, fragmentsTotal := [], 0, -1;
      return Ok(encoded);
    }
  }

  // ---- the ideal reassembler ----

  /** Everything sent so far: each id with its list of fragments. */
  type Sent = map<nat, seq<Fragment>>

  predicate Genuine(f: Fragment, sent: Sent) {
    f.id in sent && f.num < |sent[f.id]| && f == sent[f.id][f.num]
  }

  predicate WellSent(sent: Sent) {
    forall id | id in sent :: sent[id] != [] && Splits(sent[id], id, Concat(sent[id]))
  }

  /** Remembers only which numbers of the current id have come since it was last complete. */
  datatype Ideal = Ideal(id: nat, have: set<nat>)

  function Range(n: nat): (r: set<nat>)
    ensures forall i: nat :: i in r <==> i < n
  {
    if n == 0 then {} else Range(n - 1) + {n - 1}
  }

  function IdealStep(m: Ideal, f: Fragment, sent: Sent): (Ideal, Option<Payload>)
    requires Genuine(f, sent)
  {
    var have := (if m.id == f.id then m.have else {}) + {f.num};
    if have == Range(|sent[f.id]|) then (Ideal(f.id, {}), Some(Concat(sent[f.id])))
    else (Ideal(f.id, have), None)
  }

  function Have(a: Assembly): set<nat> {
    set i | 0 <= i < |a.fragments| && a.fragments[i].initialized
  }

  /** The state of the assembler while it gathers the fragments `fs`. */
  predicate Gathers(a: Assembly, fs: seq<Fragment>) {
    && |a.fragments| <= |fs|
    && (forall i | 0 <= i < |a.fragments| && a.fragments[i].initialized :: a.fragments[i] == fs[i])
    && a.arrived == |Have(a)|
    && (if |fs| - 1 in Have(a) then a.total == |fs| == |a.fragments| else a.total == -1)
  }

  /** The assembler and the ideal reassembler agree. */
  predicate Agrees(a: Assembly, m: Ideal, sent: Sent) {
    && a.currentId == m.id && Have(a) == m.have
    && (if m.id in sent then Gathers(a, sent[m.id]) else a == EMPTY_ASSEMBLY)
  }

  lemma {:induction false} RangeSize(n: nat)
    ensures |Range(n)| == n
  {
    if n > 0 {
      RangeSize(n - 1);
    }
  }

  lemma SubsetSize(s: set<nat>, n: nat)
    requires s <= Range(n)
    ensures |s| <= n && (|s| == n <==> s == Range(n))
  {
    RangeSize(n);
    var rest := Range(n) - s;
    assert Range(n) == s + rest;
    if |s| == n {
      assert rest == {};
    }
  }

  /** Like `Gathers`, while the final fragment `f` may not have been noted yet. */
  predicate Stored(a: Assembly, f: Fragment, fs: seq<Fragment>) {
    && a.currentId == f.id && |a.fragments| <= |fs| && f.num in Have(a)
    && (forall i | 0 <= i < |a.fragments| && a.fragments[i].initialized :: a.fragments[i] == fs[i])
    && a.arrived == |Have(a)|
    && (a.total == -1 || a.total == |fs| == |a.fragments|)
    && (|fs| - 1 in Have(a) && f.num != |fs| - 1 ==> a.total == |fs|)
    && (|fs| - 1 !in Have(a) ==> a.total == -1)
  }

  lemma StoreFirst(f: Fragment, fs: seq<Fragment>) returns (a1: Assembly)
    requires f.num < |fs| && f == fs[f.num] && f.initialized
    ensures a1 == Assembly(Resize([], f.num + 1)[f.num := f], f.id, 1, -1)
    ensures Have(a1) == {f.num} && Stored(a1, f, fs)
  {
    a1 := Assembly(Resize([], f.num + 1)[f.num := f], f.id, 1, -1);
    assert Have(a1) == {f.num};
  }

  lemma StoreNew(a: Assembly, f: Fragment, fs: seq<Fragment>) returns (a1: Assembly)
    requires Gathers(a, fs) && a.currentId == f.id && f.num !in Have(a)
    requires f.num < |fs| && f == fs[f.num] && f.initialized
    ensures Store(a, f) == Ok(a1)
    ensures Have(a1) == Have(a) + {f.num} && Stored(a1, f, fs)
  {
    a1 := Store(a, f).value;
    assert Have(a1) == Have(a) + {f.num};
  }

  lemma StoreAgain(a: Assembly, f: Fragment, fs: seq<Fragment>)
    requires Gathers(a, fs) && a.currentId == f.id && f.num in Have(a) && f.num < |fs| && f == fs[f.num]
    ensures Store(a, f) == Ok(a) && Stored(a, f, fs)
  {
  }

  lemma GenuineInitialized(f: Fragment, sent: Sent)
    requires WellSent(sent) && Genuine(f, sent)
    ensures f.initialized && sent[f.id] != [] && (f.final <==> f.num == |sent[f.id]| - 1)
  {
    assert Splits(sent[f.id], f.id, Concat(sent[f.id]));
  }

  /** Storing a genuine fragment adds its number to the set, however often it has come before. */
  lemma StoreGathers(a: Assembly, m: Ideal, f: Fragment, sent: Sent) returns (a1: Assembly)
    requires WellSent(sent) && Genuine(f, sent) && Agrees(a, m, sent)
    ensures Store(a, f) == Ok(a1)
    ensures Have(a1) == (if m.id == f.id then m.have else {}) + {f.num}
    ensures Stored(a1, f, sent[f.id])
  {
    hide WellSent, Have, Resize, Stored, Gathers;
    var fs := sent[f.id];
    GenuineInitialized(f, sent);
    if a.currentId != f.id {
      a1 := StoreFirst(f, fs);
      assert {} + {f.num} == {f.num};
    } else if f.num in Have(a) {
      assert m.have + {f.num} == m.have;
      StoreAgain(a, f, fs);
      a1 := a;
    } else {
      a1 := StoreNew(a, f, fs);
    }
  }

  lemma AddAgrees(a: Assembly, m: Ideal, f: Fragment, sent: Sent) returns (a2: Assembly, done: bool)
    requires WellSent(sent) && Genuine(f, sent) && Agrees(a, m, sent)
    ensures Add(a, f) == Ok((a2, done))
    ensures a2.currentId == f.id && Gathers(a2, sent[f.id])
    ensures Have(a2) == (if m.id == f.id then m.have else {}) + {f.num}
    ensures done <==> Have(a2) == Range(|sent[f.id]|)
  {
    hide WellSent, Agrees, Store, Concat;
    var fs := sent[f.id];
    GenuineInitialized(f, sent);
    var a1 := StoreGathers(a, m, f, sent);
    a2 := NoteFinal(a1, f).value;
    if f.final {
      var last := |a1.fragments|;
      assert f.num in Have(a1) && |a1.fragments| == f.num + 1;
      assert a2.fragments == a1.fragments;
    }
    assert Have(a2) == Have(a1);
    SubsetSize(Have(a2), |fs|);
    done := a2.arrived == a2.total;
    assert done ==> |Have(a2)| == |fs|;
    assert Have(a2) == Range(|fs|) ==> |fs| - 1 in Have(a2);
  }

  lemma AssemblyComplete(a: Assembly, fs: seq<Fragment>)
    requires Gathers(a, fs) && fs != [] && Have(a) == Range(|fs|)
    ensures GetAssembly(a) == Ok((Assembly([], a.currentId, 0, -1), Concat(fs)))
  {
    assert |fs| - 1 in Have(a);
    RangeSize(|fs|);
    forall i | 0 <= i < |fs| ensures a.fragments[i].initialized && a.fragments[i] == fs[i] {
      assert i in Have(a);
    }
    assert a.fragments[..a.total] == fs;
  }

  /** Whatever genuine fragment comes next, no assertion fails, and the assembler does exactly
      what the ideal reassembler does: it completes when the last missing number of the current
      id arrives, with exactly the payload sent under that id. */
  lemma ReceiveAgrees(a: Assembly, m: Ideal, f: Fragment, sent: Sent) returns (a': Assembly, out: Option<Payload>)
    requires WellSent(sent) && Genuine(f, sent) && Agrees(a, m, sent)
    ensures Receive(a, f) == Ok((a', out))
    ensures Agrees(a', IdealStep(m, f, sent).0, sent) && out == IdealStep(m, f, sent).1
  {
    assert sent[f.id] != [];
    hide WellSent, Agrees, Add, Gathers;
    var a1, done := AddAgrees(a, m, f, sent);
    if done {
      AssemblyComplete(a1, sent[f.id]);
      a', out := Assembly([], f.id, 0, -1), Some(Concat(sent[f.id]));
      EmptyGathers(a', sent);
    } else {
      a', out := a1, None;
      AgreesAfter(a1, sent);
    }
  }

  lemma EmptyGathers(a: Assembly, sent: Sent)
    requires a == Assembly([], a.currentId, 0, -1) && a.currentId in sent
    ensures Agrees(a, Ideal(a.currentId, {}), sent)
  {
    assert Have(a) == {};
  }

  lemma AgreesAfter(a: Assembly, sent: Sent)
    requires a.currentId in sent && Gathers(a, sent[a.currentId])
    ensures Agrees(a, Ideal(a.currentId, Have(a)), sent)
  {
  }

  function ReceiveAll(a: Assembly, fs: seq<Fragment>): Outcome<(Assembly, seq<Option<Payload>>)> {
    if fs == [] then Ok((a, []))
    else
      var (a1, outs) :- ReceiveAll(a, fs[..|fs| - 1]);
      var (a2, out) :- Receive(a1, fs[|fs| - 1]);
      Ok((a2, outs + [out]))
  }

  function IdealAll(m: Ideal, fs: seq<Fragment>, sent: Sent): (r: (Ideal, seq<Option<Payload>>))
    requires forall i | 0 <= i < |fs| :: Genuine(fs[i], sent)
    ensures |r.1| == |fs|
  {
    if fs == [] then (m, [])
    else
      var (m1, outs) := IdealAll(m, fs[..|fs| - 1], sent);
      assert Genuine(fs[|fs| - 1], sent);
      var (m2, out) := IdealStep(m1, fs[|fs| - 1], sent);
      (m2, outs + [out])
  }

  /** For any interleaving, reordering and duplication of the fragments of any number of
      instructions, reassembly never fails an assertion and its outputs are those of the ideal
      reassembler; in particular every output is the payload of the fragment's own instruction. */
  lemma {:induction false} ReassemblyIsIdeal(fs: seq<Fragment>, sent: Sent)
    returns (a: Assembly, outs: seq<Option<Payload>>)
    requires WellSent(sent) && forall i | 0 <= i < |fs| :: Genuine(fs[i], sent)
    ensures ReceiveAll(EMPTY_ASSEMBLY, fs) == Ok((a, outs))
    ensures |outs| == |fs| && outs == IdealAll(Ideal(MAX_ID - 1, {}), fs, sent).1
    ensures Agrees(a, IdealAll(Ideal(MAX_ID - 1, {}), fs, sent).0, sent)
    ensures forall i | 0 <= i < |fs| && outs[i].Some? :: fs[i].id in sent && outs[i].value == Concat(sent[fs[i].id])
  {
    hide WellSent, Agrees, Receive, IdealStep, Genuine;
    var start := Ideal(MAX_ID - 1, {});
    if fs == [] {
      a, outs := EMPTY_ASSEMBLY, [];
      InitiallyAgrees(sent);
    } else {
      var init, last := fs[..|fs| - 1], fs[|fs| - 1];
      var a1, outs1 := ReassemblyIsIdeal(init, sent);
      var out;
      a, out := ReceiveAgrees(a1, IdealAll(start, init, sent).0, last, sent);
      outs := outs1 + [out];
      OutputIsPayload(IdealAll(start, init, sent).0, last, sent);
    }
  }

  lemma InitiallyAgrees(sent: Sent)
    ensures Agrees(EMPTY_ASSEMBLY, Ideal(MAX_ID - 1, {}), sent)
  {
    assert Have(EMPTY_ASSEMBLY) == {};
  }

  lemma OutputIsPayload(m: Ideal, f: Fragment, sent: Sent)
    requires Genuine(f, sent)
    ensures f.id in sent
    ensures IdealStep(m, f, sent).1.Some? ==> IdealStep(m, f, sent).1.value == Concat(sent[f.id])
  {
  }

  function Nums(fs: seq<Fragment>): set<nat> {
    set i | 0 <= i < |fs| :: fs[i].num
  }

  /** In the ideal reassembler, an id that is not interrupted completes when its last distinct fragment arrives. */
  lemma {:induction false} IdealCompletes(m: Ideal, fs: seq<Fragment>, id: nat, sent: Sent)
    requires id in sent && fs != [] && (m.id != id || m.have == {})
    requires forall i | 0 <= i < |fs| :: Genuine(fs[i], sent) && fs[i].id == id
    requires forall n | 0 < n < |fs| :: Nums(fs[..n]) != Range(|sent[id]|)
    ensures IdealAll(m, fs, sent).1[|fs| - 1] ==
            if Nums(fs) == Range(|sent[id]|) then Some(Concat(sent[id])) else None
    ensures forall i | 0 <= i < |fs| - 1 :: IdealAll(m, fs, sent).1[i] == None
    ensures Nums(fs) != Range(|sent[id]|) ==> IdealAll(m, fs, sent).0 == Ideal(id, Nums(fs))
  {
    var init, last := fs[..|fs| - 1], fs[|fs| - 1];
    assert Nums(fs) == Nums(init) + {last.num};
    if init == [] {
      assert Nums(init) == {};
    } else {
      forall n | 0 < n < |init| ensures Nums(init[..n]) != Range(|sent[id]|) {
        assert init[..n] == fs[..n];
      }
      IdealCompletes(m, init, id, sent);
    }
  }

  lemma {:induction false} IdealJoins(m: Ideal, a: seq<Fragment>, b: seq<Fragment>, sent: Sent)
    requires forall i | 0 <= i < |a + b| :: Genuine((a + b)[i], sent)
    requires (forall i | 0 <= i < |a| :: Genuine(a[i], sent)) && (forall i | 0 <= i < |b| :: Genuine(b[i], sent))
    ensures var m1 := IdealAll(m, a, sent).0;
      IdealAll(m, a + b, sent) == (IdealAll(m1, b, sent).0, IdealAll(m, a, sent).1 + IdealAll(m1, b, sent).1)
    decreases |b|
  {
    hide Genuine, IdealStep;
    if b == [] {
      assert a + b == a && IdealAll(m, a, sent).1 + [] == IdealAll(m, a, sent).1;
    } else {
      var init := b[..|b| - 1];
      assert (a + b)[..|a + b| - 1] == a + init;
      assert (a + b)[|a + b| - 1] == b[|b| - 1];
      IdealJoins(m, a, init, sent);
      var m1 := IdealAll(m, a, sent).0;
      var out := IdealStep(IdealAll(m1, init, sent).0, b[|b| - 1], sent).1;
      var x, y := IdealAll(m, a, sent).1, IdealAll(m1, init, sent).1;
      assert (x + y) + [out] == x + (y + [out]);
    }
  }

  lemma IdealEnds(m: Ideal, fs: seq<Fragment>, sent: Sent)
    requires forall i | 0 <= i < |fs| :: Genuine(fs[i], sent)
    ensures IdealAll(m, fs, sent).0.id == if fs == [] then m.id else fs[|fs| - 1].id
    ensures fs == [] ==> IdealAll(m, fs, sent).0 == m
  {
  }

  /** Whatever arrived before, fragments of one id in a row, the one before them of another id, complete it exactly
      when the last missing one arrives: then its payload comes out, and not before. */
  lemma UninterruptedCompletes(before: seq<Fragment>, fs: seq<Fragment>, id: nat, sent: Sent)
    returns (a: Assembly, outs: seq<Option<Payload>>)
    requires WellSent(sent) && id in sent && fs != []
    requires forall i | 0 <= i < |before| :: Genuine(before[i], sent)
    requires forall i | 0 <= i < |fs| :: Genuine(fs[i], sent) && fs[i].id == id
    requires before != [] ==> before[|before| - 1].id != id
    requires forall n | 0 < n < |fs| :: Nums(fs[..n]) != Range(|sent[id]|)
    ensures ReceiveAll(EMPTY_ASSEMBLY, before + fs) == Ok((a, outs)) && |outs| == |before| + |fs|
    ensures forall i | |before| <= i < |outs| - 1 :: outs[i] == None
    ensures outs[|outs| - 1] == if Nums(fs) == Range(|sent[id]|) then Some(Concat(sent[id])) else None
  {
    hide WellSent, Genuine, IdealStep, Nums, Range, IdealAll, ReceiveAll;
    var start := Ideal(MAX_ID - 1, {});
    a, outs := ReassemblyIsIdeal(before + fs, sent);
    IdealJoins(start, before, fs, sent);
    IdealEnds(start, before, sent);
    IdealCompletes(IdealAll(start, before, sent).0, fs, id, sent);
  }

  // ---- from one end to the other ----

  /** Every fragment has a form on the wire. */
  predicate AllFit(fs: seq<Fragment>) {
    forall i | 0 <= i < |fs| :: ToWire(fs[i]).Ok?
  }

  /** The wire has 15 bits for the number of a fragment. */
  lemma AllFitIff(fs: seq<Fragment>, id: nat, total: nat, chunk: nat)
    requires 0 < chunk && Chunked(fs, id, chunk, true) && Sized(|fs|, chunk, total, 0)
    ensures AllFit(fs) <==> total <= MAX_FRAGMENTS * chunk
  {
    hide ToBytes;
    if |fs| <= MAX_FRAGMENTS {
      Times(|fs|, MAX_FRAGMENTS, chunk);
    } else {
      Times(MAX_FRAGMENTS, |fs| - 1, chunk);
      assert ToWire(fs[MAX_FRAGMENTS]) == AssertFailed;
    }
  }

  lemma SplitIsSent(fs: seq<Fragment>, id: nat, payload: Payload)
    requires Splits(fs, id, payload) && fs != []
    ensures WellSent(map[id := fs]) && forall i | 0 <= i < |fs| :: Genuine(fs[i], map[id := fs]) && fs[i].id == id
  {
  }

  lemma PrefixNums(fs: seq<Fragment>, n: nat)
    requires n <= |fs| && forall i | 0 <= i < |fs| :: fs[i].num == i
    ensures Nums(fs[..n]) == Range(n)
  {
    forall k: nat ensures k in Nums(fs[..n]) <==> k < n {
      if k < n {
        assert fs[..n][k].num == k;
      }
    }
  }

  /** The fragments of an instruction, received in order, give its payload at the last one, and nothing before. */
  lemma SplitArrives(fs: seq<Fragment>, id: nat, payload: Payload)
    returns (a: Assembly, outs: seq<Option<Payload>>)
    requires Splits(fs, id, payload) && fs != []
    ensures ReceiveAll(EMPTY_ASSEMBLY, fs) == Ok((a, outs)) && |outs| == |fs|
    ensures outs[|outs| - 1] == Some(payload) && forall i | 0 <= i < |outs| - 1 :: outs[i] == None
  {
    hide WellSent, Genuine, ReceiveAll, Nums, Range, Splits, Concat;
    var sent: Sent := map[id := fs];
    SplitIsSent(fs, id, payload);
    SplitNums(fs, id, payload);
    assert [] + fs == fs;
    a, outs := UninterruptedCompletes([], fs, id, sent);
  }

  /** Only all fragments together have all the numbers. */
  lemma SplitNums(fs: seq<Fragment>, id: nat, payload: Payload)
    requires Splits(fs, id, payload)
    ensures Nums(fs) == Range(|fs|) && Concat(fs) == payload
    ensures forall n | 0 < n < |fs| :: Nums(fs[..n]) != Range(|fs|)
  {
    hide Nums, Range;
    forall n | 0 < n < |fs| ensures Nums(fs[..n]) != Range(|fs|) {
      PrefixNums(fs, n);
      RangeSize(n);
      RangeSize(|fs|);
    }
    PrefixNums(fs, |fs|);
    assert fs[..|fs|] == fs;
  }

  /** What the other end decodes. */
  function Decoded(fs: seq<Fragment>): (r: seq<Fragment>)
    requires AllFit(fs) && forall i | 0 <= i < |fs| :: FromWire(ToWire(fs[i]).value).Ok?
    ensures |r| == |fs|
  {
    seq(|fs|, i requires 0 <= i < |fs| => FromWire(ToWire(fs[i]).value).value)
  }

  lemma DecodedIsSame(fs: seq<Fragment>)
    requires AllFit(fs) && forall i | 0 <= i < |fs| :: fs[i].id < MAX_ID
    ensures forall i | 0 <= i < |fs| :: FromWire(ToWire(fs[i]).value) == Ok(fs[i])
    ensures Decoded(fs) == fs
  {
    forall i | 0 <= i < |fs| ensures FromWire(ToWire(fs[i]).value) == Ok(fs[i]) {
      WireRoundTrip(fs[i]);
    }
  }

  /**
   * From one end to the other: an instruction is cut, its fragments are encoded, decoded and put together. All
   * fragments fit the wire exactly for payloads of up to 32768 full fragments, and then the payload arrives.
   */
  method SendAndReceive(fragmenter: Fragmenter, payload: Payload, mtu: int)
    returns (fs: seq<Fragment>, ghost outs: seq<Option<Payload>>)
    requires mtu > HEADER_LEN && payload != [] && fragmenter.nextInstructionId + 1 < MAX_ID
    modifies fragmenter
    ensures AllFit(fs) <==> |payload| <= MAX_FRAGMENTS * (mtu - HEADER_LEN)
    ensures AllFit(fs) ==>
      && (forall i | 0 <= i < |fs| :: FromWire(ToWire(fs[i]).value).Ok?)
      && ReceiveAll(EMPTY_ASSEMBLY, Decoded(fs)).Ok?
      && outs == ReceiveAll(EMPTY_ASSEMBLY, Decoded(fs)).value.1
      && 0 < |outs| == |fs| && outs[|outs| - 1] == Some(payload) && forall i | 0 <= i < |outs| - 1 :: outs[i] == None
  {
    hide AllFit, ReceiveAll, Chunked, Sized, Splits, Decoded, ToWire, FromWire;
    fs := fragmenter.MakeFragments(payload, mtu);
    outs := [];
    AllFitIff(fs, fragmenter.nextInstructionId, |payload|, mtu - HEADER_LEN);
    if AllFit(fs) {
      Times(MAX_FRAGMENTS, 0x1_0000, mtu - HEADER_LEN);
      ghost var a;
      a, outs := SplitArrives(fs, fragmenter.nextInstructionId, payload);
      SplitIds(fs, fragmenter.nextInstructionId, payload);
      DecodedIsSame(fs);
    }
  }

  lemma SplitIds(fs: seq<Fragment>, id: nat, payload: Payload)
    requires Splits(fs, id, payload)
    ensures forall i | 0 <= i < |fs| :: fs[i].id == id
  {
  }
}
