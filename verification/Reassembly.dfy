/**
 * Reassembly of fragmented packets with a list of holes (alfalfa/src/network/reassembly.cc),
 * after section 3 of RFC 815.
 */
module Reassemblies {
  import opened Bytes

  const BUFFER_SIZE: nat := 1600

  /** The positions from first to last, both included. */
  datatype Hole = Hole(first: int, last: int)

  /** A packet and where it is cut: piece k holds the positions from cuts[k] up to cuts[k + 1]. */
  datatype Source = Source(data: seq<Byte>, cuts: seq<nat>)

  predicate SourceOk(s: Source) {
    && 0 < |s.data| <= BUFFER_SIZE
    && 2 <= |s.cuts| && s.cuts[0] == 0 && s.cuts[|s.cuts| - 1] == |s.data|
    && forall i, j | 0 <= i < j < |s.cuts| :: s.cuts[i] < s.cuts[j]
  }

  predicate IsPiece(s: Source, k: int) {
    0 <= k < |s.cuts| - 1
  }

  predicate InPiece(s: Source, k: int, p: int) {
    IsPiece(s, k) && s.cuts[k] <= p < s.cuts[k + 1]
  }

  predicate IsLast(s: Source, k: int) {
    k == |s.cuts| - 2
  }

  /** A fragment that is piece k. */
  predicate Genuine(s: Source, k: int, offset: nat, payload: seq<Byte>, more: bool) {
    && SourceOk(s) && IsPiece(s, k)
    && offset == s.cuts[k] && s.cuts[k + 1] <= |s.data| && offset <= s.cuts[k + 1]
    && payload == s.data[offset..s.cuts[k + 1]]
    && more == !IsLast(s, k)
  }

  /** Not in any piece that arrived; beyond the end only while the last piece is missing. */
  predicate Missing(s: Source, arrived: set<int>, p: int) {
    && 0 <= p <= BUFFER_SIZE
    && (forall k | k in arrived :: !InPiece(s, k, p))
    && (p >= |s.data| ==> |s.cuts| - 2 !in arrived)
  }

  predicate Within(h: Hole, p: int) {
    h.first <= p <= h.last
  }

  predicate Covered(holes: seq<Hole>, p: int) {
    exists i | 0 <= i < |holes| :: Within(holes[i], p)
  }

  predicate Apart(a: Hole, b: Hole) {
    a.last + 1 < b.first || b.last + 1 < a.first
  }

  /** Holes are not empty, lie in range, and are neither overlapping nor adjacent. */
  predicate HolesOk(holes: seq<Hole>) {
    && (forall i | 0 <= i < |holes| :: 0 <= holes[i].first <= holes[i].last <= BUFFER_SIZE)
    && (forall i, j | 0 <= i < j < |holes| :: Apart(holes[i], holes[j]))
  }

  /** The holes are exactly the missing positions, and what arrived is in the buffer. */
  ghost predicate Tracks(s: Source, arrived: set<int>, holes: seq<Hole>, buffer: seq<Byte>) {
    && SourceOk(s)
    && (forall k | k in arrived :: IsPiece(s, k))
    && HolesOk(holes)
    && (forall p :: Covered(holes, p) <==> Missing(s, arrived, p))
    && |buffer| == BUFFER_SIZE
    && (forall p | 0 <= p < |s.data| && !Missing(s, arrived, p) :: buffer[p] == s.data[p])
  }

  lemma {:induction false} PieceOf(s: Source, p: int, n: nat) returns (k: int)
    requires SourceOk(s) && n < |s.cuts| && 0 <= p < s.cuts[n]
    ensures InPiece(s, k, p) && k < n
  {
    if p >= s.cuts[n - 1] {
      k := n - 1;
    } else {
      k := PieceOf(s, p, n - 1);
    }
  }

  lemma PiecesDisjoint(s: Source, j: int, k: int, p: int)
    requires SourceOk(s) && InPiece(s, j, p) && InPiece(s, k, p)
    ensures j == k
  {
  }

  lemma InitiallyTracks(s: Source)
    requires SourceOk(s)
    ensures Tracks(s, {}, [Hole(0, BUFFER_SIZE)], seq(BUFFER_SIZE, _ => 0))
  {
    var holes := [Hole(0, BUFFER_SIZE)];
    forall p ensures Covered(holes, p) <==> Missing(s, {}, p) {
      if 0 <= p <= BUFFER_SIZE {
        assert Within(holes[0], p);
      }
    }
  }

  ghost predicate Complete(s: Source, arrived: set<int>) {
    forall k | IsPiece(s, k) :: k in arrived
  }

  /** No hole is left exactly when every piece arrived, and then the buffer starts with the packet. */
  lemma CompleteIff(s: Source, arrived: set<int>, holes: seq<Hole>, buffer: seq<Byte>)
    requires Tracks(s, arrived, holes, buffer)
    ensures holes == [] <==> Complete(s, arrived)
    ensures holes == [] ==> s.data <= buffer
  {
    if holes == [] {
      forall k | IsPiece(s, k) ensures k in arrived {
        assert s.cuts[k] < s.cuts[k + 1] && s.cuts[k] < |s.data| by { CutBelow(s, k); }
        assert !Covered(holes, s.cuts[k]);
        assert !Missing(s, arrived, s.cuts[k]);
        var j :| j in arrived && InPiece(s, j, s.cuts[k]);
        PiecesDisjoint(s, j, k, s.cuts[k]);
      }
      forall p | 0 <= p < |s.data| ensures buffer[p] == s.data[p] {
        assert !Covered(holes, p);
      }
    } else if Complete(s, arrived) {
      var p := holes[0].first;
      assert Within(holes[0], p);
      assert Covered(holes, p) && Missing(s, arrived, p);
      assert IsPiece(s, |s.cuts| - 2);
      var k := PieceOf(s, p, |s.cuts| - 1);
      assert false;
    }
  }

  lemma CutBelow(s: Source, k: int)
    requires SourceOk(s) && IsPiece(s, k)
    ensures 0 <= s.cuts[k] < s.cuts[k + 1] <= |s.data|
  {
    if k + 1 < |s.cuts| - 1 {
      assert s.cuts[k + 1] < s.cuts[|s.cuts| - 1];
    }
  }

  // ---------------------------------------------------------------- one more piece

  /** A hole and a fragment from a to b have a position in common. */
  predicate Overlaps(h: Hole, a: int, b: int) {
    !(a > h.last || b < h.first)
  }

  lemma PieceIsMissing(s: Source, arrived: set<int>, k: int, p: int)
    requires SourceOk(s) && k !in arrived && InPiece(s, k, p)
    ensures Missing(s, arrived, p)
  {
    CutBelow(s, k);
    forall j | j in arrived ensures !InPiece(s, j, p) {
      if InPiece(s, j, p) {
        PiecesDisjoint(s, j, k, p);
      }
    }
  }

  /** Two holes with no gap between them cannot both be there. */
  lemma HoleReaches(holes: seq<Hole>, j: int, b: int)
    requires HolesOk(holes) && 0 <= j < |holes| && holes[j].first <= b
    requires forall p | holes[j].first <= p <= b :: Covered(holes, p)
    ensures b <= holes[j].last
  {
    NothingFollows(holes, j);
  }

  lemma NothingFollows(holes: seq<Hole>, j: int)
    requires HolesOk(holes) && 0 <= j < |holes|
    ensures !Covered(holes, holes[j].last + 1)
  {
    forall i | 0 <= i < |holes| ensures !Within(holes[i], holes[j].last + 1) {
      assert i < j ==> Apart(holes[i], holes[j]);
      assert j < i ==> Apart(holes[j], holes[i]);
    }
  }

  /** A piece that did not arrive lies in one hole; if it is the last piece, that hole reaches the end. */
  lemma PieceInHole(s: Source, arrived: set<int>, holes: seq<Hole>, buffer: seq<Byte>, k: int) returns (j: int)
    requires Tracks(s, arrived, holes, buffer) && IsPiece(s, k) && k !in arrived
    ensures 0 <= j < |holes| && holes[j].first <= s.cuts[k] && s.cuts[k + 1] - 1 <= holes[j].last
    ensures IsLast(s, k) ==> holes[j].last == BUFFER_SIZE
  {
    CutBelow(s, k);
    var a, b := s.cuts[k], s.cuts[k + 1] - 1;
    PieceIsMissing(s, arrived, k, a);
    assert Covered(holes, a);
    j :| 0 <= j < |holes| && Within(holes[j], a);
    var end := if IsLast(s, k) then BUFFER_SIZE else b;
    forall p | holes[j].first <= p <= end ensures Covered(holes, p) {
      if p <= a {
        assert Within(holes[j], p);
      } else if p <= b {
        PieceIsMissing(s, arrived, k, p);
      } else {
        BeyondIsMissing(s, arrived, p);
      }
    }
    HoleReaches(holes, j, end);
  }

  lemma BeyondIsMissing(s: Source, arrived: set<int>, p: int)
    requires SourceOk(s) && |s.cuts| - 2 !in arrived && |s.data| <= p <= BUFFER_SIZE
    requires forall k | k in arrived :: IsPiece(s, k)
    ensures Missing(s, arrived, p)
  {
    forall k | k in arrived ensures !InPiece(s, k, p) {
      CutBelow(s, k);
    }
  }

  /** The list once hole j has been replaced by what the fragment leaves of it. */
  function Punched(holes: seq<Hole>, j: nat, a: int, b: int, more: bool): seq<Hole>
    requires j < |holes|
  {
    holes[..j] + holes[j + 1..]
    + (if a > holes[j].first then [Hole(holes[j].first, a - 1)] else [])
    + (if b < holes[j].last && more then [Hole(b + 1, holes[j].last)] else [])
  }

  lemma PunchedCovers(holes: seq<Hole>, j: nat, a: int, b: int, more: bool, p: int)
    requires j < |holes| && HolesOk(holes) && holes[j].first <= a <= b <= holes[j].last
    requires !more ==> holes[j].last == BUFFER_SIZE
    ensures Covered(Punched(holes, j, a, b, more), p)
        <==> Covered(holes, p) && !(a <= p <= b) && (more || p < a || !Within(holes[j], p))
  {
    var n := Punched(holes, j, a, b, more);
    var rest := holes[..j] + holes[j + 1..];
    var left := if a > holes[j].first then [Hole(holes[j].first, a - 1)] else [];
    var right := if b < holes[j].last && more then [Hole(b + 1, holes[j].last)] else [];
    assert n == rest + left + right;
    CoveredJoin(rest + left, right, p);
    CoveredJoin(rest, left, p);
    CoveredJoin(holes[..j], holes[j + 1..], p);
    CoveredSplit(holes, j, p);
    CoveredOne(left, p);
    CoveredOne(right, p);
    if Covered(rest, p) {
      OthersApart(holes, j, p);
    }
  }

  lemma CoveredJoin(x: seq<Hole>, y: seq<Hole>, p: int)
    ensures Covered(x + y, p) <==> Covered(x, p) || Covered(y, p)
  {
    if Covered(x, p) {
      var i :| 0 <= i < |x| && Within(x[i], p);
      assert Within((x + y)[i], p);
    }
    if Covered(y, p) {
      var i :| 0 <= i < |y| && Within(y[i], p);
      assert Within((x + y)[|x| + i], p);
    }
  }

  lemma CoveredOne(x: seq<Hole>, p: int)
    requires |x| <= 1
    ensures Covered(x, p) <==> x != [] && Within(x[0], p)
  {
  }

  lemma CoveredSplit(holes: seq<Hole>, j: nat, p: int)
    requires j < |holes|
    ensures Covered(holes, p) <==> Covered(holes[..j] + holes[j + 1..], p) || Within(holes[j], p)
  {
    assert holes == holes[..j] + [holes[j]] + holes[j + 1..];
    CoveredJoin(holes[..j] + [holes[j]], holes[j + 1..], p);
    CoveredJoin(holes[..j], [holes[j]], p);
    CoveredJoin(holes[..j], holes[j + 1..], p);
    CoveredOne([holes[j]], p);
  }

  lemma OthersApart(holes: seq<Hole>, j: nat, p: int)
    requires j < |holes| && HolesOk(holes) && Covered(holes[..j] + holes[j + 1..], p)
    ensures !Within(holes[j], p)
  {
    var rest := holes[..j] + holes[j + 1..];
    var i :| 0 <= i < |rest| && Within(rest[i], p);
    if i < j {
      assert rest[i] == holes[i] && Apart(holes[i], holes[j]);
    } else {
      assert rest[i] == holes[i + 1] && Apart(holes[j], holes[i + 1]);
    }
  }

  lemma ApartMore(x: seq<Hole>, h: Hole)
    requires HolesOk(x) && 0 <= h.first <= h.last <= BUFFER_SIZE
    requires forall i | 0 <= i < |x| :: Apart(x[i], h)
    ensures HolesOk(x + [h])
  {
  }

  lemma RestOk(holes: seq<Hole>, j: nat)
    requires HolesOk(holes) && j < |holes|
    ensures HolesOk(holes[..j] + holes[j + 1..])
    ensures var rest := holes[..j] + holes[j + 1..]; forall i | 0 <= i < |rest| :: Apart(rest[i], holes[j])
  {
    var rest := holes[..j] + holes[j + 1..];
    forall i | 0 <= i < |rest| ensures Apart(rest[i], holes[j]) {
      if i < j {
        assert rest[i] == holes[i] && Apart(holes[i], holes[j]);
      } else {
        assert rest[i] == holes[i + 1] && Apart(holes[j], holes[i + 1]);
      }
    }
    forall i, k | 0 <= i < k < |rest| ensures Apart(rest[i], rest[k]) {
      var i1, k1 := if i < j then i else i + 1, if k < j then k else k + 1;
      assert rest[i] == holes[i1] && rest[k] == holes[k1] && Apart(holes[i1], holes[k1]);
    }
  }

  lemma PunchedOk(holes: seq<Hole>, j: nat, a: int, b: int, more: bool)
    requires j < |holes| && HolesOk(holes) && holes[j].first <= a <= b <= holes[j].last
    ensures HolesOk(Punched(holes, j, a, b, more))
  {
    hide HolesOk;
    var h := holes[j];
    assert 0 <= h.first <= h.last <= BUFFER_SIZE by { HoleInRange(holes, j); }
    var rest := holes[..j] + holes[j + 1..];
    RestOk(holes, j);
    var l := Hole(h.first, a - 1);
    var first := rest + if a > h.first then [l] else [];
    if a > h.first {
      ApartMore(rest, l);
    } else {
      assert first == rest;
    }
    var r := Hole(b + 1, h.last);
    if b < h.last && more {
      ApartMore(first, r);
      assert Punched(holes, j, a, b, more) == first + [r];
    } else {
      assert Punched(holes, j, a, b, more) == first;
    }
  }

  lemma HoleInRange(holes: seq<Hole>, j: int)
    requires HolesOk(holes) && 0 <= j < |holes|
    ensures 0 <= holes[j].first <= holes[j].last <= BUFFER_SIZE
  {
  }

  /** Writing at an offset. */
  function Overwritten(buffer: seq<Byte>, offset: nat, payload: seq<Byte>): (r: seq<Byte>)
    requires offset + |payload| <= |buffer|
    ensures |r| == |buffer|
  {
    buffer[..offset] + payload + buffer[offset + |payload|..]
  }

  /** A genuine piece that overlaps hole j lies in it; punching it out tracks the piece. */
  lemma PieceArrives(s: Source, arrived: set<int>, holes: seq<Hole>, buffer: seq<Byte>, k: int,
                     offset: nat, payload: seq<Byte>, more: bool, j: nat)
    requires Tracks(s, arrived, holes, buffer) && Genuine(s, k, offset, payload, more)
    requires j < |holes| && Overlaps(holes[j], offset, offset + |payload| - 1)
    ensures offset + |payload| <= |buffer|
    ensures Tracks(s, arrived + {k}, Punched(holes, j, offset, offset + |payload| - 1, more),
                   Overwritten(buffer, offset, payload))
  {
    hide HolesOk, Punched;
    CutBelow(s, k);
    var a, b := offset, offset + |payload| - 1;
    assert k !in arrived by { OverlapIsNew(s, arrived, holes, buffer, k, j, a, b); }
    var i := PieceInHole(s, arrived, holes, buffer, k);
    assert i == j by { OneHole(holes, i, j, a, b); }
    PunchedOk(holes, j, a, b, more);
    var n := Punched(holes, j, a, b, more);
    forall p ensures Covered(n, p) <==> Missing(s, arrived + {k}, p) {
      PunchedCovers(holes, j, a, b, more, p);
      MissingLess(s, arrived, holes, buffer, k, j, p);
    }
    forall p | 0 <= p < |s.data| && !Missing(s, arrived + {k}, p)
      ensures Overwritten(buffer, offset, payload)[p] == s.data[p]
    {
      MissingLess(s, arrived, holes, buffer, k, j, p);
    }
  }

  /** What is missing once piece k arrived. */
  lemma MissingLess(s: Source, arrived: set<int>, holes: seq<Hole>, buffer: seq<Byte>, k: int, j: nat, p: int)
    requires Tracks(s, arrived, holes, buffer) && IsPiece(s, k) && j < |holes|
    requires holes[j].first <= s.cuts[k] <= s.cuts[k + 1] - 1 <= holes[j].last
    requires IsLast(s, k) ==> holes[j].last == BUFFER_SIZE
    ensures Missing(s, arrived + {k}, p)
        <==> && Missing(s, arrived, p) && !(s.cuts[k] <= p <= s.cuts[k + 1] - 1)
             && (!IsLast(s, k) || p < s.cuts[k] || !Within(holes[j], p))
  {
    CutBelow(s, k);
    if Missing(s, arrived, p) {
      assert Covered(holes, p);
      if IsLast(s, k) && p >= |s.data| {
        assert Within(holes[j], p);
      }
    }
  }

  lemma OneHole(holes: seq<Hole>, i: int, j: int, a: int, b: int)
    requires HolesOk(holes) && 0 <= i < |holes| && 0 <= j < |holes|
    requires holes[i].first <= a <= b <= holes[i].last && Overlaps(holes[j], a, b)
    ensures i == j
  {
  }

  lemma OverlapIsNew(s: Source, arrived: set<int>, holes: seq<Hole>, buffer: seq<Byte>, k: int, j: nat, a: int, b: int)
    requires Tracks(s, arrived, holes, buffer) && IsPiece(s, k) && a == s.cuts[k] && b == s.cuts[k + 1] - 1
    requires j < |holes| && Overlaps(holes[j], a, b)
    ensures k !in arrived
  {
    CutBelow(s, k);
    var p := if holes[j].first <= a then a else holes[j].first;
    assert Within(holes[j], p);
    assert Covered(holes, p) && InPiece(s, k, p);
  }

  /** A piece that overlaps no hole is a duplicate: nothing changes. */
  lemma DuplicateArrives(s: Source, arrived: set<int>, holes: seq<Hole>, buffer: seq<Byte>, k: int,
                         offset: nat, payload: seq<Byte>, more: bool)
    requires Tracks(s, arrived, holes, buffer) && Genuine(s, k, offset, payload, more)
    requires forall i | 0 <= i < |holes| :: !Overlaps(holes[i], offset, offset + |payload| - 1)
    ensures k in arrived && arrived + {k} == arrived
    ensures offset + |payload| <= |buffer| && Tracks(s, arrived, holes, Overwritten(buffer, offset, payload))
  {
    CutBelow(s, k);
    if k !in arrived {
      var j := PieceInHole(s, arrived, holes, buffer, k);
      assert false;
    }
  }

  /** Once a piece was punched out, no hole overlaps it. */
  lemma NoOverlapLeft(s: Source, arrived: set<int>, holes: seq<Hole>, buffer: seq<Byte>, k: int, a: int, b: int)
    requires Tracks(s, arrived, holes, buffer) && IsPiece(s, k) && k in arrived
    requires a == s.cuts[k] && b == s.cuts[k + 1] - 1
    ensures forall i | 0 <= i < |holes| :: !Overlaps(holes[i], a, b)
  {
    forall i | 0 <= i < |holes| ensures !Overlaps(holes[i], a, b) {
      if Overlaps(holes[i], a, b) {
        OverlapIsNew(s, arrived, holes, buffer, k, i, a, b);
        assert false;
      }
    }
  }

  // ---------------------------------------------------------------- the walk over any holes

  /** What a fragment leaves of a hole it overlaps. */
  function Cut(h: Hole, a: int, b: int, more: bool): seq<Hole> {
    (if a > h.first then [Hole(h.first, a - 1)] else []) + (if b < h.last && more then [Hole(b + 1, h.last)] else [])
  }

  lemma PunchedIsCut(holes: seq<Hole>, j: nat, a: int, b: int, more: bool)
    requires j < |holes|
    ensures Punched(holes, j, a, b, more) == holes[..j] + holes[j + 1..] + Cut(holes[j], a, b, more)
  {
  }

  /** How many holes from i on the fragment overlaps. */
  function Overlapped(holes: seq<Hole>, i: nat, a: int, b: int): nat
    requires i <= |holes|
    decreases |holes| - i
  {
    if i == |holes| then 0 else (if Overlaps(holes[i], a, b) then 1 else 0) + Overlapped(holes, i + 1, a, b)
  }

  lemma {:induction false} OverlappedJoin(x: seq<Hole>, y: seq<Hole>, i: nat, a: int, b: int)
    requires i <= |x|
    ensures Overlapped(x + y, i, a, b) == Overlapped(x, i, a, b) + Overlapped(y, 0, a, b)
    decreases |x| - i
  {
    if i < |x| {
      OverlappedJoin(x, y, i + 1, a, b);
    } else {
      OverlappedShift(x, y, 0, a, b);
    }
  }

  lemma {:induction false} OverlappedShift(x: seq<Hole>, y: seq<Hole>, i: nat, a: int, b: int)
    requires i <= |y|
    ensures Overlapped(x + y, |x| + i, a, b) == Overlapped(y, i, a, b)
    decreases |y| - i
  {
    if i < |y| {
      OverlappedShift(x, y, i + 1, a, b);
    }
  }

  predicate Clear(holes: seq<Hole>, a: int, b: int) {
    forall i | 0 <= i < |holes| :: !Overlaps(holes[i], a, b)
  }

  lemma {:induction false} ClearCounts(holes: seq<Hole>, i: nat, a: int, b: int)
    requires i <= |holes| && Clear(holes, a, b)
    ensures Overlapped(holes, i, a, b) == 0
    decreases |holes| - i
  {
    if i < |holes| {
      ClearCounts(holes, i + 1, a, b);
    }
  }

  lemma CutIsClear(h: Hole, a: int, b: int, more: bool)
    ensures Clear(Cut(h, a, b, more), a, b)
  {
  }

  /** The walk after hole i was taken: it goes on with the hole after the next, and with fewer left to take. */
  lemma WalkShrinks(holes: seq<Hole>, i: nat, a: int, b: int, more: bool)
    requires i < |holes| && Overlaps(holes[i], a, b)
    ensures i + 1 <= |Punched(holes, i, a, b, more)| ==>
      Overlapped(Punched(holes, i, a, b, more), i + 1, a, b) < Overlapped(holes, i, a, b)
  {
    hide Overlaps, Cut;
    var rest := holes[..i] + holes[i + 1..];
    PunchedIsCut(holes, i, a, b, more);
    CutIsClear(holes[i], a, b, more);
    if i + 1 <= |rest| {
      ClearCounts(Cut(holes[i], a, b, more), 0, a, b);
      OverlappedJoin(rest, Cut(holes[i], a, b, more), i + 1, a, b);
      OverlappedShift(holes[..i], holes[i + 1..], 1, a, b);
      OverlappedShift(holes[..i + 1], holes[i + 1..], 1, a, b);
      assert holes[..i + 1] + holes[i + 1..] == holes;
    } else if i + 1 <= |Punched(holes, i, a, b, more)| {
      assert rest == holes[..i];
      OverlappedShift(rest, Cut(holes[i], a, b, more), 1, a, b);
      ClearCounts(Cut(holes[i], a, b, more), 1, a, b);
    }
  }

  /** Every hole in turn; one the fragment overlaps is taken out and what is left of it goes to the end, and the hole
      that moves into its place is passed over. */
  function Walk(holes: seq<Hole>, i: nat, a: int, b: int, more: bool): seq<Hole>
    requires i <= |holes|
    decreases Overlapped(holes, i, a, b), |holes| - i
  {
    if i == |holes| then holes
    else if !Overlaps(holes[i], a, b) then Walk(holes, i + 1, a, b, more)
    else
      var next := Punched(holes, i, a, b, more);
      WalkShrinks(holes, i, a, b, more);
      if i + 1 <= |next| then Walk(next, i + 1, a, b, more) else next
  }

  /** Two holes next to each other that the fragment overlaps. */
  predicate Neighbours(holes: seq<Hole>, i: int, a: int, b: int) {
    0 <= i < |holes| - 1 && Overlaps(holes[i], a, b) && Overlaps(holes[i + 1], a, b)
  }

  /** What was passed over and does overlap stays. */
  lemma {:induction false} PassedStays(holes: seq<Hole>, i: nat, a: int, b: int, more: bool, k: nat)
    requires k < i <= |holes| && Overlaps(holes[k], a, b)
    ensures !Clear(Walk(holes, i, a, b, more), a, b)
    decreases Overlapped(holes, i, a, b), |holes| - i
  {
    hide Overlaps, Overlapped;
    if i < |holes| {
      if !Overlaps(holes[i], a, b) {
        LaterIsLess(holes, i, a, b);
        PassedStays(holes, i + 1, a, b, more, k);
      } else {
        var next := Punched(holes, i, a, b, more);
        PunchedIsCut(holes, i, a, b, more);
        WalkShrinks(holes, i, a, b, more);
        assert next[k] == holes[k];
        if i + 1 <= |next| {
          PassedStays(next, i + 1, a, b, more, k);
        }
      }
    }
  }

  lemma LaterIsLess(holes: seq<Hole>, i: nat, a: int, b: int)
    requires i < |holes|
    ensures Overlapped(holes, i + 1, a, b) <= Overlapped(holes, i, a, b)
  {
  }

  /** From i on, with nothing overlapped before: the walk takes every hole the fragment overlaps exactly when no two of
      them are next to each other. */
  lemma {:induction false} WalkFromIff(holes: seq<Hole>, i: nat, a: int, b: int, more: bool)
    requires i <= |holes| && forall k | 0 <= k < i :: !Overlaps(holes[k], a, b)
    ensures Clear(Walk(holes, i, a, b, more), a, b) <==> !exists k :: Neighbours(holes, k, a, b)
    decreases Overlapped(holes, i, a, b), |holes| - i
  {
    hide Overlaps, Overlapped, Cut;
    if i < |holes| {
      if !Overlaps(holes[i], a, b) {
        LaterIsLess(holes, i, a, b);
        WalkFromIff(holes, i + 1, a, b, more);
      } else {
        WalkTakes(holes, i, a, b, more);
      }
    } else {
      forall k ensures !Neighbours(holes, k, a, b) {
      }
    }
  }

  lemma WalkTakes(holes: seq<Hole>, i: nat, a: int, b: int, more: bool)
    requires i < |holes| && Overlaps(holes[i], a, b) && forall k | 0 <= k < i :: !Overlaps(holes[k], a, b)
    ensures Clear(Walk(holes, i, a, b, more), a, b) <==> !exists k :: Neighbours(holes, k, a, b)
    decreases Overlapped(holes, i, a, b), |holes| - i, 0
  {
    hide Overlaps, Overlapped, Cut;
    var next := Punched(holes, i, a, b, more);
    PunchedIsCut(holes, i, a, b, more);
    WalkShrinks(holes, i, a, b, more);
    CutIsClear(holes[i], a, b, more);
    if i + 1 < |holes| && Overlaps(holes[i + 1], a, b) {
      assert Neighbours(holes, i, a, b);
      assert next[i] == holes[i + 1];
      PassedStays(next, i + 1, a, b, more, i);
    } else if i + 1 <= |next| {
      forall k | 0 <= k < i + 1 ensures !Overlaps(next[k], a, b) {
        PunchedAt(holes, i, a, b, more, k);
      }
      WalkFromIff(next, i + 1, a, b, more);
      NeighboursAfter(holes, i, a, b, more);
    } else {
      assert next == holes[..i];
      forall k ensures !Neighbours(holes, k, a, b) {
      }
    }
  }

  /** Where the holes are once hole i was taken. */
  lemma PunchedAt(holes: seq<Hole>, i: nat, a: int, b: int, more: bool, k: nat)
    requires i < |holes| && k < |Punched(holes, i, a, b, more)|
    ensures var next := Punched(holes, i, a, b, more);
      if k < i then next[k] == holes[k]
      else if k + 1 < |holes| then next[k] == holes[k + 1]
      else !Overlaps(next[k], a, b)
  {
    hide Overlaps, Cut;
    PunchedIsCut(holes, i, a, b, more);
    CutIsClear(holes[i], a, b, more);
    if k + 1 >= |holes| {
      assert Punched(holes, i, a, b, more)[k] == Cut(holes[i], a, b, more)[k + 1 - |holes|];
    }
  }

  lemma NeighboursAfter(holes: seq<Hole>, i: nat, a: int, b: int, more: bool)
    requires i < |holes| && Overlaps(holes[i], a, b) && (i + 1 < |holes| ==> !Overlaps(holes[i + 1], a, b))
    requires forall k | 0 <= k < i :: !Overlaps(holes[k], a, b)
    ensures (exists k :: Neighbours(Punched(holes, i, a, b, more), k, a, b)) <==> exists k :: Neighbours(holes, k, a, b)
  {
    hide Overlaps, Cut, Punched;
    var next := Punched(holes, i, a, b, more);
    PunchedIsCut(holes, i, a, b, more);
    if k :| Neighbours(next, k, a, b) {
      PunchedAt(holes, i, a, b, more, k);
      PunchedAt(holes, i, a, b, more, k + 1);
      assert Neighbours(holes, k + 1, a, b);
    }
    if k :| Neighbours(holes, k, a, b) {
      assert k > i + 1;
      PunchedAt(holes, i, a, b, more, k - 1);
      PunchedAt(holes, i, a, b, more, k);
      assert Neighbours(next, k - 1, a, b);
    }
  }

  /** The walk leaves no hole that the fragment overlaps exactly when no two such holes are next to each other. */
  lemma WalkClearsIff(holes: seq<Hole>, a: int, b: int, more: bool)
    ensures Clear(Walk(holes, 0, a, b, more), a, b) <==> !exists k :: Neighbours(holes, k, a, b)
  {
    WalkFromIff(holes, 0, a, b, more);
  }

  // ---------------------------------------------------------------- asked too early

  /** A piece before k is missing. */
  predicate Gap(s: Source, arrived: set<int>, k: int) {
    exists j | 0 <= j < k :: j !in arrived
  }

  function Upto(m: nat): (r: set<int>)
    ensures forall j :: j in r <==> 0 <= j < m
  {
    if m == 0 then {} else Upto(m - 1) + {m - 1}
  }

  /** A buffer that starts empty: the first m pieces arrived, and are all it holds. */
  predicate Grown(s: Source, arrived: set<int>, buffer: seq<Byte>, m: nat) {
    SourceOk(s) && m < |s.cuts| && s.cuts[m] <= |s.data| && arrived == Upto(m) && buffer == s.data[..s.cuts[m]]
  }

  ghost predicate Grows(s: Source, arrived: set<int>, buffer: seq<Byte>) {
    exists m: nat :: Grown(s, arrived, buffer, m)
  }

  /** Replacing at an offset that the buffer reaches; it grows when the payload reaches past its end. */
  function Replaced(buffer: seq<Byte>, offset: nat, payload: seq<Byte>): seq<Byte>
    requires offset <= |buffer|
  {
    buffer[..offset] + payload + if offset + |payload| < |buffer| then buffer[offset + |payload|..] else []
  }

  lemma ReplacedInside(buffer: seq<Byte>, offset: nat, payload: seq<Byte>)
    requires offset + |payload| <= |buffer|
    ensures Replaced(buffer, offset, payload) == Overwritten(buffer, offset, payload)
  {
  }

  lemma EmptyGrows(s: Source)
    requires SourceOk(s)
    ensures Grows(s, {}, [])
  {
    assert Upto(0) == {};
    assert Grown(s, {}, [], 0);
  }

  /** The offset is past the end exactly when a piece before it is missing; if not, the pieces stay in a row. */
  lemma GrowsOn(s: Source, arrived: set<int>, buffer: seq<Byte>, k: int, offset: nat, payload: seq<Byte>, more: bool)
    requires Grows(s, arrived, buffer) && Genuine(s, k, offset, payload, more)
    ensures offset > |buffer| <==> Gap(s, arrived, k)
    ensures offset <= |buffer| ==> Grows(s, arrived + {k}, Replaced(buffer, offset, payload))
  {
    var m: nat :| Grown(s, arrived, buffer, m);
    if k > m {
      assert m !in arrived;
    } else if k == m {
      assert Upto(m + 1) == Upto(m) + {m};
      assert Grown(s, arrived + {k}, Replaced(buffer, offset, payload), m + 1);
    } else {
      CutsAscend(s, k + 1, m);
      assert Upto(m) + {k} == Upto(m);
      assert Replaced(buffer, offset, payload) == buffer;
      assert Grown(s, arrived + {k}, buffer, m);
    }
  }

  lemma CutsAscend(s: Source, i: int, j: int)
    requires SourceOk(s) && 0 <= i <= j < |s.cuts|
    ensures s.cuts[i] <= s.cuts[j] <= |s.data|
  {
  }

  /** Such a buffer is empty only before the first piece, and the whole packet only after the last. */
  lemma GrownBuffer(s: Source, arrived: set<int>, buffer: seq<Byte>)
    requires Grows(s, arrived, buffer)
    ensures buffer <= s.data && (buffer == [] <==> arrived == {}) && (buffer == s.data <==> Complete(s, arrived))
  {
    var m: nat :| Grown(s, arrived, buffer, m);
    if m > 0 {
      assert 0 in arrived;
    } else {
      assert Upto(0) == {};
    }
    if m < |s.cuts| - 1 {
      assert IsPiece(s, m) && m !in arrived;
    }
  }

  ghost predicate RecordOk(s: Source, asked: bool, pieces: set<int>, holes: seq<Hole>, buffer: seq<Byte>) {
    if asked then holes == [] && Grows(s, pieces, buffer) else Tracks(s, pieces, holes, buffer)
  }

  ghost predicate RecordsOk(sources: nat -> Source, early: set<nat>, arrived: map<nat, set<int>>,
                            holeMap: map<nat, seq<Hole>>, buffers: map<nat, seq<Byte>>)
  {
    && holeMap.Keys == buffers.Keys == arrived.Keys && early <= holeMap.Keys
    && (forall id :: SourceOk(sources(id)))
    && (forall id | id in holeMap :: RecordOk(sources(id), id in early, arrived[id], holeMap[id], buffers[id]))
  }

  lemma RecordAt(sources: nat -> Source, early: set<nat>, arrived: map<nat, set<int>>,
                 holeMap: map<nat, seq<Hole>>, buffers: map<nat, seq<Byte>>, id: nat)
    requires RecordsOk(sources, early, arrived, holeMap, buffers)
    ensures SourceOk(sources(id)) && (id in holeMap <==> id in buffers) && (id in holeMap <==> id in arrived)
    ensures id in early ==> id in holeMap
    ensures id in holeMap ==> RecordOk(sources(id), id in early, arrived[id], holeMap[id], buffers[id])
  {
    hide RecordOk, SourceOk;
  }

  lemma RecordPut(sources: nat -> Source, early: set<nat>, arrived: map<nat, set<int>>,
                  holeMap: map<nat, seq<Hole>>, buffers: map<nat, seq<Byte>>,
                  id: nat, asked: bool, pieces: set<int>, holes: seq<Hole>, buffer: seq<Byte>)
    requires RecordsOk(sources, early, arrived, holeMap, buffers)
    requires RecordOk(sources(id), asked, pieces, holes, buffer) && (id in early ==> asked)
    ensures RecordsOk(sources, if asked then early + {id} else early, arrived[id := pieces],
                      holeMap[id := holes], buffers[id := buffer])
  {
    hide RecordOk, SourceOk;
  }

  // ---------------------------------------------------------------- records of any fragments

  function BlankBuffer(): (r: seq<Byte>)
    ensures |r| == BUFFER_SIZE
  {
    seq(BUFFER_SIZE, _ => 0)
  }

  /** The holes of a packet; one not seen before is a hole altogether. */
  function HolesFor(holeMap: map<nat, seq<Hole>>, id: nat): seq<Hole> {
    if id in holeMap then holeMap[id] else [Hole(0, BUFFER_SIZE)]
  }

  function BufferFor(holeMap: map<nat, seq<Hole>>, buffers: map<nat, seq<Byte>>, id: nat): seq<Byte> {
    if id !in holeMap then BlankBuffer() else if id in buffers then buffers[id] else []
  }

  function AskedBuffer(buffers: map<nat, seq<Byte>>, id: nat): seq<Byte> {
    if id in buffers then buffers[id] else []
  }

  /** The last position of a fragment, an unsigned 64-bit number. */
  function LastOf(offset: nat, size: nat): nat {
    if offset + size == 0 then 0xFFFF_FFFF_FFFF_FFFF else offset + size - 1
  }

  function BufferAfter(buffer: seq<Byte>, offset: nat, payload: seq<Byte>): seq<Byte> {
    if offset <= |buffer| then Replaced(buffer, offset, payload) else buffer
  }

  /** A walk in which the fragment overlaps one hole, or none. */
  lemma {:induction false} WalkIsClear(holes: seq<Hole>, i: nat, a: int, b: int, more: bool)
    requires i <= |holes| && forall j | i <= j < |holes| :: !Overlaps(holes[j], a, b)
    ensures Walk(holes, i, a, b, more) == holes
    decreases |holes| - i
  {
    if i < |holes| {
      WalkIsClear(holes, i + 1, a, b, more);
    }
  }

  lemma {:induction false} WalkPunches(holes: seq<Hole>, i: nat, j: nat, a: int, b: int, more: bool)
    requires i <= j < |holes| && Overlaps(holes[j], a, b)
    requires forall k | 0 <= k < |holes| && k != j :: !Overlaps(holes[k], a, b)
    ensures Walk(holes, i, a, b, more) == Punched(holes, j, a, b, more)
    decreases j - i
  {
    hide Overlaps;
    if i < j {
      WalkPunches(holes, i + 1, j, a, b, more);
    } else {
      var next := Punched(holes, j, a, b, more);
      if j + 1 <= |next| {
        forall k | j + 1 <= k < |next| ensures !Overlaps(next[k], a, b) {
          PunchedAt(holes, j, a, b, more, k);
        }
        WalkIsClear(next, j + 1, a, b, more);
      }
    }
  }

  /** The walk for a piece of the packet tracks it. */
  lemma PieceWalks(s: Source, arrived: set<int>, holes: seq<Hole>, buffer: seq<Byte>, k: int,
                   offset: nat, payload: seq<Byte>, more: bool)
    requires Tracks(s, arrived, holes, buffer) && Genuine(s, k, offset, payload, more)
    ensures 0 < |payload| && offset + |payload| <= |buffer|
    ensures Tracks(s, arrived + {k}, Walk(holes, 0, offset, LastOf(offset, |payload|), more),
                   Overwritten(buffer, offset, payload))
  {
    hide Tracks, Walk, Punched, Overwritten, Overlaps;
    Fits(s, arrived, holes, buffer, k, offset, payload, more);
    var a, b := offset, LastOf(offset, |payload|);
    GenuineEnds(s, k, offset, payload, more);
    if k in arrived {
      NoOverlapLeft(s, arrived, holes, buffer, k, a, b);
      WalkIsClear(holes, 0, a, b, more);
      DuplicateArrives(s, arrived, holes, buffer, k, offset, payload, more);
    } else {
      var j := PieceInHole(s, arrived, holes, buffer, k);
      TracksHolesOk(s, arrived, holes, buffer);
      assert Overlaps(holes[j], a, b) by { InsideOverlaps(holes[j], a, b); }
      forall i | 0 <= i < |holes| && i != j ensures !Overlaps(holes[i], a, b) {
        if Overlaps(holes[i], a, b) {
          OneHole(holes, j, i, a, b);
        }
      }
      WalkPunches(holes, 0, j, a, b, more);
      PieceArrives(s, arrived, holes, buffer, k, offset, payload, more, j);
    }
  }

  lemma GenuineEnds(s: Source, k: int, offset: nat, payload: seq<Byte>, more: bool)
    requires Genuine(s, k, offset, payload, more) && 0 < |payload|
    ensures IsPiece(s, k) && offset == s.cuts[k] && LastOf(offset, |payload|) == s.cuts[k + 1] - 1
    ensures offset <= LastOf(offset, |payload|) == offset + |payload| - 1
  {
  }

  lemma TracksHolesOk(s: Source, arrived: set<int>, holes: seq<Hole>, buffer: seq<Byte>)
    requires Tracks(s, arrived, holes, buffer)
    ensures HolesOk(holes)
  {
  }

  lemma InsideOverlaps(h: Hole, a: int, b: int)
    requires h.first <= a <= b <= h.last
    ensures Overlaps(h, a, b)
  {
  }

  /** A piece added to records in order leaves them in order, unless it is out of range. */
  lemma PieceAdded(sources: nat -> Source, early: set<nat>, arrived: map<nat, set<int>>,
                   holeMap: map<nat, seq<Hole>>, buffers: map<nat, seq<Byte>>,
                   id: nat, k: int, offset: nat, payload: seq<Byte>, more: bool)
    requires RecordsOk(sources, early, arrived, holeMap, buffers) && Genuine(sources(id), k, offset, payload, more)
    ensures var pieces := if id in arrived then arrived[id] else {};
      var buffer := BufferFor(holeMap, buffers, id);
      var holes1 := holeMap[id := Walk(HolesFor(holeMap, id), 0, offset, LastOf(offset, |payload|), more)];
      var buffers1 := buffers[id := BufferAfter(buffer, offset, payload)];
      && (offset <= |buffer| <==> !(id in early && Gap(sources(id), pieces, k)))
      && RecordsOk(sources, early, if offset <= |buffer| then arrived[id := pieces + {k}] else arrived,
                   holes1, buffers1)
  {
    hide Tracks, Genuine, Grows, Gap, RecordsOk, Walk, Replaced, Overwritten;
    RecordAt(sources, early, arrived, holeMap, buffers, id);
    var s := sources(id);
    var pieces := if id in arrived then arrived[id] else {};
    var holes, buffer := HolesFor(holeMap, id), BufferFor(holeMap, buffers, id);
    var walked := Walk(holes, 0, offset, LastOf(offset, |payload|), more);
    if id in early {
      GrowsOn(s, pieces, buffer, k, offset, payload, more);
      assert walked == [] by { NothingToWalk(holes, offset, LastOf(offset, |payload|), more); }
      assert early + {id} == early;
      if offset <= |buffer| {
        RecordPut(sources, early, arrived, holeMap, buffers,
                  id, true, pieces + {k}, walked, Replaced(buffer, offset, payload));
      } else {
        assert holeMap[id := walked] == holeMap && buffers[id := buffer] == buffers;
      }
    } else {
      if id !in holeMap {
        InitiallyTracks(s);
      }
      PieceWalks(s, pieces, holes, buffer, k, offset, payload, more);
      ReplacedInside(buffer, offset, payload);
      RecordPut(sources, early, arrived, holeMap, buffers,
                id, false, pieces + {k}, walked, Replaced(buffer, offset, payload));
    }
  }

  lemma NothingToWalk(holes: seq<Hole>, a: int, b: int, more: bool)
    requires holes == []
    ensures Walk(holes, 0, a, b, more) == []
  {
  }

  class Reassembly {
    var holeMap: map<nat, seq<Hole>>
    var buffers: map<nat, seq<Byte>>

    // The packet of each id, the pieces of each that arrived, and the ids asked about before any piece.
    ghost const sources: nat -> Source
    ghost var arrived: map<nat, set<int>>
    ghost var early: set<nat>

    ghost predicate Valid()
      reads this
    {
      RecordsOk(sources, early, arrived, holeMap, buffers)
    }

    constructor (ghost packets: nat -> Source)
      requires forall id :: SourceOk(packets(id))
      ensures Valid() && sources == packets && holeMap == map[] && arrived == map[] && early == {}
    {
      holeMap, buffers, arrived, early, sources := map[], map[], map[], {}, packets;
    }

    /** The pieces of a packet that arrived so far. */
    ghost function Pieces(id: nat): set<int>
      reads this
    {
      if id in arrived then arrived[id] else {}
    }

    /**
     * Any fragment: the walk changes the holes, and the replacement the buffer, unless it is out of range; then the
     * call is not ok. For the pieces of a packet that is the case exactly when the id was asked about before its
     * first piece and a piece before this one is missing; otherwise the record goes on tracking the pieces.
     */
    method AddFragment(id: nat, offset: nat, payload: seq<Byte>, more: bool, ghost k: int) returns (ok: bool)
      modifies this
      ensures ok <==> offset <= |BufferFor(old(holeMap), old(buffers), id)|
      ensures holeMap
           == old(holeMap)[id := Walk(HolesFor(old(holeMap), id), 0, offset, LastOf(offset, |payload|), more)]
      ensures buffers == old(buffers)[id := BufferAfter(BufferFor(old(holeMap), old(buffers), id), offset, payload)]
      ensures early == old(early)
      ensures old(Valid()) && Genuine(sources(id), k, offset, payload, more) ==>
        && Valid()
        && (ok <==> !(id in early && Gap(sources(id), old(Pieces(id)), k)))
        && arrived == if ok then old(arrived)[id := old(Pieces(id)) + {k}] else old(arrived)
    {
      hide Tracks, Genuine, Grows, Gap, RecordsOk, Walk;
      var holes, buffer := HolesFor(holeMap, id), BufferFor(holeMap, buffers, id);
      ghost var inOrder := Valid() && Genuine(sources(id), k, offset, payload, more);
      if inOrder {
        PieceAdded(sources, early, arrived, holeMap, buffers, id, k, offset, payload, more);
      }
      var walked := PunchHoles(holes, offset, LastOf(offset, |payload|), more);
      ok := offset <= |buffer|;
      if inOrder && ok {
        arrived := arrived[id := Pieces(id) + {k}];
      }
      holeMap := holeMap[id := walked];
      buffers := buffers[id := BufferAfter(buffer, offset, payload)];
    }

    /** The walk over the holes. It steps over the hole that takes an erased one's place. */
    static method PunchHoles(list: seq<Hole>, first: nat, last: int, more: bool) returns (holes: seq<Hole>)
      ensures holes == Walk(list, 0, first, last, more)
    {
      hide Overlapped, Punched;
      holes := list;
      var i := 0;
      while i < |holes|
        invariant 0 <= i && (i <= |holes| ==> Walk(holes, i, first, last, more) == Walk(list, 0, first, last, more))
        invariant i > |holes| ==> holes == Walk(list, 0, first, last, more)
        decreases if i <= |holes| then Overlapped(holes, i, first, last) else 0, |holes| - i
      {
        var hole := holes[i];
        if first > hole.last || last < hole.first {
          LaterIsLess(holes, i, first, last);
          i := i + 1;
          continue;
        }
        WalkShrinks(holes, i, first, last, more);
        holes := Punched(holes, i, first, last, more);
        i := i + 1;
      }
    }

    /**
     * The buffer once no hole is left. Asking about a packet of which nothing arrived yields nothing, but leaves
     * a record without holes: from then on whatever is in the buffer is handed out. A packet is handed out
     * incomplete exactly when that was done and some but not all pieces arrived.
     */
    method ReadyToDeliver(id: nat) returns (packet: seq<Byte>)
      modifies this
      ensures holeMap == if id in old(holeMap) then old(holeMap) else old(holeMap)[id := []]
      ensures packet == if id !in old(holeMap) || old(holeMap)[id] == [] then AskedBuffer(old(buffers), id) else []
      ensures old(Valid()) ==>
        && Valid() && arrived == old(arrived)[id := old(Pieces(id))]
        && early == old(early) + (if id in old(holeMap) then {} else {id})
        && (id in early ==>
              && Grows(sources(id), Pieces(id), packet)
              && packet <= sources(id).data && (packet == [] <==> Pieces(id) == {})
              && (packet == sources(id).data <==> Complete(sources(id), Pieces(id))))
        && (id !in early ==>
              if Complete(sources(id), Pieces(id)) then |packet| == BUFFER_SIZE && sources(id).data <= packet
              else packet == [])
        && (packet != [] && !Complete(sources(id), Pieces(id)) <==>
              id in early && Pieces(id) != {} && !Complete(sources(id), Pieces(id)))
    {
      hide Tracks, Grows, RecordsOk, Complete;
      ghost var inOrder := Valid();
      if inOrder {
        RecordAt(sources, early, arrived, holeMap, buffers, id);
      }
      packet := [];
      if id !in holeMap {
        if inOrder {
          EmptyGrows(sources(id));
          RecordPut(sources, early, arrived, holeMap, buffers, id, true, {}, [], []);
        }
        holeMap, buffers := holeMap[id := []], buffers[id := if id in buffers then buffers[id] else []];
        arrived, early := arrived[id := {}], early + {id};
      } else if holeMap[id] == [] && id !in buffers {
        buffers := buffers[id := []];
      }
      if inOrder {
        AskedRecord(sources, early, arrived, holeMap, buffers, id);
      }
      packet := if |holeMap[id]| == 0 then buffers[id] else [];
    }
  }

  lemma AskedRecord(sources: nat -> Source, early: set<nat>, arrived: map<nat, set<int>>,
                    holeMap: map<nat, seq<Hole>>, buffers: map<nat, seq<Byte>>, id: nat)
    requires RecordsOk(sources, early, arrived, holeMap, buffers) && id in holeMap
    ensures id in buffers && id in arrived
    ensures var s, pieces := sources(id), arrived[id];
      var packet := if holeMap[id] == [] then buffers[id] else [];
      && (id in early ==>
            && Grows(s, pieces, packet) && packet <= s.data && (packet == [] <==> pieces == {})
            && (packet == s.data <==> Complete(s, pieces)))
      && (id !in early ==> if Complete(s, pieces) then |packet| == BUFFER_SIZE && s.data <= packet else packet == [])
  {
    hide Tracks, Grows, RecordsOk, Complete;
    RecordAt(sources, early, arrived, holeMap, buffers, id);
    var s := sources(id);
    if id in early {
      GrownBuffer(s, arrived[id], buffers[id]);
    } else {
      BufferSize(s, arrived[id], holeMap[id], buffers[id]);
      CompleteIff(s, arrived[id], holeMap[id], buffers[id]);
    }
  }

  lemma GrownPrefix(s: Source, arrived: set<int>, buffer: seq<Byte>, m: nat)
    requires Grows(s, arrived, buffer) && m < |s.cuts| && s.cuts[m] <= |s.data| && arrived == Upto(m)
    ensures buffer == s.data[..s.cuts[m]]
  {
    var n: nat :| Grown(s, arrived, buffer, n);
    assert n - 1 !in arrived || n <= m;
    assert m !in Upto(m);
  }

  lemma PieceIsGenuine(s: Source, k: int)
    requires SourceOk(s) && IsPiece(s, k)
    ensures 0 <= s.cuts[k] < s.cuts[k + 1] <= |s.data|
    ensures Genuine(s, k, s.cuts[k], s.data[s.cuts[k]..s.cuts[k + 1]], !IsLast(s, k))
  {
    CutBelow(s, k);
  }

  /** Asked about before its first piece, a packet of several pieces is handed out when only one arrived. */
  method AskedFirst(id: nat, s: Source) returns (packet: seq<Byte>)
    requires SourceOk(s) && 3 <= |s.cuts|
    ensures s.cuts[1] < |s.data| && packet == s.data[..s.cuts[1]]
  {
    hide RecordsOk, Reassembly.Valid, Tracks, Grows, Complete, Gap, Genuine;
    PieceIsGenuine(s, 0);
    CutBelow(s, 1);
    var r := new Reassembly(_ => s);
    var nothing := r.ReadyToDeliver(id);
    var ok := r.AddFragment(id, s.cuts[0], s.data[s.cuts[0]..s.cuts[1]], true, 0);
    assert ok by { NoGapBefore(s, {}); }
    assert r.Pieces(id) == {0} && r.sources(id) == s;
    packet := r.ReadyToDeliver(id);
    assert r.Pieces(id) == {0};
    assert {0} == Upto(1);
    GrownPrefix(s, {0}, packet, 1);
  }

  lemma NoGapBefore(s: Source, arrived: set<int>)
    ensures !Gap(s, arrived, 0)
  {
  }

  lemma GapAtStart(s: Source, arrived: set<int>, k: int)
    requires 0 < k && 0 !in arrived
    ensures Gap(s, arrived, k)
  {
  }

  /** Or its first fragment to arrive, if it is not the first piece, is out of range. */
  method AskedFirstFails(id: nat, s: Source, k: nat) returns (ok: bool)
    requires SourceOk(s) && 0 < k && IsPiece(s, k)
    ensures !ok
  {
    hide RecordsOk, Reassembly.Valid, Tracks, Grows, Complete, Gap, Genuine;
    PieceIsGenuine(s, k);
    var r := new Reassembly(_ => s);
    var nothing := r.ReadyToDeliver(id);
    assert r.Pieces(id) == {} && r.sources(id) == s;
    GapAtStart(s, r.Pieces(id), k);
    ok := r.AddFragment(id, s.cuts[k], s.data[s.cuts[k]..s.cuts[k + 1]], k != |s.cuts| - 2, k);
  }

  lemma BufferSize(s: Source, arrived: set<int>, holes: seq<Hole>, buffer: seq<Byte>)
    requires Tracks(s, arrived, holes, buffer)
    ensures |buffer| == BUFFER_SIZE && |s.data| <= BUFFER_SIZE
  {
  }

  lemma Fits(s: Source, arrived: set<int>, holes: seq<Hole>, buffer: seq<Byte>, k: int, offset: nat,
             payload: seq<Byte>, more: bool)
    requires Tracks(s, arrived, holes, buffer) && Genuine(s, k, offset, payload, more)
    ensures 0 < |payload| && offset + |payload| <= BUFFER_SIZE == |buffer|
  {
    CutBelow(s, k);
  }

  // ---------------------------------------------------------------- pieces that overlap

  /** Positions 10 to 19, then 0 to 29, then 30 to 39 as the last: one hole stays where the walk passed over it. */
  lemma OverlapWalks(holes: seq<Hole>)
    requires holes == [Hole(0, BUFFER_SIZE)]
    ensures Walk(holes, 0, 10, 19, true) == [Hole(0, 9), Hole(20, BUFFER_SIZE)]
    ensures Neighbours([Hole(0, 9), Hole(20, BUFFER_SIZE)], 0, 0, 29)
    ensures Walk([Hole(0, 9), Hole(20, BUFFER_SIZE)], 0, 0, 29, true) == [Hole(20, BUFFER_SIZE)]
    ensures Walk([Hole(20, BUFFER_SIZE)], 0, 30, 39, false) == [Hole(20, 29)]
  {
    var two, one := [Hole(0, 9), Hole(20, BUFFER_SIZE)], [Hole(20, BUFFER_SIZE)];
    assert Punched(holes, 0, 10, 19, true) == two;
    WalkIsClear(two, 1, 10, 19, true);
    assert Punched(two, 0, 0, 29, true) == one;
    assert Punched(one, 0, 30, 39, false) == [Hole(20, 29)];
    WalkIsClear([Hole(20, 29)], 1, 30, 39, false);
  }

  /** Then every byte of a packet of 40 has arrived and is in the buffer, but the packet is not handed out. */
  method OverlapCanLeaveHole(id: nat, data: seq<Byte>) returns (buffer: seq<Byte>, packet: seq<Byte>)
    requires |data| == 40
    ensures data <= buffer && packet == []
  {
    hide RecordsOk, Reassembly.Valid, Tracks, Grows, Complete, Gap, Genuine, Walk;
    OverlapWalks([Hole(0, BUFFER_SIZE)]);
    var r := new Reassembly(_ => Source(data, [0, 40]));
    var ok := r.AddFragment(id, 10, data[10..20], true, 0);
    ok := r.AddFragment(id, 0, data[..30], true, 0);
    ok := r.AddFragment(id, 30, data[30..], false, 0);
    buffer := r.buffers[id];
    packet := r.ReadyToDeliver(id);
  }

  // ---------------------------------------------------------------- fragments that overlap, over whole runs

  /** Position p of a hole stays open: the fragment does not overlap the hole, or leaves p on one of its sides. */
  predicate Stays(h: Hole, a: int, b: int, more: bool, p: int) {
    Within(h, p) && (!Overlaps(h, a, b) || p < a || (p > b && more))
  }

  predicate Left(holes: seq<Hole>, a: int, b: int, more: bool, p: int) {
    exists i | 0 <= i < |holes| :: Stays(holes[i], a, b, more, p)
  }

  lemma LeftJoin(x: seq<Hole>, y: seq<Hole>, a: int, b: int, more: bool, p: int)
    ensures Left(x + y, a, b, more, p) <==> Left(x, a, b, more, p) || Left(y, a, b, more, p)
  {
    hide Stays;
    if i :| 0 <= i < |x| && Stays(x[i], a, b, more, p) {
      assert Stays((x + y)[i], a, b, more, p);
    }
    if i :| 0 <= i < |y| && Stays(y[i], a, b, more, p) {
      assert Stays((x + y)[|x| + i], a, b, more, p);
    }
  }

  lemma CutLeaves(h: Hole, a: int, b: int, more: bool, p: int)
    requires Overlaps(h, a, b)
    ensures Left(Cut(h, a, b, more), a, b, more, p) <==> Left([h], a, b, more, p)
  {
    var left := if a > h.first then [Hole(h.first, a - 1)] else [];
    var right := if b < h.last && more then [Hole(b + 1, h.last)] else [];
    LeftJoin(left, right, a, b, more, p);
    assert Left([h], a, b, more, p) <==> Stays([h][0], a, b, more, p);
    assert Left(left, a, b, more, p) <==> left != [] && Stays(left[0], a, b, more, p);
    assert Left(right, a, b, more, p) <==> right != [] && Stays(right[0], a, b, more, p);
  }

  lemma PunchedLeaves(holes: seq<Hole>, i: nat, a: int, b: int, more: bool, p: int)
    requires i < |holes| && Overlaps(holes[i], a, b)
    ensures Left(Punched(holes, i, a, b, more), a, b, more, p) <==> Left(holes, a, b, more, p)
  {
    hide Overlaps, Cut, Left, Punched;
    PunchedIsCut(holes, i, a, b, more);
    CutLeaves(holes[i], a, b, more, p);
    LeftJoin(holes[..i] + holes[i + 1..], Cut(holes[i], a, b, more), a, b, more, p);
    LeftJoin(holes[..i], holes[i + 1..], a, b, more, p);
    assert holes == holes[..i] + [holes[i]] + holes[i + 1..];
    LeftJoin(holes[..i] + [holes[i]], holes[i + 1..], a, b, more, p);
    LeftJoin(holes[..i], [holes[i]], a, b, more, p);
  }

  /** The walk neither opens nor closes a position beyond what the fragment says. */
  lemma {:induction false} WalkLeaves(holes: seq<Hole>, i: nat, a: int, b: int, more: bool, p: int)
    requires i <= |holes|
    ensures Left(Walk(holes, i, a, b, more), a, b, more, p) <==> Left(holes, a, b, more, p)
    decreases Overlapped(holes, i, a, b), |holes| - i
  {
    hide Overlaps, Overlapped, Left, Punched;
    if i < |holes| {
      if !Overlaps(holes[i], a, b) {
        LaterIsLess(holes, i, a, b);
        WalkLeaves(holes, i + 1, a, b, more, p);
      } else {
        WalkShrinks(holes, i, a, b, more);
        PunchedLeaves(holes, i, a, b, more, p);
        if i + 1 <= |Punched(holes, i, a, b, more)| {
          WalkLeaves(Punched(holes, i, a, b, more), i + 1, a, b, more, p);
        }
      }
    }
  }

  ghost predicate Adjoining(holes: seq<Hole>, a: int, b: int) {
    exists k :: Neighbours(holes, k, a, b)
  }

  /** On any list of holes: a position the fragment leaves open is open after the walk; and when no two overlapped holes
      are next to each other, no other position is. */
  lemma WalkCovers(holes: seq<Hole>, a: int, b: int, more: bool, p: int)
    ensures Left(holes, a, b, more, p) ==> Covered(Walk(holes, 0, a, b, more), p)
    ensures !Adjoining(holes, a, b) ==>
      (Covered(Walk(holes, 0, a, b, more), p) <==> Left(holes, a, b, more, p))
  {
    hide Walk, Overlaps;
    var walked := Walk(holes, 0, a, b, more);
    WalkLeaves(holes, 0, a, b, more, p);
    WalkClearsIff(holes, a, b, more);
    if Clear(walked, a, b) && Covered(walked, p) {
      var i :| 0 <= i < |walked| && Within(walked[i], p);
      assert Stays(walked[i], a, b, more, p);
    }
  }

  /** A fragment of a packet: any of its positions in a row. */
  datatype Part = Part(offset: nat, size: nat)

  predicate PartOk(data: seq<Byte>, f: Part) {
    0 < f.size && f.offset + f.size <= |data|
  }

  predicate PartsOk(data: seq<Byte>, parts: seq<Part>) {
    0 < |data| <= BUFFER_SIZE && forall i | 0 <= i < |parts| :: PartOk(data, parts[i])
  }

  predicate More(data: seq<Byte>, f: Part) {
    f.offset + f.size < |data|
  }

  /** Byte p is in one of the fragments. */
  predicate Arrived(parts: seq<Part>, p: int) {
    exists i | 0 <= i < |parts| :: parts[i].offset <= p < parts[i].offset + parts[i].size
  }

  predicate AllArrived(data: seq<Byte>, parts: seq<Part>) {
    forall p | 0 <= p < |data| :: Arrived(parts, p)
  }

  function HolesAfter(data: seq<Byte>, parts: seq<Part>): seq<Hole> {
    if parts == [] then [Hole(0, BUFFER_SIZE)]
    else
      var f := parts[|parts| - 1];
      Walk(HolesAfter(data, parts[..|parts| - 1]), 0, f.offset, LastOf(f.offset, f.size), More(data, f))
  }

  /** No fragment of the run overlaps two holes that are next to each other when it arrives. */
  ghost predicate Smooth(data: seq<Byte>, parts: seq<Part>) {
    parts == [] ||
    (&& Smooth(data, parts[..|parts| - 1])
     && var f := parts[|parts| - 1];
     !Adjoining(HolesAfter(data, parts[..|parts| - 1]), f.offset, LastOf(f.offset, f.size)))
  }

  /** The byte whose arrival closes position p: those past the end are closed by the last byte. */
  function Closing(data: seq<Byte>, p: int): int {
    if p < |data| then p else |data| - 1
  }

  /** Holes are not empty and start inside the packet. */
  predicate StartInside(data: seq<Byte>, holes: seq<Hole>) {
    forall i | 0 <= i < |holes| :: 0 <= holes[i].first <= holes[i].last && holes[i].first < |data|
  }

  lemma {:induction false} WalkStartsInside(data: seq<Byte>, holes: seq<Hole>, i: nat, f: Part)
    requires i <= |holes| && StartInside(data, holes) && PartOk(data, f)
    ensures StartInside(data, Walk(holes, i, f.offset, LastOf(f.offset, f.size), More(data, f)))
    decreases Overlapped(holes, i, f.offset, LastOf(f.offset, f.size)), |holes| - i
  {
    hide Overlaps, Overlapped, StartInside, Punched;
    var a, b, more := f.offset, LastOf(f.offset, f.size), More(data, f);
    if i < |holes| {
      if !Overlaps(holes[i], a, b) {
        LaterIsLess(holes, i, a, b);
        WalkStartsInside(data, holes, i + 1, f);
      } else {
        WalkShrinks(holes, i, a, b, more);
        PunchedStartsInside(data, holes, i, f);
        if i + 1 <= |Punched(holes, i, a, b, more)| {
          WalkStartsInside(data, Punched(holes, i, a, b, more), i + 1, f);
        }
      }
    }
  }

  lemma PunchedStartsInside(data: seq<Byte>, holes: seq<Hole>, i: nat, f: Part)
    requires i < |holes| && StartInside(data, holes) && PartOk(data, f)
    ensures StartInside(data, Punched(holes, i, f.offset, LastOf(f.offset, f.size), More(data, f)))
  {
  }

  /** The fragment leaves an open position open exactly when it does not hold the byte that closes it. */
  lemma LeftIff(data: seq<Byte>, holes: seq<Hole>, f: Part, p: int)
    requires StartInside(data, holes) && PartOk(data, f)
    ensures Left(holes, f.offset, LastOf(f.offset, f.size), More(data, f), p)
        <==> Covered(holes, p) && !(f.offset <= Closing(data, p) < f.offset + f.size)
  {
    var a, b, more := f.offset, LastOf(f.offset, f.size), More(data, f);
    forall i | 0 <= i < |holes|
      ensures Stays(holes[i], a, b, more, p) <==> Within(holes[i], p) && !(a <= Closing(data, p) < a + f.size)
    {
    }
    if Covered(holes, p) && !(a <= Closing(data, p) < a + f.size) {
      var i :| 0 <= i < |holes| && Within(holes[i], p);
      assert Stays(holes[i], a, b, more, p);
    }
  }

  lemma ArrivedMore(parts: seq<Part>, p: int)
    requires parts != []
    ensures var f := parts[|parts| - 1];
      Arrived(parts, p) <==> Arrived(parts[..|parts| - 1], p) || f.offset <= p < f.offset + f.size
  {
    var init := parts[..|parts| - 1];
    if i :| 0 <= i < |init| && init[i].offset <= p < init[i].offset + init[i].size {
      assert parts[i] == init[i];
    }
    if i :| 0 <= i < |parts| && parts[i].offset <= p < parts[i].offset + parts[i].size {
      assert i < |init| ==> parts[i] == init[i];
    }
  }

  /** The holes cover every position still missing; in a smooth run they cover no other. */
  lemma {:induction false} HolesCover(data: seq<Byte>, parts: seq<Part>, p: int)
    requires PartsOk(data, parts) && 0 <= p <= BUFFER_SIZE
    ensures StartInside(data, HolesAfter(data, parts))
    ensures !Arrived(parts, Closing(data, p)) ==> Covered(HolesAfter(data, parts), p)
    ensures Smooth(data, parts) ==> (Covered(HolesAfter(data, parts), p) <==> !Arrived(parts, Closing(data, p)))
  {
    hide Walk, StartInside, Covered, Arrived, Adjoining, Left, Closing;
    if parts == [] {
      NothingArrived(data, p);
    } else {
      var init, f := parts[..|parts| - 1], parts[|parts| - 1];
      var holes := HolesAfter(data, init);
      HolesCover(data, init, p);
      WalkStartsInside(data, holes, 0, f);
      WalkCovers(holes, f.offset, LastOf(f.offset, f.size), More(data, f), p);
      LeftIff(data, holes, f, p);
      ArrivedMore(parts, Closing(data, p));
    }
  }

  lemma NothingArrived(data: seq<Byte>, p: int)
    requires 0 < |data| && 0 <= p <= BUFFER_SIZE
    ensures StartInside(data, HolesAfter(data, [])) && Covered(HolesAfter(data, []), p)
    ensures !Arrived([], Closing(data, p))
  {
    assert Within(HolesAfter(data, [])[0], p);
  }

  /** Without holes every byte arrived, in any run; and in a smooth run the other way round too. */
  lemma NoHolesIff(data: seq<Byte>, parts: seq<Part>)
    requires PartsOk(data, parts)
    ensures HolesAfter(data, parts) == [] ==> AllArrived(data, parts)
    ensures Smooth(data, parts) ==> (HolesAfter(data, parts) == [] <==> AllArrived(data, parts))
  {
    hide PartsOk, Arrived, HolesAfter, Smooth;
    var holes := HolesAfter(data, parts);
    forall p | 0 <= p < |data| && holes == [] ensures Arrived(parts, p) {
      assert p <= BUFFER_SIZE by { InBuffer(data, parts); }
      HolesCover(data, parts, p);
    }
    if holes != [] && AllArrived(data, parts) {
      InBuffer(data, parts);
      HolesCover(data, parts, 0);
      var p := holes[0].first;
      assert Within(holes[0], p) && Closing(data, p) == p;
      HolesCover(data, parts, p);
    }
  }

  lemma InBuffer(data: seq<Byte>, parts: seq<Part>)
    requires PartsOk(data, parts)
    ensures 0 < |data| <= BUFFER_SIZE
  {
  }

  /** What has arrived is in the buffer. */
  predicate Holds(buffer: seq<Byte>, data: seq<Byte>, parts: seq<Part>) {
    |data| <= |buffer| && forall p | 0 <= p < |data| && Arrived(parts, p) :: buffer[p] == data[p]
  }

  lemma HoldsMore(buffer: seq<Byte>, data: seq<Byte>, parts: seq<Part>, f: Part)
    requires Holds(buffer, data, parts) && PartOk(data, f)
    ensures Holds(BufferAfter(buffer, f.offset, data[f.offset..f.offset + f.size]), data, parts + [f])
    ensures |BufferAfter(buffer, f.offset, data[f.offset..f.offset + f.size])| == |buffer|
  {
    hide Arrived;
    var more := parts + [f];
    assert more[..|more| - 1] == parts;
    forall p | 0 <= p < |data| && Arrived(more, p)
      ensures BufferAfter(buffer, f.offset, data[f.offset..f.offset + f.size])[p] == data[p]
    {
      ArrivedMore(more, p);
    }
  }

  /** Fragments of one packet in any order, overlapping and repeated in any way: it is handed out only when every byte
      arrived, and then correctly; in a smooth run exactly then. */
  method ReceiveParts(id: nat, data: seq<Byte>, parts: seq<Part>) returns (packet: seq<Byte>)
    requires PartsOk(data, parts)
    ensures packet != [] ==> AllArrived(data, parts) && data <= packet && |packet| == BUFFER_SIZE
    ensures Smooth(data, parts) ==> (packet != [] <==> AllArrived(data, parts))
  {
    hide RecordsOk, Reassembly.Valid, Tracks, Grows, Complete, Gap, Genuine, Walk, Holds, Smooth, AllArrived,
         BufferAfter;
    var r := new Reassembly(_ => Source(data, [0, |data|]));
    if parts == [] {
      packet := r.ReadyToDeliver(id);
      NoHolesIff(data, parts);
      return;
    }
    assert Holds(BlankBuffer(), data, []) by { NothingHeld(data); }
    var i := 0;
    while i < |parts|
      invariant 0 <= i <= |parts|
      invariant HolesFor(r.holeMap, id) == HolesAfter(data, parts[..i])
      invariant i > 0 ==> id in r.holeMap && id in r.buffers
      invariant |BufferFor(r.holeMap, r.buffers, id)| == BUFFER_SIZE
      invariant Holds(BufferFor(r.holeMap, r.buffers, id), data, parts[..i])
    {
      var f := parts[i];
      HoldsMore(BufferFor(r.holeMap, r.buffers, id), data, parts[..i], f);
      assert parts[..i + 1] == parts[..i] + [f] && parts[..i + 1][..i] == parts[..i];
      var ok := r.AddFragment(id, f.offset, data[f.offset..f.offset + f.size], More(data, f), 0);
      i := i + 1;
    }
    assert parts[..i] == parts;
    NoHolesIff(data, parts);
    if AllArrived(data, parts) {
      HeldIsPrefix(r.buffers[id], data, parts);
    }
    packet := r.ReadyToDeliver(id);
  }

  lemma NothingHeld(data: seq<Byte>)
    requires |data| <= BUFFER_SIZE
    ensures Holds(BlankBuffer(), data, [])
  {
  }

  lemma HeldIsPrefix(buffer: seq<Byte>, data: seq<Byte>, parts: seq<Part>)
    requires Holds(buffer, data, parts) && AllArrived(data, parts)
    ensures data <= buffer
  {
  }
}
