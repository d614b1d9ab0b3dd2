/** What the kd-tree has to compute: the tree behind its node arrays, and the answer to a query as
    a linear scan would give it. */
module KdSpec {
  import opened TagHeap
  import opened KdGeometry

  /** A row of the data matrix with its tag; the first nx columns are the point. */
  datatype Row = Row(coords: Point, tag: int)

  /** The tree that the node and split arrays stand for. */
  datatype Tree = Leaf(i1: nat, i2: nat) | Split(d: nat, s: real, left: Tree, right: Tree)

  function First(t: Tree): nat {
    match t case Leaf(i1, _) => i1 case Split(_, _, l, _) => First(l)
  }

  function End(t: Tree): nat {
    match t case Leaf(_, i2) => i2 case Split(_, _, _, r) => End(r)
  }

  /** The leaves are non-empty and cover consecutive ranges of rows. */
  predicate Contiguous(t: Tree) {
    match t
    case Leaf(i1, i2) => i1 < i2
    case Split(_, _, l, r) => Contiguous(l) && Contiguous(r) && End(l) == First(r)
  }

  lemma ContiguousNonEmpty(t: Tree)
    requires Contiguous(t)
    ensures First(t) < End(t)
  {
  }

  predicate RowsOk(rows: seq<Row>, nx: nat) {
    forall i | 0 <= i < |rows| :: nx <= |rows[i].coords|
  }

  /** Every row of the tree lies in the box, and every split lies inside the box it divides. */
  predicate Fits(t: Tree, rows: seq<Row>, nx: nat, b: Box)
    requires RowsOk(rows, nx)
  {
    BoxOk(b, nx) &&
    match t
    case Leaf(i1, i2) => i1 <= i2 <= |rows| && forall i | i1 <= i < i2 :: InBox(rows[i].coords, b)
    case Split(d, s, l, r) =>
      && d < nx && b.lo[d] <= s <= b.hi[d]
      && Fits(l, rows, nx, LeftHalf(b, d, s)) && Fits(r, rows, nx, RightHalf(b, d, s))
  }

  predicate Inside(b: Box, c: Box, nx: nat) {
    BoxOk(b, nx) && BoxOk(c, nx) && forall j | 0 <= j < nx :: c.lo[j] <= b.lo[j] && b.hi[j] <= c.hi[j]
  }

  /** A tree that fits a box fits every box around it. */
  lemma {:induction false} FitsLarger(t: Tree, rows: seq<Row>, nx: nat, b: Box, c: Box)
    requires RowsOk(rows, nx) && Fits(t, rows, nx, b) && Inside(b, c, nx)
    ensures Fits(t, rows, nx, c)
  {
    match t {
      case Leaf(i1, i2) =>
      case Split(d, s, l, r) =>
        FitsLarger(l, rows, nx, LeftHalf(b, d, s), LeftHalf(c, d, s));
        FitsLarger(r, rows, nx, RightHalf(b, d, s), RightHalf(c, d, s));
    }
  }

  lemma {:induction false} FitsAllRows(t: Tree, rows: seq<Row>, nx: nat, b: Box, i: nat)
    requires RowsOk(rows, nx) && Fits(t, rows, nx, b) && Contiguous(t) && First(t) <= i < End(t)
    ensures i < |rows| && InBox(rows[i].coords, b)
  {
    match t {
      case Leaf(i1, i2) =>
      case Split(d, s, l, r) =>
        if i < End(l) {
          FitsAllRows(l, rows, nx, LeftHalf(b, d, s), i);
        } else {
          FitsAllRows(r, rows, nx, RightHalf(b, d, s), i);
        }
    }
  }

  /** The node at `offs` is the root of t. A leaf is its size and first row; a split is zero, the
      dimension, the index of its threshold and the offsets of its children. */
  predicate Encodes(nodes: seq<int>, splits: seq<real>, offs: int, t: Tree)
    decreases t
  {
    match t
    case Leaf(i1, i2) => 0 <= offs && offs + 1 < |nodes| && nodes[offs] == i2 - i1 && nodes[offs + 1] == i1
    case Split(d, s, l, r) =>
      && 0 <= offs && offs + 4 < |nodes|
      && nodes[offs] == 0 && nodes[offs + 1] == d
      && 0 <= nodes[offs + 2] < |splits| && splits[nodes[offs + 2]] == s
      && Encodes(nodes, splits, nodes[offs + 3], l) && Encodes(nodes, splits, nodes[offs + 4], r)
  }

  /** Like `Encodes`, reading only nodes in [lo, hi) and splits below shi. */
  predicate EncodesIn(nodes: seq<int>, splits: seq<real>, lo: int, hi: int, shi: int, offs: int, t: Tree)
    decreases t
  {
    0 <= lo <= offs && hi <= |nodes| && shi <= |splits| &&
    match t
    case Leaf(i1, i2) => offs + 1 < hi && nodes[offs] == i2 - i1 && nodes[offs + 1] == i1
    case Split(d, s, l, r) =>
      && offs + 4 < hi && nodes[offs] == 0 && nodes[offs + 1] == d
      && 0 <= nodes[offs + 2] < shi && splits[nodes[offs + 2]] == s
      && EncodesIn(nodes, splits, lo, hi, shi, nodes[offs + 3], l)
      && EncodesIn(nodes, splits, lo, hi, shi, nodes[offs + 4], r)
  }

  lemma {:induction false} EncodesInEncodes(nodes: seq<int>, splits: seq<real>, lo: int, hi: int, shi: int, offs: int,
                                            t: Tree)
    requires EncodesIn(nodes, splits, lo, hi, shi, offs, t)
    ensures Encodes(nodes, splits, offs, t)
    decreases t
  {
    if t.Split? {
      EncodesInEncodes(nodes, splits, lo, hi, shi, nodes[offs + 3], t.left);
      EncodesInEncodes(nodes, splits, lo, hi, shi, nodes[offs + 4], t.right);
    }
  }

  /** A subtree survives writes outside its part of the arrays. */
  lemma {:induction false} EncodesInFrame(nodes: seq<int>, splits: seq<real>, lo: int, hi: int, shi: int, offs: int,
                                          t: Tree,
                                          nodes': seq<int>, splits': seq<real>, lo': int, hi': int, shi': int)
    requires EncodesIn(nodes, splits, lo, hi, shi, offs, t)
    requires 0 <= lo' <= lo && hi <= hi' <= |nodes'| && shi <= shi' <= |splits'|
    requires forall i | lo <= i < hi :: nodes'[i] == nodes[i]
    requires forall i | 0 <= i < shi :: splits'[i] == splits[i]
    ensures EncodesIn(nodes', splits', lo', hi', shi', offs, t)
    decreases t
  {
    if t.Split? {
      EncodesInFrame(nodes, splits, lo, hi, shi, nodes[offs + 3], t.left, nodes', splits', lo', hi', shi');
      EncodesInFrame(nodes, splits, lo, hi, shi, nodes[offs + 4], t.right, nodes', splits', lo', hi', shi');
    }
  }

  // ---- rearranging rows ----

  predicate AllInBox(rows: seq<Row>, i1: nat, i2: nat, b: Box, nx: nat)
    requires RowsOk(rows, nx) && i2 <= |rows| && BoxOk(b, nx)
  {
    forall i | i1 <= i < i2 :: InBox(rows[i].coords, b)
  }

  /** Rows [i1, i2) are rearranged, the others stay. */
  predicate Permuted(was: seq<Row>, now: seq<Row>, i1: nat, i2: nat) {
    && i1 <= i2 <= |was| == |now|
    && multiset(now[i1..i2]) == multiset(was[i1..i2])
    && now[..i1] == was[..i1] && now[i2..] == was[i2..]
  }

  lemma PermutedRow(was: seq<Row>, now: seq<Row>, i1: nat, i2: nat, i: nat) returns (j: nat)
    requires Permuted(was, now, i1, i2) && i1 <= i < i2
    ensures i1 <= j < i2 && now[i] == was[j]
  {
    var part := now[i1..i2];
    assert part[i - i1] == now[i];
    assert now[i] in multiset(part);
    assert now[i] in was[i1..i2];
    var k :| 0 <= k < i2 - i1 && was[i1..i2][k] == now[i];
    j := i1 + k;
  }

  lemma PermutedOutside(was: seq<Row>, now: seq<Row>, i1: nat, i2: nat, i: nat)
    requires Permuted(was, now, i1, i2) && i < |was| && !(i1 <= i < i2)
    ensures now[i] == was[i]
  {
    if i < i1 {
      assert now[..i1][i] == was[..i1][i];
    } else {
      assert now[i2..][i - i2] == was[i2..][i - i2];
    }
  }

  lemma PermutedInBox(was: seq<Row>, now: seq<Row>, i1: nat, i2: nat, b: Box, nx: nat)
    requires Permuted(was, now, i1, i2) && RowsOk(was, nx) && RowsOk(now, nx) && BoxOk(b, nx)
    requires AllInBox(was, i1, i2, b, nx)
    ensures AllInBox(now, i1, i2, b, nx)
  {
    forall i | i1 <= i < i2 ensures InBox(now[i].coords, b) {
      var j := PermutedRow(was, now, i1, i2, i);
    }
  }

  lemma SwapPermutes(rows: seq<Row>, i1: nat, i2: nat, i: nat, j: nat)
    requires i1 <= i < i2 && i1 <= j < i2 <= |rows|
    ensures Permuted(rows, rows[i := rows[j]][j := rows[i]], i1, i2)
  {
    var now := rows[i := rows[j]][j := rows[i]];
    var part := rows[i1..i2];
    var part' := part[i - i1 := part[j - i1]];
    assert now[i1..i2] == part'[j - i1 := part[i - i1]];
    assert multiset(part') == multiset(part) - multiset{part[i - i1]} + multiset{part[j - i1]};
    assert part'[j - i1] == part[j - i1];
  }

  lemma PermutedTransitive(a: seq<Row>, b: seq<Row>, c: seq<Row>, i1: nat, i2: nat)
    requires Permuted(a, b, i1, i2) && Permuted(b, c, i1, i2)
    ensures Permuted(a, c, i1, i2)
  {
  }

  /** Rearranging a part of a range rearranges the range. */
  lemma PermutedWider(was: seq<Row>, now: seq<Row>, i1: nat, i2: nat, j1: nat, j2: nat)
    requires Permuted(was, now, i1, i2) && j1 <= i1 && i2 <= j2 <= |was|
    ensures Permuted(was, now, j1, j2)
  {
    assert now[j1..j2] == now[j1..i1] + now[i1..i2] + now[i2..j2];
    assert was[j1..j2] == was[j1..i1] + was[i1..i2] + was[i2..j2];
    assert now[j1..i1] == now[..i1][j1..] && was[j1..i1] == was[..i1][j1..];
    assert now[i2..j2] == now[i2..][..j2 - i2] && was[i2..j2] == was[i2..][..j2 - i2];
    assert now[..j1] == now[..i1][..j1] && was[..j1] == was[..i1][..j1];
    assert now[j2..] == now[i2..][j2 - i2..] && was[j2..] == was[i2..][j2 - i2..];
  }

  /** A subtree keeps fitting when rows outside it are rearranged. */
  lemma {:induction false} FitsFrame(t: Tree, was: seq<Row>, now: seq<Row>, nx: nat, b: Box)
    requires RowsOk(was, nx) && RowsOk(now, nx) && |was| == |now| && Contiguous(t)
    requires forall i | First(t) <= i < End(t) && i < |was| :: now[i] == was[i]
    requires Fits(t, was, nx, b)
    ensures Fits(t, now, nx, b)
  {
    match t {
      case Leaf(i1, i2) =>
      case Split(d, s, l, r) =>
        ContiguousNonEmpty(l);
        ContiguousNonEmpty(r);
        FitsFrame(l, was, now, nx, LeftHalf(b, d, s));
        FitsFrame(r, was, now, nx, RightHalf(b, d, s));
    }
  }

  /** The number of dimensions in which the box is not flat. */
  function Extended(b: Box, n: nat): nat
    requires n <= |b.lo| && n <= |b.hi|
  {
    if n == 0 then 0 else Extended(b, n - 1) + if b.lo[n - 1] < b.hi[n - 1] then 1 else 0
  }

  lemma {:induction false} FlattenDrops(b: Box, n: nat, d: nat, v: real)
    requires d < |b.lo| && n <= |b.lo| == |b.hi| && b.lo[d] < b.hi[d]
    ensures Extended(Box(b.lo[d := v], b.hi[d := v]), n) == Extended(b, n) - if d < n then 1 else 0
  {
    if n > 0 {
      FlattenDrops(b, n - 1, d, v);
    }
  }

  // ---- queries ----

  /** `kneeded` is 0 when the number of results is not limited, `rneeded` is 0 when the distance
      is not; `approxf` is 1 for an exact query. */
  datatype Query = Query(norm: Norm, x: Point, kneeded: nat, rneeded: real, selfmatch: bool, approxf: real)

  /** The distance of every row from the query point. */
  function Distances(rows: seq<Row>, q: Query): (ds: seq<real>)
    requires RowsOk(rows, |q.x|)
    ensures |ds| == |rows|
  {
    seq(|rows|, i requires 0 <= i < |rows| => Distance(q.norm, rows[i].coords, q.x))
  }

  predicate NonNegativeAll(ds: seq<real>) {
    forall i | 0 <= i < |ds| :: ds[i] >= 0.0
  }

  lemma DistanceNonNegative(norm: Norm, p: Point, x: Point)
    requires |x| <= |p|
    ensures Distance(norm, p, x) >= 0.0
  {
    var ds := Differences(p, x);
    TotalMonotone(norm, ds, ds);
  }

  lemma DistancesNonNegative(rows: seq<Row>, q: Query)
    requires RowsOk(rows, |q.x|)
    ensures NonNegativeAll(Distances(rows, q))
  {
    forall i | 0 <= i < |rows| ensures Distances(rows, q)[i] >= 0.0 {
      DistanceNonNegative(q.norm, rows[i].coords, q.x);
    }
  }

  /** Whether a row at distance v may be a result. */
  predicate Eligible(q: Query, v: real) {
    (v != 0.0 || q.selfmatch) && (q.rneeded == 0.0 || v <= q.rneeded)
  }

  /** Every entry of m is an eligible row among those seen, listed once. */
  predicate Sound(m: multiset<Entry>, ds: seq<real>, q: Query, seen: set<nat>) {
    forall e | e in m ::
      e.tag in seen && 0 <= e.tag < |ds| && e.key == ds[e.tag] && Eligible(q, e.key) && m[e] == 1
  }

  /** m is full, and no entry of it is farther than v, up to the approximation factor. */
  predicate Crowded(m: multiset<Entry>, q: Query, v: real) {
    q.kneeded > 0 && |m| == q.kneeded && forall e | e in m :: e.key * q.approxf <= v
  }

  /** An eligible row is left out only if there are enough results that are not farther. */
  predicate Complete(m: multiset<Entry>, ds: seq<real>, q: Query, seen: set<nat>) {
    forall i | i in seen && i < |ds| && Eligible(q, ds[i]) :: Entry(ds[i], i) in m || Crowded(m, q, ds[i])
  }

  /** m is the answer to the query restricted to the rows in `seen`. */
  predicate Best(m: multiset<Entry>, ds: seq<real>, q: Query, seen: set<nat>) {
    Sound(m, ds, q, seen) && Complete(m, ds, q, seen) && (q.kneeded > 0 ==> |m| <= q.kneeded)
  }

  // ---- one more row ----

  lemma SeeIneligible(m: multiset<Entry>, ds: seq<real>, q: Query, seen: set<nat>, i: nat)
    requires Best(m, ds, q, seen) && i < |ds| && !Eligible(q, ds[i])
    ensures Best(m, ds, q, seen + {i})
  {
    hide Crowded, Eligible;
  }

  lemma SeeAdded(m: multiset<Entry>, ds: seq<real>, q: Query, seen: set<nat>, i: nat)
    requires Best(m, ds, q, seen) && i < |ds| && i !in seen && Eligible(q, ds[i])
    requires q.kneeded == 0 || |m| < q.kneeded
    ensures Best(m + multiset{Entry(ds[i], i)}, ds, q, seen + {i})
  {
    hide Eligible;
    var e := Entry(ds[i], i);
    assert e !in m;
    var m' := m + multiset{e};
    assert forall f | f in m' :: f in m || f == e;
  }

  lemma ScaleDown(a: real, f: real)
    requires 0.0 <= a && 0.0 < f <= 1.0
    ensures a * f <= a
  {
  }

  lemma ScaleMonotone(a: real, b: real, f: real)
    requires a <= b && 0.0 < f
    ensures a * f <= b * f
  {
  }

  /** Keys up to `top`, which is itself at most v or at most v after scaling, crowd out v. */
  lemma Crowds(m: multiset<Entry>, ds: seq<real>, q: Query, top: real, v: real)
    requires q.kneeded > 0 && |m| == q.kneeded && 0.0 < q.approxf <= 1.0
    requires forall e | e in m :: 0.0 <= e.key <= top
    requires top <= v || top * q.approxf <= v
    ensures Crowded(m, q, v)
  {
    forall e | e in m ensures e.key * q.approxf <= v {
      ScaleMonotone(e.key, top, q.approxf);
      if top <= v {
        ScaleDown(top, q.approxf);
      }
    }
  }

  lemma SoundKeys(m: multiset<Entry>, ds: seq<real>, q: Query, seen: set<nat>)
    requires Sound(m, ds, q, seen) && NonNegativeAll(ds)
    ensures forall e | e in m :: 0.0 <= e.key
  {
  }

  lemma SeeTooFar(m: multiset<Entry>, ds: seq<real>, q: Query, seen: set<nat>, i: nat, top: real)
    requires Best(m, ds, q, seen) && NonNegativeAll(ds) && i < |ds| && q.kneeded > 0 && |m| == q.kneeded
    requires 0.0 < q.approxf <= 1.0 && (forall e | e in m :: e.key <= top) && top <= ds[i]
    ensures Best(m, ds, q, seen + {i})
  {
    SoundKeys(m, ds, q, seen);
    Crowds(m, ds, q, top, ds[i]);
    hide Crowded, Eligible;
  }

  lemma SeeReplaced(m: multiset<Entry>, ds: seq<real>, q: Query, seen: set<nat>, i: nat, top: Entry)
    requires Best(m, ds, q, seen) && NonNegativeAll(ds) && i < |ds| && i !in seen && Eligible(q, ds[i])
    requires q.kneeded > 0 && |m| == q.kneeded && 0.0 < q.approxf <= 1.0
    requires top in m && (forall e | e in m :: e.key <= top.key) && ds[i] < top.key
    ensures Best(m - multiset{top} + multiset{Entry(ds[i], i)}, ds, q, seen + {i})
  {
    hide Eligible, Complete, Crowded;
    SoundKeys(m, ds, q, seen);
    var e := Entry(ds[i], i);
    var m' := m - multiset{top} + multiset{e};
    assert e !in m;
    Replaced(m, top, e);
    assert Sound(m', ds, q, seen + {i});
    assert Complete(m', ds, q, seen + {i}) by {
      ReplacedComplete(m, m', ds, q, seen, i, top);
    }
  }

  lemma Replaced(m: multiset<Entry>, top: Entry, e: Entry)
    requires top in m && e !in m && forall f | f in m :: m[f] == 1
    ensures var m' := m - multiset{top} + multiset{e};
            && |m'| == |m|
            && (forall f | f in m' :: m'[f] == 1 && (f == e || f in m))
            && (forall f | f in m && f != top :: f in m')
            && e in m'
  {
  }

  lemma ReplacedComplete(m: multiset<Entry>, m': multiset<Entry>, ds: seq<real>, q: Query, seen: set<nat>, i: nat,
                         top: Entry)
    requires Complete(m, ds, q, seen) && 0.0 < q.approxf <= 1.0 && i < |ds|
    requires |m'| == |m| == q.kneeded > 0 && top in m && top.key >= 0.0
    requires (forall f | f in m && f != top :: f in m') && Entry(ds[i], i) in m'
    requires forall f | f in m' :: 0.0 <= f.key <= top.key
    ensures Complete(m', ds, q, seen + {i})
  {
    hide Eligible, Crowded;
    forall j | j in seen + {i} && j < |ds| && Eligible(q, ds[j]) && Entry(ds[j], j) !in m'
      ensures Crowded(m', q, ds[j])
    {
      if Entry(ds[j], j) !in m {
        CrowdedBy(m, q, ds[j], top);
      }
      Crowds(m', ds, q, top.key, ds[j]);
    }
  }

  // ---- a subtree that is not visited ----

  function Interval(a: nat, b: nat): (r: set<nat>)
    ensures forall i: nat :: i in r <==> a <= i < b
    decreases b
  {
    if b <= a then {} else Interval(a, b - 1) + {b - 1}
  }

  /** Skipping rows is right when they are out of range, or farther than the worst result once
      there are enough of them. */
  lemma SkipRows(m: multiset<Entry>, ds: seq<real>, q: Query, seen: set<nat>, more: set<nat>, dist: real, top: real)
    requires Best(m, ds, q, seen) && NonNegativeAll(ds) && 0.0 < q.approxf <= 1.0
    requires forall i | i in more :: i < |ds| && dist <= ds[i]
    requires
      || (q.rneeded != 0.0 && dist > q.rneeded)
      || (q.kneeded > 0 && |m| == q.kneeded && dist > top * q.approxf && forall e | e in m :: e.key <= top)
    ensures Best(m, ds, q, seen + more)
  {
    if q.rneeded != 0.0 && dist > q.rneeded {
      hide Crowded;
      assert forall i | i in more :: !Eligible(q, ds[i]);
    } else {
      SoundKeys(m, ds, q, seen);
      forall i | i in more ensures Crowded(m, q, ds[i]) {
        Crowds(m, ds, q, top, ds[i]);
      }
      hide Crowded, Eligible;
    }
  }

  lemma SkipSubtree(m: multiset<Entry>, rows: seq<Row>, q: Query, seen: set<nat>, t: Tree, b: Box, top: real)
    requires RowsOk(rows, |q.x|) && Best(m, Distances(rows, q), q, seen) && 0.0 < q.approxf <= 1.0
    requires Contiguous(t) && BoxOk(b, |q.x|) && Fits(t, rows, |q.x|, b)
    requires
      var dist := BoxDistance(q.norm, b, q.x);
      || (q.rneeded != 0.0 && dist > q.rneeded)
      || (q.kneeded > 0 && |m| == q.kneeded && dist > top * q.approxf && forall e | e in m :: e.key <= top)
    ensures Best(m, Distances(rows, q), q, seen + Interval(First(t), End(t)))
  {
    var more := Interval(First(t), End(t));
    var dist := BoxDistance(q.norm, b, q.x);
    forall i | i in more ensures i < |rows| && dist <= Distances(rows, q)[i] {
      FitsAllRows(t, rows, |q.x|, b, i);
      BoxIsNearer(q.norm, b, rows[i].coords, q.x);
    }
    DistancesNonNegative(rows, q);
    hide Best, Fits, Contiguous, Distances, BoxDistance;
    SkipRows(m, Distances(rows, q), q, seen, more, dist, top);
  }

  // ---- against a linear scan ----

  /** The eligible rows among the first n, one by one. */
  function Scan(ds: seq<real>, q: Query, n: nat): seq<Entry>
    requires n <= |ds|
  {
    if n == 0 then []
    else if Eligible(q, ds[n - 1]) then Scan(ds, q, n - 1) + [Entry(ds[n - 1], n - 1)]
    else Scan(ds, q, n - 1)
  }

  lemma {:induction false} ScanMembers(ds: seq<real>, q: Query, n: nat, e: Entry)
    requires n <= |ds|
    ensures multiset(Scan(ds, q, n))[e] ==
            if 0 <= e.tag < n && e.key == ds[e.tag] && Eligible(q, e.key) then 1 else 0
  {
    hide Eligible;
    if n > 0 {
      ScanMembers(ds, q, n - 1, e);
    }
  }

  /** `all` lists the eligible rows in ascending order of distance. */
  predicate SortedScan(all: seq<Entry>, ds: seq<real>, q: Query) {
    Ascending(all) && multiset(all) == multiset(Scan(ds, q, |ds|))
  }

  lemma SortedScanMembers(all: seq<Entry>, ds: seq<real>, q: Query)
    requires SortedScan(all, ds, q)
    ensures forall e | e in multiset(all) ::
              multiset(all)[e] == 1 && 0 <= e.tag < |ds| && e.key == ds[e.tag] && Eligible(q, e.key)
    ensures forall i: nat | i < |ds| && Eligible(q, ds[i]) :: Entry(ds[i], i) in multiset(all)
  {
    forall e
      ensures multiset(all)[e]
           == if 0 <= e.tag < |ds| && e.key == ds[e.tag] && Eligible(q, e.key) then 1 else 0
    {
      ScanMembers(ds, q, |ds|, e);
    }
  }

  /** If the first m elements of a all occur in b with a key below b[n], then m is at most n. */
  lemma CountBelow(a: seq<Entry>, m: nat, b: seq<Entry>, n: nat)
    requires m <= |a| && n < |b| && Ascending(b)
    requires forall e | e in multiset(a) :: multiset(a)[e] == 1
    requires forall i | 0 <= i < m :: a[i] in multiset(b) && a[i].key < b[n].key
    ensures m <= n
  {
    var u, v := a[..m], b[..n];
    assert a == u + a[m..];
    forall e ensures multiset(u)[e] <= multiset(v)[e] {
      if e in multiset(u) {
        assert multiset(u)[e] <= multiset(a)[e];
        var i :| 0 <= i < m && a[i] == e;
        assert e in b;
        var j :| 0 <= j < |b| && b[j] == e;
        assert j < n;
        assert v[j] == e;
      }
    }
    assert multiset(u) <= multiset(v);
    assert |multiset(u)| <= |multiset(v)| by {
      assert multiset(v) == multiset(u) + (multiset(v) - multiset(u));
    }
  }

  /** `results` is a part of `all`, and what it leaves out is crowded out. */
  predicate Selects(results: seq<Entry>, all: seq<Entry>, q: Query) {
    && Ascending(results) && Ascending(all)
    && (forall e | e in multiset(all) :: multiset(all)[e] == 1)
    && (forall e | e in multiset(results) :: e in multiset(all) && multiset(results)[e] == 1 && e.key >= 0.0)
    && (forall e | e in multiset(all) && e !in multiset(results) :: Crowded(multiset(results), q, e.key))
  }

  lemma BestSelects(results: seq<Entry>, all: seq<Entry>, ds: seq<real>, q: Query)
    requires Best(multiset(results), ds, q, Interval(0, |ds|)) && Ascending(results)
    requires SortedScan(all, ds, q) && NonNegativeAll(ds)
    ensures Selects(results, all, q)
  {
    hide Crowded, Eligible, Ascending;
    SortedScanMembers(all, ds, q);
  }

  /** The i-th result is not nearer than the i-th nearest row. */
  lemma NotNearer(results: seq<Entry>, all: seq<Entry>, q: Query, i: nat)
    requires Selects(results, all, q) && i < |results| && i < |all|
    ensures all[i].key <= results[i].key
  {
    hide Crowded;
    if results[i].key < all[i].key {
      forall j | 0 <= j <= i ensures results[j] in multiset(all) && results[j].key < all[i].key {
        assert results[j] in multiset(results);
      }
      CountBelow(results, i + 1, all, i);
    }
  }

  /** The i-th result is not farther than the i-th nearest row, up to the approximation factor. */
  lemma NotFarther(results: seq<Entry>, all: seq<Entry>, q: Query, i: nat)
    requires Selects(results, all, q) && i < |results| && i < |all| && 0.0 < q.approxf <= 1.0
    ensures results[i].key * q.approxf <= all[i].key
  {
    hide Crowded, Selects;
    var m := multiset(results);
    assert results[i] in m;
    SelectedNonNegative(results, all, q, i);
    ScaleDown(results[i].key, q.approxf);
    forall v | Crowded(m, q, v) ensures results[i].key * q.approxf <= v {
      CrowdedBy(m, q, v, results[i]);
    }
    NotFartherThan(results, all, q, i, results[i].key * q.approxf);
  }

  lemma SelectedNonNegative(results: seq<Entry>, all: seq<Entry>, q: Query, i: nat)
    requires Selects(results, all, q) && i < |results|
    ensures results[i].key >= 0.0
  {
    assert results[i] in multiset(results);
  }

  lemma NotFartherThan(results: seq<Entry>, all: seq<Entry>, q: Query, i: nat, scaled: real)
    requires Selects(results, all, q) && i < |results| && i < |all| && scaled <= results[i].key
    requires forall v | Crowded(multiset(results), q, v) :: scaled <= v
    ensures scaled <= all[i].key
  {
    hide Crowded;
    if scaled > all[i].key {
      forall j | 0 <= j <= i ensures all[j] in multiset(results) && all[j].key < results[i].key {
        assert all[j] in multiset(all);
      }
      CountBelow(all, i + 1, results, i);
    }
  }

  lemma CrowdedBy(m: multiset<Entry>, q: Query, v: real, e: Entry)
    requires Crowded(m, q, v) && e in m
    ensures e.key * q.approxf <= v
  {
  }

  lemma SelectsCount(results: seq<Entry>, all: seq<Entry>, q: Query)
    requires Selects(results, all, q) && (q.kneeded > 0 ==> |results| <= q.kneeded)
    ensures |results| == if q.kneeded > 0 && q.kneeded < |all| then q.kneeded else |all|
    ensures |results| == |all| ==> multiset(results) == multiset(all)
  {
    hide Ascending;
    assert multiset(results) <= multiset(all);
    var rest := multiset(all) - multiset(results);
    assert multiset(all) == multiset(results) + rest;
    if rest != multiset{} {
      var e :| e in rest;
      assert e !in multiset(results);
      assert Crowded(multiset(results), q, e.key);
    }
  }

  /** The answer to a query, sorted, against the sorted linear scan: as many results as asked for
      or as there are, the i-th of them not nearer than the i-th nearest row, and not farther than
      it either, up to the approximation factor. */
  lemma ResultsMatchScan(results: seq<Entry>, all: seq<Entry>, ds: seq<real>, q: Query)
    requires Best(multiset(results), ds, q, Interval(0, |ds|)) && Ascending(results)
    requires SortedScan(all, ds, q) && NonNegativeAll(ds) && 0.0 < q.approxf <= 1.0
    ensures |results| == if q.kneeded > 0 && q.kneeded < |all| then q.kneeded else |all|
    ensures forall i | 0 <= i < |results| ::
              all[i].key <= results[i].key && results[i].key * q.approxf <= all[i].key
    ensures q.kneeded == 0 ==> multiset(results) == multiset(all)
  {
    hide Sound, Complete, SortedScan, Selects, Ascending;
    BestSelects(results, all, ds, q);
    SelectsCount(results, all, q);
    forall i | 0 <= i < |results|
      ensures all[i].key <= results[i].key && results[i].key * q.approxf <= all[i].key
    {
      NotNearer(results, all, q, i);
      NotFarther(results, all, q, i);
    }
  }

  /** With eps = 0 the distances are exactly the smallest ones of the scan. */
  lemma ExactResults(results: seq<Entry>, all: seq<Entry>, ds: seq<real>, q: Query)
    requires Best(multiset(results), ds, q, Interval(0, |ds|)) && Ascending(results)
    requires SortedScan(all, ds, q) && NonNegativeAll(ds) && q.approxf == 1.0
    ensures |results| == if q.kneeded > 0 && q.kneeded < |all| then q.kneeded else |all|
    ensures forall i | 0 <= i < |results| :: results[i].key == all[i].key
  {
    hide Best, SortedScan, Ascending;
    ResultsMatchScan(results, all, ds, q);
    forall i | 0 <= i < |results| ensures results[i].key == all[i].key {
      assert results[i].key * q.approxf == results[i].key;
    }
  }
}
