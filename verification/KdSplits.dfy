/** Where the kd-tree of ALGLIB divides its rows (alglibmisc.cpp, nearest neighbour section): by the sliding midpoint
    rule, down to small leaves. */
module KdSplits {
  import opened KdGeometry
  import opened KdSpec

  const MAX_LEAF_SIZE := 8

  ghost function Part(rows: seq<Row>, i1: nat, i2: nat): set<Row>
    requires i1 <= i2 <= |rows|
  {
    set i | i1 <= i < i2 :: rows[i]
  }

  /** The rows differ in dimension j. */
  ghost predicate Vary(part: set<Row>, j: nat) {
    exists p, q :: p in part && q in part && j < |p.coords| && j < |q.coords| && p.coords[j] != q.coords[j]
  }

  /** Rows differ in dimension d, and of those in which they do it is one in which the box is longest. */
  ghost predicate LongestVarying(part: set<Row>, nx: nat, b: Box, d: nat)
    requires BoxOk(b, nx)
  {
    && d < nx && Vary(part, d)
    && forall j: nat | j < nx && Vary(part, j) :: b.hi[j] - b.lo[j] <= b.hi[d] - b.lo[d]
  }

  ghost predicate SomeBelow(part: set<Row>, d: nat, v: real) {
    exists p :: p in part && d < |p.coords| && p.coords[d] < v
  }

  ghost predicate SomeAbove(part: set<Row>, d: nat, v: real) {
    exists p :: p in part && d < |p.coords| && p.coords[d] > v
  }

  ghost predicate SomeAt(part: set<Row>, d: nat, v: real) {
    exists p :: p in part && d < |p.coords| && p.coords[d] == v
  }

  /** The split is in the middle if there are rows on both sides of it, else at the row nearest to the middle. */
  ghost predicate SlidTo(part: set<Row>, d: nat, middle: real, s: real) {
    if SomeBelow(part, d, middle) && SomeAbove(part, d, middle) then s == middle
    else SomeAt(part, d, s) && if SomeBelow(part, d, middle) then !SomeAbove(part, d, s) else !SomeBelow(part, d, s)
  }

  /** Every bound of the box is reached by a row. */
  ghost predicate Tight(part: set<Row>, b: Box, nx: nat)
    requires |b.lo| == nx && |b.hi| == nx
  {
    forall j: nat | j < nx :: SomeAt(part, j, b.lo[j]) && SomeAt(part, j, b.hi[j])
  }

  lemma TightMore(part: set<Row>, more: set<Row>, b: Box, nx: nat)
    requires |b.lo| == nx && |b.hi| == nx && Tight(part, b, nx) && part <= more
    ensures Tight(more, b, nx)
  {
    forall j: nat | j < nx
      ensures SomeAt(more, j, b.lo[j]) && SomeAt(more, j, b.hi[j])
    {
      assert SomeAt(part, j, b.lo[j]) && SomeAt(part, j, b.hi[j]);
    }
  }

  function Middle(b: Box, d: nat): real
    requires d < |b.lo| && d < |b.hi|
  {
    b.lo[d] + 0.5 * (b.hi[d] - b.lo[d])
  }

  /** A leaf has few rows, or rows that are all in one place; any other node divides its box, across a longest dimension
      in which its rows differ, by the sliding midpoint rule. */
  ghost predicate Slid(t: Tree, rows: seq<Row>, nx: nat, b: Box) {
    && First(t) <= End(t) <= |rows| && BoxOk(b, nx)
    && var part := Part(rows, First(t), End(t));
    match t
    case Leaf(i1, i2) => i2 - i1 <= MAX_LEAF_SIZE || forall j: nat | j < nx :: !Vary(part, j)
    case Split(d, s, l, r) =>
      && End(t) - First(t) > MAX_LEAF_SIZE
      && LongestVarying(part, nx, b, d) && SlidTo(part, d, Middle(b, d), s)
      && Slid(l, rows, nx, LeftHalf(b, d, s)) && Slid(r, rows, nx, RightHalf(b, d, s))
  }

  lemma PermutedPart(was: seq<Row>, now: seq<Row>, i1: nat, i2: nat)
    requires Permuted(was, now, i1, i2)
    ensures Part(now, i1, i2) == Part(was, i1, i2)
  {
    forall i | i1 <= i < i2
      ensures now[i] in Part(was, i1, i2) && was[i] in Part(now, i1, i2)
    {
      var j := PermutedRow(was, now, i1, i2, i);
      var k := PermutedRow(now, was, i1, i2, i);
    }
  }

  lemma PartWithin(rows: seq<Row>, i1: nat, i2: nat, j1: nat, j2: nat)
    requires j1 <= i1 <= i2 <= j2 <= |rows|
    ensures Part(rows, i1, i2) <= Part(rows, j1, j2)
  {
  }

  lemma VaryMore(part: set<Row>, more: set<Row>, j: nat)
    requires part <= more && Vary(part, j)
    ensures Vary(more, j)
  {
  }

  /** Only the rows of the tree matter. */
  lemma {:induction false} SlidFrame(t: Tree, was: seq<Row>, now: seq<Row>, nx: nat, b: Box)
    requires Contiguous(t) && |was| == |now| && Slid(t, was, nx, b)
    requires forall i | First(t) <= i < End(t) :: now[i] == was[i]
    ensures Slid(t, now, nx, b)
  {
    hide SlidTo, Vary;
    assert Part(now, First(t), End(t)) == Part(was, First(t), End(t));
    match t {
      case Leaf(i1, i2) =>
      case Split(d, s, l, r) =>
        ContiguousNonEmpty(l);
        ContiguousNonEmpty(r);
        SlidFrame(l, was, now, nx, LeftHalf(b, d, s));
        SlidFrame(r, was, now, nx, RightHalf(b, d, s));
    }
  }

  ghost predicate SameWhere(part: set<Row>, nx: nat, b: Box, c: Box)
    requires BoxOk(b, nx) && BoxOk(c, nx)
  {
    forall j: nat | j < nx && Vary(part, j) :: b.lo[j] == c.lo[j] && b.hi[j] == c.hi[j]
  }

  lemma SameInHalves(part: set<Row>, more: set<Row>, nx: nat, b: Box, c: Box, d: nat, s: real)
    requires BoxOk(b, nx) && BoxOk(c, nx) && d < nx && b.lo[d] <= s <= b.hi[d] && c.lo[d] <= s <= c.hi[d]
    requires part <= more && SameWhere(more, nx, b, c)
    ensures SameWhere(part, nx, LeftHalf(b, d, s), LeftHalf(c, d, s))
    ensures SameWhere(part, nx, RightHalf(b, d, s), RightHalf(c, d, s))
  {
    forall j: nat | j < nx && Vary(part, j)
      ensures b.lo[j] == c.lo[j] && b.hi[j] == c.hi[j]
    {
      VaryMore(part, more, j);
    }
  }

  lemma SameDimension(part: set<Row>, nx: nat, b: Box, c: Box, d: nat)
    requires BoxOk(b, nx) && BoxOk(c, nx) && SameWhere(part, nx, b, c) && LongestVarying(part, nx, b, d)
    ensures LongestVarying(part, nx, c, d)
    ensures d < nx && b.lo[d] == c.lo[d] && b.hi[d] == c.hi[d]
  {
    hide Vary;
  }

  /** The split lies in the box, so both halves of another box with the same bounds there are boxes. */
  lemma HalvesOk(nx: nat, b: Box, c: Box, d: nat, s: real)
    requires BoxOk(b, nx) && BoxOk(c, nx) && d < nx && b.lo[d] == c.lo[d] && b.hi[d] == c.hi[d]
    requires BoxOk(LeftHalf(b, d, s), nx) && BoxOk(RightHalf(b, d, s), nx)
    ensures b.lo[d] <= s <= b.hi[d] && BoxOk(LeftHalf(c, d, s), nx) && BoxOk(RightHalf(c, d, s), nx)
  {
    assert LeftHalf(b, d, s).hi[d] == s && RightHalf(b, d, s).lo[d] == s;
  }

  /** The box matters only in the dimensions in which the rows differ. */
  lemma {:induction false} SlidInBox(t: Tree, rows: seq<Row>, nx: nat, b: Box, c: Box)
    requires Contiguous(t) && Slid(t, rows, nx, b) && BoxOk(c, nx)
    requires SameWhere(Part(rows, First(t), End(t)), nx, b, c)
    ensures Slid(t, rows, nx, c)
  {
    hide Part, Vary, SlidTo, LongestVarying, SameWhere;
    match t {
      case Leaf(i1, i2) =>
      case Split(d, s, l, r) =>
        ContiguousNonEmpty(l);
        ContiguousNonEmpty(r);
        var part := Part(rows, First(t), End(t));
        PartWithin(rows, First(l), End(l), First(t), End(t));
        PartWithin(rows, First(r), End(r), First(t), End(t));
        SameDimension(part, nx, b, c, d);
        HalvesOk(nx, b, c, d, s);
        SameInHalves(Part(rows, First(l), End(l)), part, nx, b, c, d, s);
        SameInHalves(Part(rows, First(r), End(r)), part, nx, b, c, d, s);
        SlidInBox(l, rows, nx, LeftHalf(b, d, s), LeftHalf(c, d, s));
        SlidInBox(r, rows, nx, RightHalf(b, d, s), RightHalf(c, d, s));
    }
  }
}
