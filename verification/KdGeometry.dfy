/** Distances of the kd-tree (alglibmisc.cpp) over the reals: norm 0 is the largest coordinate
    difference, norm 1 their sum, norm 2 the sum of their squares (the tree never takes the root).
    The tree keeps the distance from the query point to a box and adjusts one coordinate of it
    at a time. */
module KdGeometry {

  type Point = seq<real>
  type Norm = n: int | 0 <= n <= 2

  datatype Box = Box(lo: Point, hi: Point)

  function Abs(t: real): real {
    if t < 0.0 then -t else t
  }

  function MaxReal(a: real, b: real): real {
    if a < b then b else a
  }

  function Cost(norm: Norm, t: real): real {
    if norm == 2 then t * t else t
  }

  /** The norm of a list of coordinate differences. */
  function Total(norm: Norm, ts: seq<real>): real {
    if ts == [] then 0.0
    else
      var init := Total(norm, ts[..|ts| - 1]);
      if norm == 0 then MaxReal(init, ts[|ts| - 1]) else init + Cost(norm, ts[|ts| - 1])
  }

  function Differences(p: Point, x: Point): seq<real>
    requires |x| <= |p|
  {
    seq(|x|, j requires 0 <= j < |x| => Abs(p[j] - x[j]))
  }

  function Distance(norm: Norm, p: Point, x: Point): real
    requires |x| <= |p|
  {
    Total(norm, Differences(p, x))
  }

  /** How far t is from the interval. */
  function Gap(lo: real, hi: real, t: real): real {
    if t < lo then lo - t else if t > hi then t - hi else 0.0
  }

  predicate BoxOk(b: Box, nx: nat) {
    && |b.lo| == nx && |b.hi| == nx
    && forall j | 0 <= j < nx :: b.lo[j] <= b.hi[j]
  }

  predicate InBox(p: Point, b: Box)
    requires |b.lo| == |b.hi| <= |p|
  {
    forall j | 0 <= j < |b.lo| :: b.lo[j] <= p[j] <= b.hi[j]
  }

  function Gaps(b: Box, x: Point): seq<real>
    requires BoxOk(b, |x|)
  {
    seq(|x|, j requires 0 <= j < |x| => Gap(b.lo[j], b.hi[j], x[j]))
  }

  function BoxDistance(norm: Norm, b: Box, x: Point): real
    requires BoxOk(b, |x|)
  {
    Total(norm, Gaps(b, x))
  }

  predicate NonNegative(ts: seq<real>) {
    forall i | 0 <= i < |ts| :: ts[i] >= 0.0
  }

  lemma SquareMonotone(a: real, b: real)
    requires 0.0 <= a <= b
    ensures 0.0 <= a * a <= b * b
  {
    assert a * a <= a * b <= b * b;
  }

  lemma {:induction false} TotalMonotone(norm: Norm, ts: seq<real>, us: seq<real>)
    requires |ts| == |us| && NonNegative(ts)
    requires forall i | 0 <= i < |ts| :: ts[i] <= us[i]
    ensures 0.0 <= Total(norm, ts) <= Total(norm, us)
  {
    if ts != [] {
      var n := |ts| - 1;
      TotalMonotone(norm, ts[..n], us[..n]);
      SquareMonotone(ts[n], us[n]);
    }
  }

  /** Pruning is safe: no point of a box is nearer than the box. */
  lemma BoxIsNearer(norm: Norm, b: Box, p: Point, x: Point)
    requires BoxOk(b, |x|) && |x| <= |p| && InBox(p, b)
    ensures 0.0 <= BoxDistance(norm, b, x) <= Distance(norm, p, x)
  {
    TotalMonotone(norm, Gaps(b, x), Differences(p, x));
  }

  /** Replacing one coordinate difference, as the query does when it enters a half box. */
  lemma {:induction false} TotalUpdate(norm: Norm, ts: seq<real>, d: nat, u: real)
    requires d < |ts| && NonNegative(ts) && ts[d] <= u
    ensures norm == 0 ==> Total(norm, ts[d := u]) == MaxReal(Total(norm, ts), u)
    ensures norm != 0 ==> Total(norm, ts[d := u]) == Total(norm, ts) - Cost(norm, ts[d]) + Cost(norm, u)
  {
    var n := |ts| - 1;
    if d == n {
      assert ts[d := u][..n] == ts[..n];
    } else {
      TotalUpdate(norm, ts[..n], d, u);
      assert ts[d := u][..n] == ts[..n][d := u];
    }
  }

  // ---- entering one half of a box ----

  function RightHalf(b: Box, d: nat, s: real): Box
    requires d < |b.lo|
  {
    b.(lo := b.lo[d := s])
  }

  function LeftHalf(b: Box, d: nat, s: real): Box
    requires d < |b.hi|
  {
    b.(hi := b.hi[d := s])
  }

  /** The adjustment of the box distance when the lower bound of dimension d rises to s. */
  function RaisedDistance(norm: Norm, dist: real, b: Box, x: Point, d: nat, s: real): real
    requires BoxOk(b, |x|) && d < |x|
  {
    var t, v := x[d], b.lo[d];
    if t > s then dist
    else if norm == 0 then MaxReal(dist, s - t)
    else if norm == 1 then dist - MaxReal(v - t, 0.0) + s - t
    else dist - MaxReal(v - t, 0.0) * MaxReal(v - t, 0.0) + (s - t) * (s - t)
  }

  /** The adjustment when the upper bound of dimension d drops to s. */
  function LoweredDistance(norm: Norm, dist: real, b: Box, x: Point, d: nat, s: real): real
    requires BoxOk(b, |x|) && d < |x|
  {
    var t, v := x[d], b.hi[d];
    if t < s then dist
    else if norm == 0 then MaxReal(dist, t - s)
    else if norm == 1 then dist - MaxReal(t - v, 0.0) + t - s
    else dist - MaxReal(t - v, 0.0) * MaxReal(t - v, 0.0) + (t - s) * (t - s)
  }

  /** The incremental distance is the distance to the new box. */
  lemma RaisedIsDistance(norm: Norm, b: Box, x: Point, d: nat, s: real)
    requires BoxOk(b, |x|) && d < |x| && b.lo[d] <= s <= b.hi[d]
    ensures BoxOk(RightHalf(b, d, s), |x|)
    ensures RaisedDistance(norm, BoxDistance(norm, b, x), b, x, d, s) == BoxDistance(norm, RightHalf(b, d, s), x)
  {
    hide Total;
    RaisedGaps(b, x, d, s);
    var g := Gaps(b, x);
    if x[d] <= s {
      hide Gaps;
      TotalUpdate(norm, g, d, s - x[d]);
    }
  }

  lemma RaisedGaps(b: Box, x: Point, d: nat, s: real)
    requires BoxOk(b, |x|) && d < |x| && b.lo[d] <= s <= b.hi[d]
    ensures BoxOk(RightHalf(b, d, s), |x|) && NonNegative(Gaps(b, x))
    ensures x[d] <= s ==> Gaps(b, x)[d] == MaxReal(b.lo[d] - x[d], 0.0) <= s - x[d]
    ensures Gaps(RightHalf(b, d, s), x) == if x[d] > s then Gaps(b, x) else Gaps(b, x)[d := s - x[d]]
  {
  }

  lemma LoweredIsDistance(norm: Norm, b: Box, x: Point, d: nat, s: real)
    requires BoxOk(b, |x|) && d < |x| && b.lo[d] <= s <= b.hi[d]
    ensures BoxOk(LeftHalf(b, d, s), |x|)
    ensures LoweredDistance(norm, BoxDistance(norm, b, x), b, x, d, s) == BoxDistance(norm, LeftHalf(b, d, s), x)
  {
    hide Total;
    LoweredGaps(b, x, d, s);
    var g := Gaps(b, x);
    if x[d] >= s {
      hide Gaps;
      TotalUpdate(norm, g, d, x[d] - s);
    }
  }

  lemma LoweredGaps(b: Box, x: Point, d: nat, s: real)
    requires BoxOk(b, |x|) && d < |x| && b.lo[d] <= s <= b.hi[d]
    ensures BoxOk(LeftHalf(b, d, s), |x|) && NonNegative(Gaps(b, x))
    ensures x[d] >= s ==> Gaps(b, x)[d] == MaxReal(x[d] - b.hi[d], 0.0) <= x[d] - s
    ensures Gaps(LeftHalf(b, d, s), x) == if x[d] < s then Gaps(b, x) else Gaps(b, x)[d := x[d] - s]
  {
  }
}
