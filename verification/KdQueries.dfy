/** Building a kd-tree and asking it (alglibmisc.cpp, nearest neighbour section), from the data set to the rows, points
    and tags that the caller reads back. */
module KdQueries {
  import opened KdGeometry
  import opened KdSpec
  import opened KdInputs
  import opened KdTrees

  /** What the caller reads back is row which[i] of the data set, its point and its tag. */
  ghost predicate ReadBack(which: seq<nat>, xy: seq<Point>, tags: seq<int>, nx: nat, ny: nat,
                           rows: seq<Point>, points: seq<Point>, labels: seq<int>)
    requires |tags| == |xy| && forall i | 0 <= i < |xy| :: nx + ny <= |xy[i]|
  {
    && |rows| == |points| == |labels| == |which|
    && forall i | 0 <= i < |which| ::
         && which[i] < |xy| && labels[i] == tags[which[i]]
         && rows[i] == xy[which[i]][..nx + ny] && points[i] == xy[which[i]][..nx]
  }

  /** The three accessors together. */
  method ReadResults(t: KdTree, ghost xy: seq<Point>, ghost tags: seq<int>, ghost order: seq<nat>)
    returns (rows: seq<Point>, points: seq<Point>, labels: seq<int>)
    requires Arranged(t.rows, xy, tags, t.nx, t.ny, order)
    requires forall i | 0 <= i < |xy| :: t.nx + t.ny <= |xy[i]|
    requires |order| == |t.rows| && forall i | 0 <= i < |t.heap| :: 0 <= t.heap[i].tag < |order|
    ensures ReadBack(InputsOf(t.heap, order), xy, tags, t.nx, t.ny, rows, points, labels)
  {
    forall i | 0 <= i < |t.heap|
      ensures 2 * t.nx + t.ny <= |t.rows[t.heap[i].tag].coords|
    {
      var j := t.heap[i].tag;
      assert Holds(t.rows[j], xy[order[j]], tags[order[j]], t.nx, t.ny);
    }
    rows := t.ResultsXY();
    points := t.ResultsX();
    labels := t.ResultsTags();
    forall i | 0 <= i < |t.heap|
      ensures var w := InputsOf(t.heap, order)[i];
              && w < |xy| && labels[i] == tags[w]
              && rows[i] == xy[w][..t.nx + t.ny] && points[i] == xy[w][..t.nx]
    {
      var j := t.heap[i].tag;
      HoldsInput(t.rows[j], xy[order[j]], tags[order[j]], t.nx, t.ny);
    }
  }

  /** The k rows of a data set nearest to a point, up to the factor 1 + eps. */
  method NearestInputs(xy: seq<Point>, tags: seq<int>, nx: nat, ny: nat, norm: Norm,
                       x0: Point, k: nat, selfmatch: bool, eps: real)
    returns (rows: seq<Point>, points: seq<Point>, labels: seq<int>, ds: seq<real>)
    requires nx >= 1 && |tags| == |xy| && forall i | 0 <= i < |xy| :: nx + ny <= |xy[i]|
    requires k > 0 && eps >= 0.0 && |x0| >= nx
    ensures var wanted := if k < |xy| then k else |xy|;
            var q := Query(norm, x0[..nx], wanted, 0.0, selfmatch, ApproxFactor(norm, eps));
            exists which :: Answers(which, ds, xy, q) && ReadBack(which, xy, tags, nx, ny, rows, points, labels)
  {
    hide Arranged, Best, Answers, ReadBack, KdTree.Valid, Distances, InputsOf, ApproxFactor;
    var t := new KdTree();
    ghost var order := t.Build(xy, tags, nx, ny, norm);
    TreeRows(t);
    ArrangedSizes(t.rows, xy, tags, nx, ny, order);
    var count := t.QueryAKNN(x0, k, selfmatch, eps);
    ghost var q := Query(norm, x0[..nx], if k < |xy| then k else |xy|, 0.0, selfmatch, ApproxFactor(norm, eps));
    ResultsAnswer(t.heap, t.rows, xy, tags, nx, ny, order, q);
    ds := Keys(t.heap);
    rows, points, labels := ReadResults(t, xy, tags, order);
    assert Answers(InputsOf(t.heap, order), ds, xy, q);
  }

  /** Exactly the rows within the distance, but those at distance 0 only with `selfmatch`, nearest first. */
  ghost predicate AllWithin(which: seq<nat>, ds: seq<real>, xy: seq<Point>, norm: Norm, x: Point, bound: real,
                            selfmatch: bool)
    requires forall i | 0 <= i < |xy| :: |x| <= |xy[i]|
  {
    && InOrder(which, ds)
    && (forall i | 0 <= i < |which| :: which[i] < |xy| && ds[i] == Distance(norm, xy[which[i]], x))
    && forall c: nat | c < |xy| ::
         c in which <==> Distance(norm, xy[c], x) <= bound && (selfmatch || Distance(norm, xy[c], x) != 0.0)
  }

  /** The rows of a data set within distance r of a point. */
  method InputsInRange(xy: seq<Point>, tags: seq<int>, nx: nat, ny: nat, norm: Norm,
                       x0: Point, r: real, selfmatch: bool)
    returns (rows: seq<Point>, points: seq<Point>, labels: seq<int>, ds: seq<real>)
    requires nx >= 1 && |tags| == |xy| && forall i | 0 <= i < |xy| :: nx + ny <= |xy[i]|
    requires r > 0.0 && |x0| >= nx
    ensures exists which ::
      && AllWithin(which, ds, xy, norm, x0[..nx], if norm != 2 then r else r * r, selfmatch)
      && ReadBack(which, xy, tags, nx, ny, rows, points, labels)
  {
    hide Arranged, Best, Answers, ReadBack, KdTree.Valid, Distances, InputsOf, AllWithin, Distance;
    var t := new KdTree();
    ghost var order := t.Build(xy, tags, nx, ny, norm);
    TreeRows(t);
    ArrangedSizes(t.rows, xy, tags, nx, ny, order);
    var count := t.QueryRNN(x0, r, selfmatch);
    ghost var q := Query(norm, x0[..nx], 0, if norm != 2 then r else r * r, selfmatch, 1.0);
    BoundPositive(r, q.rneeded);
    ResultsAnswer(t.heap, t.rows, xy, tags, nx, ny, order, q);
    ds := Keys(t.heap);
    UnlimitedAnswer(InputsOf(t.heap, order), ds, xy, q);
    rows, points, labels := ReadResults(t, xy, tags, order);
  }

  lemma BoundPositive(r: real, bound: real)
    requires r > 0.0 && (bound == r || bound == r * r)
    ensures bound > 0.0
  {
    ProductPositive(r, r, r * r);
  }

  lemma ProductPositive(a: real, b: real, p: real)
    requires a > 0.0 && b > 0.0 && p == a * b
    ensures p > 0.0
  {
  }

  /** Without a limit on their number the answer is every admissible row. */
  lemma UnlimitedAnswer(which: seq<nat>, ds: seq<real>, xy: seq<Point>, q: Query)
    requires (forall i | 0 <= i < |xy| :: |q.x| <= |xy[i]|) && q.kneeded == 0 && q.rneeded > 0.0
    requires Answers(which, ds, xy, q)
    ensures AllWithin(which, ds, xy, q.norm, q.x, q.rneeded, q.selfmatch)
  {
    hide Distance, InOrder;
  }
}
