/** The kd-tree of ALGLIB (alglibmisc.cpp, nearest neighbour section): construction by sliding
    midpoint splits, and nearest-neighbour queries that prune on the distance to the current box. */
module KdTrees {
  import opened TagHeap
  import opened KdGeometry
  import opened KdSpec
  import opened KdSplits
  import opened KdInputs

  const SPLIT_NODE_SIZE := 6

  /** The arrays that construction writes. */
  datatype Arrays = Arrays(rows: seq<Row>, nodes: seq<int>, splits: seq<real>)

  class KdTree {
    // the data set and the tree
    var nx: nat
    var ny: nat
    var norm: Norm
    var rows: seq<Row>
    var boxMin: Point
    var boxMax: Point
    var nodes: seq<int>
    var splits: seq<real>
    // the current query; `heap` holds the vectors r and idx up to kcur
    var x: Point
    var kneeded: nat
    var rneeded: real
    var selfmatch: bool
    var approxf: real
    var heap: seq<Entry>
    var curBoxMin: Point
    var curBoxMax: Point
    var curDist: real
    ghost var tree: Tree // the tree that nodes and splits encode

    constructor ()
    {
    }

    ghost function BoundingBox(): Box
      reads this`boxMin, this`boxMax
    {
      Box(boxMin, boxMax)
    }

    /** The arrays hold a tree over all rows that fits the bounding box. */
    ghost predicate Valid()
      reads this`nx, this`rows, this`boxMin, this`boxMax, this`nodes, this`splits, this`tree
    {
      && nx > 0 && RowsOk(rows, nx)
      && (rows != [] ==>
            && BoxOk(BoundingBox(), nx) && Encodes(nodes, splits, 0, tree)
            && Contiguous(tree) && First(tree) == 0 && End(tree) == |rows|
            && Fits(tree, rows, nx, BoundingBox()))
    }

    ghost function CurrentQuery(): Query
      reads this
    {
      Query(norm, x, kneeded, rneeded, selfmatch, approxf)
    }

    ghost function CurBox(): Box
      reads this
    {
      Box(curBoxMin, curBoxMax)
    }

    ghost predicate QueryReady()
      reads this
    {
      |x| == nx && RowsOk(rows, nx) && 0.0 < approxf <= 1.0
    }

    /** The results so far are right for the rows in `seen`. */
    ghost predicate HeapIsBest(seen: set<nat>)
      reads this
      requires QueryReady()
    {
      Heap(heap, |heap|) && Best(multiset(heap), Distances(rows, CurrentQuery()), CurrentQuery(), seen)
    }

    // ---- construction ----

    ghost predicate RangeOk(i1: nat, i2: nat)
      reads this
    {
      && i1 < i2 <= |rows| && nx > 0 && RowsOk(rows, nx) && BoxOk(CurBox(), nx)
      && AllInBox(rows, i1, i2, CurBox(), nx)
    }

    /** Rearranges rows [i1, i2) around the threshold s in dimension d. */
    method SplitRows(i1: nat, i2: nat, d: nat, s: real) returns (i3: nat)
      requires i1 < i2 <= |rows| && d < nx && RowsOk(rows, nx)
      modifies this`rows
      ensures Permuted(old(rows), rows, i1, i2) && |rows| == |old(rows)| && RowsOk(rows, nx) && i1 <= i3 <= i2
      ensures forall i | i1 <= i < i3 :: rows[i].coords[d] <= s
      ensures forall i | i3 <= i < i2 :: rows[i].coords[d] > s
    {
      hide Permuted;
      var left, right := i1, i2 - 1;
      PermutedRefl(rows, i1, i2);
      while left < right
        invariant i1 <= left <= right < i2 <= |rows| == |old(rows)| && RowsOk(rows, nx)
        invariant Permuted(old(rows), rows, i1, i2)
        invariant forall i | i1 <= i < left :: rows[i].coords[d] <= s
        invariant forall i | right < i < i2 :: rows[i].coords[d] > s
        decreases right - left
      {
        if rows[left].coords[d] <= s {
          left := left + 1;
        } else {
          ghost var before := rows;
          SwapRows(left, right, i1, i2);
          PermutedTransitive(old(rows), before, rows, i1, i2);
          assert forall i | i1 <= i < i2 && i != left && i != right :: rows[i] == before[i];
          right := right - 1;
        }
      }
      if rows[left].coords[d] <= s {
        left := left + 1;
      }
      i3 := left;
    }

    /** The dimension in which the current box is longest. */
    method LongestDimension() returns (d: nat, ds: real)
      requires nx > 0 && BoxOk(CurBox(), nx)
      ensures d < nx && ds == curBoxMax[d] - curBoxMin[d]
      ensures forall j | 0 <= j < nx :: curBoxMax[j] - curBoxMin[j] <= ds
    {
      d, ds := 0, curBoxMax[0] - curBoxMin[0];
      for i := 1 to nx
        invariant d < i && d < nx && ds == curBoxMax[d] - curBoxMin[d]
        invariant forall j | 0 <= j < i :: curBoxMax[j] - curBoxMin[j] <= ds
      {
        var v := curBoxMax[i] - curBoxMin[i];
        if v > ds {
          d, ds := i, v;
        }
      }
    }

    /** Extremes of column d over rows [i1, i2), and how many values lie on each side of s. */
    method ScanColumn(i1: nat, i2: nat, d: nat, s: real)
      returns (minv: real, maxv: real, minidx: nat, maxidx: nat, cntless: nat, cntgreater: nat)
      requires i1 < i2 <= |rows| && d < nx && RowsOk(rows, nx)
      ensures i1 <= minidx < i2 && minv == rows[minidx].coords[d]
      ensures i1 <= maxidx < i2 && maxv == rows[maxidx].coords[d]
      ensures forall i | i1 <= i < i2 :: minv <= rows[i].coords[d] <= maxv
      ensures cntless == 0 <==> forall i | i1 <= i < i2 :: rows[i].coords[d] >= s
      ensures cntgreater == 0 <==> forall i | i1 <= i < i2 :: rows[i].coords[d] <= s
    {
      minv, maxv, minidx, maxidx := rows[i1].coords[d], rows[i1].coords[d], i1, i1;
      cntless, cntgreater := 0, 0;
      for i := i1 to i2
        invariant i1 <= minidx < i2 && minv == rows[minidx].coords[d]
        invariant i1 <= maxidx < i2 && maxv == rows[maxidx].coords[d]
        invariant forall j | i1 <= j < i :: minv <= rows[j].coords[d] <= maxv
        invariant cntless == 0 <==> forall j | i1 <= j < i :: rows[j].coords[d] >= s
        invariant cntgreater == 0 <==> forall j | i1 <= j < i :: rows[j].coords[d] <= s
        invariant minv <= rows[i1].coords[d] <= maxv
      {
        var v := rows[i].coords[d];
        if v < minv {
          minv, minidx := v, i;
        }
        if v > maxv {
          maxv, maxidx := v, i;
        }
        if v < s {
          cntless := cntless + 1;
        }
        if v > s {
          cntgreater := cntgreater + 1;
        }
      }
    }

    method SwapRows(i: nat, j: nat, ghost i1: nat, ghost i2: nat)
      requires i1 <= i < i2 && i1 <= j < i2 <= |rows| && RowsOk(rows, nx)
      modifies this`rows
      ensures rows == old(rows)[i := old(rows)[j]][j := old(rows)[i]]
      ensures Permuted(old(rows), rows, i1, i2) && RowsOk(rows, nx)
    {
      hide Permuted;
      SwapPermutes(rows, i1, i2, i, j);
      rows := rows[i := rows[j]][j := rows[i]];
    }

    /** Divides rows [i1, i2) at the midpoint s0 of the box or, if all of them lie on one side of
        it, at the extreme value on that side. Both parts get at least one row. */
    method Divide(i1: nat, i2: nat, d: nat, s0: real, minv: real, maxv: real, minidx: nat, maxidx: nat,
                  cntless: nat, cntgreater: nat)
      returns (s: real, i3: nat)
      requires RangeOk(i1, i2) && d < nx && curBoxMin[d] <= s0 <= curBoxMax[d] && minv < maxv
      requires i1 <= minidx < i2 && minv == rows[minidx].coords[d]
      requires i1 <= maxidx < i2 && maxv == rows[maxidx].coords[d]
      requires forall i | i1 <= i < i2 :: minv <= rows[i].coords[d] <= maxv
      requires cntless == 0 <==> forall i | i1 <= i < i2 :: rows[i].coords[d] >= s0
      requires cntgreater == 0 <==> forall i | i1 <= i < i2 :: rows[i].coords[d] <= s0
      modifies this`rows
      ensures Permuted(old(rows), rows, i1, i2) && |rows| == |old(rows)| && RowsOk(rows, nx)
      ensures i1 < i3 < i2 && curBoxMin[d] <= s <= curBoxMax[d]
      ensures forall i | i1 <= i < i3 :: rows[i].coords[d] <= s
      ensures forall i | i3 <= i < i2 :: rows[i].coords[d] >= s
      ensures SlidTo(Part(old(rows), i1, i2), d, s0, s)
    {
      hide Permuted, SlidTo, Part;
      RuleOfSplit(rows, i1, i2, nx, d, s0, minidx, maxidx, cntless > 0, cntgreater > 0);
      assert InBox(rows[minidx].coords, CurBox()) && InBox(rows[maxidx].coords, CurBox());
      s := s0;
      if cntless > 0 && cntgreater > 0 {
        i3 := SplitRows(i1, i2, d, s);
        SplitIsProper(old(rows), rows, i1, i2, i3, d, s, nx);
      } else if cntless == 0 {
        s := minv;
        if minidx != i1 {
          SwapRows(minidx, i1, i1, i2);
        } else {
          PermutedRefl(rows, i1, i2);
        }
        i3 := i1 + 1;
      } else {
        s := maxv;
        if maxidx != i2 - 1 {
          SwapRows(maxidx, i2 - 1, i1, i2);
        } else {
          PermutedRefl(rows, i1, i2);
        }
        i3 := i2 - 1;
      }
    }

    method WriteLeaf(i1: nat, i2: nat, offs: nat) returns (nodesOffs: nat, ghost t: Tree)
      requires RangeOk(i1, i2) && offs + 2 <= |nodes|
      modifies this`nodes
      ensures nodesOffs == offs + 2 && t == Leaf(i1, i2)
      ensures nodes == old(nodes)[offs := i2 - i1][offs + 1 := i1]
      ensures EncodesIn(nodes, splits, offs, nodesOffs, 0, offs, t)
      ensures Fits(t, rows, nx, CurBox())
    {
      nodes := nodes[offs := i2 - i1][offs + 1 := i1];
      nodesOffs, t := offs + 2, Leaf(i1, i2);
    }

    /** What the construction of a subtree leaves behind: a tree over the same rows, written into
        at most 8 (i2 - i1) - 6 node cells and i2 - i1 - 1 split cells. */
    ghost predicate Generated(was: Arrays, i1: nat, i2: nat, offs: nat, soffs: nat,
                              nodesOffs: nat, splitsOffs: nat, t: Tree)
      reads this
    {
      && offs <= |was.nodes| && soffs <= |was.splits|
      && offs <= nodesOffs <= offs + 8 * (i2 - i1) - 6 && nodesOffs <= |nodes| == |was.nodes|
      && soffs <= splitsOffs <= soffs + (i2 - i1) - 1 && splitsOffs <= |splits| == |was.splits|
      && nodes[..offs] == was.nodes[..offs] && splits[..soffs] == was.splits[..soffs]
      && Permuted(was.rows, rows, i1, i2) && |rows| == |was.rows| && RowsOk(rows, nx)
      && EncodesIn(nodes, splits, offs, nodesOffs, splitsOffs, offs, t)
      && Contiguous(t) && First(t) == i1 && End(t) == i2
      && Fits(t, rows, nx, CurBox()) && Slid(t, rows, nx, CurBox())
    }

    ghost function Now(): Arrays
      reads this
    {
      Arrays(rows, nodes, splits)
    }

    method GenerateTree(i1: nat, i2: nat, offs: nat, soffs: nat)
      returns (nodesOffs: nat, splitsOffs: nat, ghost t: Tree)
      requires RangeOk(i1, i2)
      requires offs + 8 * (i2 - i1) - 6 <= |nodes| && soffs + (i2 - i1) - 1 <= |splits|
      modifies this`rows, this`nodes, this`splits, this`curBoxMin, this`curBoxMax
      ensures curBoxMin == old(curBoxMin) && curBoxMax == old(curBoxMax)
      ensures Generated(old(Now()), i1, i2, offs, soffs, nodesOffs, splitsOffs, t)
      decreases i2 - i1, Extended(CurBox(), nx), 1
    {
      hide Permuted, EncodesIn, Fits, Slid, SlidTo, LongestVarying;
      var d, ds := 0, 0.0;
      if i2 - i1 > MAX_LEAF_SIZE {
        d, ds := LongestDimension();
      }
      if i2 - i1 <= MAX_LEAF_SIZE || ds == 0.0 {
        nodesOffs, t := WriteLeaf(i1, i2, offs);
        splitsOffs := soffs;
        PermutedRefl(rows, i1, i2);
        WidenLeaf(nodes, splits, offs, nodesOffs, soffs, t);
        SlidLeaf(rows, i1, i2, nx, CurBox());
        return;
      }
      var s := curBoxMin[d] + 0.5 * ds;
      var minv, maxv, minidx, maxidx, cntless, cntgreater := ScanColumn(i1, i2, d, s);
      if minv == maxv {
        nodesOffs, splitsOffs, t := FlattenAndRetry(i1, i2, offs, soffs, d, minv);
        return;
      }
      LongestVaries(rows, i1, i2, nx, CurBox(), d, minidx, maxidx);
      var i3;
      s, i3 := Divide(i1, i2, d, s, minv, maxv, minidx, maxidx, cntless, cntgreater);
      ghost var divided := rows;
      PermutedInBox(old(rows), rows, i1, i2, CurBox(), nx);
      PermutedPart(old(rows), rows, i1, i2);
      nodesOffs, splitsOffs, t := GenerateSplit(i1, i2, i3, d, s, offs, soffs);
      PermutedTransitive(old(rows), divided, rows, i1, i2);
    }

    /** All rows agree in dimension d: the box is made flat there, and construction repeated. */
    method FlattenAndRetry(i1: nat, i2: nat, offs: nat, soffs: nat, d: nat, minv: real)
      returns (nodesOffs: nat, splitsOffs: nat, ghost t: Tree)
      requires RangeOk(i1, i2) && d < nx && curBoxMin[d] < curBoxMax[d]
      requires forall i | i1 <= i < i2 :: rows[i].coords[d] == minv
      requires offs + 8 * (i2 - i1) - 6 <= |nodes| && soffs + (i2 - i1) - 1 <= |splits|
      modifies this`rows, this`nodes, this`splits, this`curBoxMin, this`curBoxMax
      ensures curBoxMin == old(curBoxMin) && curBoxMax == old(curBoxMax)
      ensures Generated(old(Now()), i1, i2, offs, soffs, nodesOffs, splitsOffs, t)
      decreases i2 - i1, Extended(CurBox(), nx), 0
    {
      hide Permuted, EncodesIn, Fits, Slid;
      ghost var box := CurBox();
      FlattenDrops(box, nx, d, minv);
      var v0, v1 := curBoxMin[d], curBoxMax[d];
      FlatBox(rows, i1, i2, box, nx, d, minv);
      curBoxMin, curBoxMax := curBoxMin[d := minv], curBoxMax[d := minv];
      nodesOffs, splitsOffs, t := GenerateTree(i1, i2, offs, soffs);
      FitsLarger(t, rows, nx, CurBox(), box);
      PermutedPart(old(rows), rows, i1, i2);
      FlatIsSlid(t, old(rows), rows, nx, CurBox(), box, d, minv);
      curBoxMin, curBoxMax := curBoxMin[d := v0], curBoxMax[d := v1];
    }

    /** Writes a split node and generates both children, each in its half of the current box. */
    method GenerateSplit(i1: nat, i2: nat, i3: nat, d: nat, s: real, offs: nat, soffs: nat)
      returns (nodesOffs: nat, splitsOffs: nat, ghost t: Tree)
      requires RangeOk(i1, i2) && i1 < i3 < i2 && d < nx && curBoxMin[d] <= s <= curBoxMax[d]
      requires forall i | i1 <= i < i3 :: rows[i].coords[d] <= s
      requires forall i | i3 <= i < i2 :: rows[i].coords[d] >= s
      requires i2 - i1 > MAX_LEAF_SIZE && LongestVarying(Part(rows, i1, i2), nx, CurBox(), d)
      requires SlidTo(Part(rows, i1, i2), d, Middle(CurBox(), d), s)
      requires offs + 8 * (i2 - i1) - 6 <= |nodes| && soffs + (i2 - i1) - 1 <= |splits|
      modifies this`rows, this`nodes, this`splits, this`curBoxMin, this`curBoxMax
      ensures curBoxMin == old(curBoxMin) && curBoxMax == old(curBoxMax)
      ensures Generated(old(Now()), i1, i2, offs, soffs, nodesOffs, splitsOffs, t)
      decreases i2 - i1, 0, 0
    {
      hide Permuted, EncodesIn, Fits, AllInBox, Contiguous, Slid, SlidTo, LongestVarying, Middle, Part;
      ghost var was, box := Now(), CurBox();
      HalvesHold(rows, i1, i3, i2, box, nx, d, s);
      nodes := nodes[offs := 0][offs + 1 := d][offs + 2 := soffs][offs + 3 := offs + SPLIT_NODE_SIZE];
      splits := splits[soffs := s];
      nodesOffs, splitsOffs := offs + SPLIT_NODE_SIZE, soffs + 1;
      var v := curBoxMax[d];
      curBoxMax := curBoxMax[d := s];
      ghost var l, r;
      nodesOffs, splitsOffs, l := GenerateTree(i1, i3, nodesOffs, splitsOffs);
      curBoxMax := curBoxMax[d := v];
      assert CurBox() == box;
      ghost var n1, s1, mid := nodesOffs, splitsOffs, Now();
      RightUntouched(was.rows, rows, i1, i3, i2, RightHalf(box, d, s), nx);
      nodes := nodes[offs + 4 := nodesOffs];
      v := curBoxMin[d];
      curBoxMin := curBoxMin[d := s];
      nodesOffs, splitsOffs, r := GenerateTree(i3, i2, nodesOffs, splitsOffs);
      curBoxMin := curBoxMin[d := v];
      assert CurBox() == box;
      t := Split(d, s, l, r);
      JoinRows(was.rows, mid.rows, rows, i1, i3, i2, d, s, l, r, nx, box);
      JoinSlid(was.rows, mid.rows, rows, i1, i3, i2, d, s, l, r, nx, box);
      JoinCells(was, mid, Now(), offs, soffs, n1, s1, nodesOffs, splitsOffs, d, s, l, r);
    }

    /** Copies the data set: each row is its point followed by the full input row. */
    method LoadRows(xy: seq<Point>, tags: seq<int>)
      requires |tags| == |xy| && forall i | 0 <= i < |xy| :: nx + ny <= |xy[i]|
      modifies this`rows
      ensures rows == InputRows(xy, tags, nx, ny) && RowsOk(rows, nx)
    {
      rows := [];
      for i := 0 to |xy|
        invariant |rows| == i && forall j | 0 <= j < i :: rows[j] == InputRows(xy, tags, nx, ny)[j]
      {
        rows := rows + [Row(xy[i][..nx] + xy[i][..nx + ny], tags[i])];
      }
    }

    method FindBoundingBox()
      requires rows != [] && RowsOk(rows, nx)
      modifies this`boxMin, this`boxMax
      ensures BoxOk(BoundingBox(), nx) && AllInBox(rows, 0, |rows|, BoundingBox(), nx)
      ensures Tight(Part(rows, 0, |rows|), BoundingBox(), nx)
    {
      hide Tight, Part;
      boxMin, boxMax := rows[0].coords[..nx], rows[0].coords[..nx];
      TightPoint(rows, nx);
      for i := 1 to |rows|
        invariant BoxOk(BoundingBox(), nx) && AllInBox(rows, 0, i, BoundingBox(), nx)
        invariant Tight(Part(rows, 0, i), BoundingBox(), nx)
      {
        PartWithin(rows, 0, i, 0, i + 1);
        TightMore(Part(rows, 0, i), Part(rows, 0, i + 1), BoundingBox(), nx);
        for j := 0 to nx
          invariant BoxOk(BoundingBox(), nx) && AllInBox(rows, 0, i, BoundingBox(), nx)
          invariant Tight(Part(rows, 0, i + 1), BoundingBox(), nx)
          invariant forall k | 0 <= k < j :: boxMin[k] <= rows[i].coords[k] <= boxMax[k]
        {
          var v := rows[i].coords[j];
          WidenBox(rows, i, BoundingBox(), nx, j, v);
          TightWider(rows, i, BoundingBox(), nx, j);
          boxMin := boxMin[j := if v < boxMin[j] then v else boxMin[j]];
          boxMax := boxMax[j := MaxReal(boxMax[j], v)];
        }
      }
    }

    /** The arrays are allocated once, for all nodes. */
    method GenerateAll()
      requires rows != [] && nx >= 1 && RowsOk(rows, nx) && BoxOk(BoundingBox(), nx)
      requires AllInBox(rows, 0, |rows|, BoundingBox(), nx)
      modifies this`rows, this`nodes, this`splits, this`curBoxMin, this`curBoxMax, this`tree
      ensures Valid() && Permuted(old(rows), rows, 0, |old(rows)|) && |rows| == |old(rows)|
      ensures Slid(tree, rows, nx, BoundingBox())
    {
      hide Permuted, Fits, EncodesIn, Encodes, Contiguous, Slid, AllInBox;
      var n := |rows|;
      nodes := seq(SPLIT_NODE_SIZE * 2 * n, _ => 0);
      splits := seq(2 * n, _ => 0.0);
      curBoxMin, curBoxMax := boxMin, boxMax;
      var nodesOffs, splitsOffs;
      ghost var t;
      nodesOffs, splitsOffs, t := GenerateTree(0, n, 0, 0);
      tree := t;
      EncodesInEncodes(nodes, splits, 0, nodesOffs, splitsOffs, 0, t);
    }

    /** kdtreebuildtagged: afterwards the tree indexes each input row once, with its tag; order says which is where. */
    method Build(xy: seq<Point>, tags: seq<int>, nx0: nat, ny0: nat, norm0: Norm) returns (ghost order: seq<nat>)
      requires nx0 >= 1 && |tags| == |xy| && forall i | 0 <= i < |xy| :: nx0 + ny0 <= |xy[i]|
      modifies this
      ensures Valid() && nx == nx0 && ny == ny0 && norm == norm0 && heap == []
      ensures Arranged(rows, xy, tags, nx, ny, order)
      ensures rows != [] ==> Slid(tree, rows, nx, BoundingBox()) && Tight(Part(rows, 0, |rows|), BoundingBox(), nx)
    {
      hide Permuted, Fits, EncodesIn, Encodes, Contiguous, Slid, Tight, Part, AllInBox, Arranged;
      nx, ny, norm, heap := nx0, ny0, norm0, [];
      LoadRows(xy, tags);
      ghost var input := rows;
      var n := |rows|;
      if n == 0 {
        order := InputsArranged(rows, xy, tags, nx, ny);
        return;
      }
      FindBoundingBox();
      GenerateAll();
      PermutedPart(input, rows, 0, n);
      PermutedAll(input, rows);
      order := InputsArranged(rows, xy, tags, nx, ny);
    }

    // ---- queries ----

    /** Loads the query point and its distance from the bounding box. */
    method InitBox(x0: Point)
      requires |x0| >= nx && BoxOk(BoundingBox(), nx)
      modifies this`x, this`curBoxMin, this`curBoxMax, this`curDist
      ensures x == x0[..nx] && CurBox() == BoundingBox() && curDist == BoxDistance(norm, CurBox(), x)
    {
      hide Total;
      x, curBoxMin, curBoxMax := x0[..nx], boxMin, boxMax;
      curDist := 0.0;
      ghost var gaps := Gaps(CurBox(), x);
      TotalStart(norm, gaps);
      for i := 0 to nx
        invariant x == x0[..nx] && CurBox() == BoundingBox()
        invariant curDist == Total(norm, gaps[..i]) >= 0.0
      {
        TotalStep(norm, gaps, i);
        curDist := AddGap(curDist, x[i], boxMin[i], boxMax[i]);
      }
      assert gaps[..nx] == gaps;
    }

    method AddGap(dist: real, vx: real, vmin: real, vmax: real) returns (r: real)
      requires dist >= 0.0 && vmin <= vmax
      ensures r == if norm == 0 then MaxReal(dist, Gap(vmin, vmax, vx)) else dist + Cost(norm, Gap(vmin, vmax, vx))
    {
      r := dist;
      if vx < vmin {
        if norm == 0 {
          r := MaxReal(dist, vmin - vx);
        } else if norm == 1 {
          r := dist + vmin - vx;
        } else {
          r := dist + (vmin - vx) * (vmin - vx);
        }
      } else if vx > vmax {
        if norm == 0 {
          r := MaxReal(dist, vx - vmax);
        } else if norm == 1 {
          r := dist + vx - vmax;
        } else {
          r := dist + (vx - vmax) * (vx - vmax);
        }
      }
    }

    method RunQuery(x0: Point)
      requires Valid() && rows != [] && |x0| >= nx && 0.0 < approxf <= 1.0
      modifies this`x, this`heap, this`curBoxMin, this`curBoxMax, this`curDist
      ensures x == x0[..nx] && Ascending(heap)
      ensures Best(multiset(heap), Distances(rows, CurrentQuery()), CurrentQuery(), Interval(0, |rows|))
    {
      hide Fits, Encodes, Contiguous, Best, BoxDistance;
      heap := [];
      InitBox(x0);
      NothingSeen(Distances(rows, CurrentQuery()), CurrentQuery());
      QueryRec(0, tree, {});
      assert {} + Interval(0, |rows|) == Interval(0, |rows|);
      heap := SortHeap(heap);
    }

    /** kdtreequeryaknn: the k nearest rows, up to the factor 1 + eps, nearest first. */
    method QueryAKNN(x0: Point, k: nat, selfmatch0: bool, eps: real) returns (count: nat)
      requires Valid() && k > 0 && eps >= 0.0 && |x0| >= nx
      modifies this`x, this`kneeded, this`rneeded, this`selfmatch, this`approxf, this`heap,
               this`curBoxMin, this`curBoxMax, this`curDist
      ensures count == |heap| && Ascending(heap)
      ensures var wanted := if k < |rows| then k else |rows|;
              var q := Query(norm, x0[..nx], wanted, 0.0, selfmatch0, ApproxFactor(norm, eps));
              Best(multiset(heap), Distances(rows, q), q, Interval(0, |rows|))
    {
      hide Best, Fits, Encodes, Contiguous;
      FactorBounds(norm, eps);
      if rows == [] {
        heap := [];
        NothingSeen(Distances(rows, Query(norm, x0[..nx], 0, 0.0, selfmatch0, ApproxFactor(norm, eps))),
                    Query(norm, x0[..nx], 0, 0.0, selfmatch0, ApproxFactor(norm, eps)));
        return 0;
      }
      kneeded, rneeded, selfmatch := if k < |rows| then k else |rows|, 0.0, selfmatch0;
      if norm == 2 {
        approxf := 1.0 / ((1.0 + eps) * (1.0 + eps));
      } else {
        approxf := 1.0 / (1.0 + eps);
      }
      RunQuery(x0);
      count := |heap|;
    }

    /** kdtreequeryrnn: all rows within distance r, nearest first. */
    method QueryRNN(x0: Point, r: real, selfmatch0: bool) returns (count: nat)
      requires Valid() && r > 0.0 && |x0| >= nx
      modifies this`x, this`kneeded, this`rneeded, this`selfmatch, this`approxf, this`heap,
               this`curBoxMin, this`curBoxMax, this`curDist
      ensures count == |heap| && Ascending(heap)
      ensures var q := Query(norm, x0[..nx], 0, if norm != 2 then r else r * r, selfmatch0, 1.0);
              Best(multiset(heap), Distances(rows, q), q, Interval(0, |rows|))
    {
      hide Best, Fits, Encodes, Contiguous;
      if rows == [] {
        heap := [];
        NothingSeen(Distances(rows, Query(norm, x0[..nx], 0, if norm != 2 then r else r * r, selfmatch0, 1.0)),
                    Query(norm, x0[..nx], 0, if norm != 2 then r else r * r, selfmatch0, 1.0));
        return 0;
      }
      kneeded, selfmatch, approxf := 0, selfmatch0, 1.0;
      rneeded := if norm != 2 then r else r * r;
      RunQuery(x0);
      count := |heap|;
    }

    /** The last query listed rows of the tree. */
    ghost predicate ListsRows()
      reads this
    {
      forall i | 0 <= i < |heap| :: 0 <= heap[i].tag < |rows| && 2 * nx + ny <= |rows[heap[i].tag].coords|
    }

    /** kdtreequeryresultsxy: the input rows of the last query. */
    method ResultsXY() returns (xy: seq<Point>)
      requires ListsRows()
      ensures |xy| == |heap| && forall i | 0 <= i < |heap| :: xy[i] == rows[heap[i].tag].coords[nx..2 * nx + ny]
    {
      xy := [];
      for i := 0 to |heap|
        invariant |xy| == i && forall j | 0 <= j < i :: xy[j] == rows[heap[j].tag].coords[nx..2 * nx + ny]
      {
        xy := xy + [rows[heap[i].tag].coords[nx..2 * nx + ny]];
      }
    }

    /** kdtreequeryresultsx: their points. */
    method ResultsX() returns (points: seq<Point>)
      requires ListsRows()
      ensures |points| == |heap| && forall i | 0 <= i < |heap| :: points[i] == rows[heap[i].tag].coords[nx..2 * nx]
    {
      points := [];
      for i := 0 to |heap|
        invariant |points| == i && forall j | 0 <= j < i :: points[j] == rows[heap[j].tag].coords[nx..2 * nx]
      {
        points := points + [rows[heap[i].tag].coords[nx..2 * nx]];
      }
    }

    /** kdtreequeryresultstags: their tags. */
    method ResultsTags() returns (tags: seq<int>)
      requires ListsRows()
      ensures |tags| == |heap| && forall i | 0 <= i < |heap| :: tags[i] == rows[heap[i].tag].tag
    {
      tags := [];
      for i := 0 to |heap|
        invariant |tags| == i && forall j | 0 <= j < i :: tags[j] == rows[heap[j].tag].tag
      {
        tags := tags + [rows[heap[i].tag].tag];
      }
    }

    method PointDistance(i: nat) returns (ptdist: real)
      requires QueryReady() && i < |rows|
      ensures ptdist == Distance(norm, rows[i].coords, x)
    {
      ptdist := 0.0;
      ghost var ds := Differences(rows[i].coords, x);
      for j := 0 to nx
        invariant ptdist == Total(norm, ds[..j])
      {
        assert ds[..j + 1][..j] == ds[..j];
        var diff := Abs(rows[i].coords[j] - x[j]);
        SquareOfAbs(rows[i].coords[j] - x[j]);
        if norm == 0 {
          ptdist := MaxReal(ptdist, diff);
        } else if norm == 1 {
          ptdist := ptdist + diff;
        } else {
          ptdist := ptdist + (rows[i].coords[j] - x[j]) * (rows[i].coords[j] - x[j]);
        }
      }
      assert ds[..nx] == ds;
    }

    method ProcessRow(i: nat, ghost seen: set<nat>)
      requires QueryReady() && HeapIsBest(seen) && i < |rows| && i !in seen
      modifies this`heap
      ensures HeapIsBest(seen + {i})
    {
      hide Best, Heap, Eligible;
      ghost var q := CurrentQuery();
      ghost var ds := Distances(rows, q);
      DistancesNonNegative(rows, q);
      var ptdist := PointDistance(i);
      assert ptdist == ds[i];
      RowCases(multiset(heap), ds, q, seen, i);
      if ptdist == 0.0 && !selfmatch {
        return;
      }
      if rneeded == 0.0 || ptdist <= rneeded {
        if |heap| < kneeded || kneeded == 0 {
          SeeAdded(multiset(heap), ds, q, seen, i);
          heap := Push(heap, Entry(ptdist, i));
        } else {
          BestIsFull(multiset(heap), ds, q, seen);
          HeapTop(heap);
          if ptdist < heap[0].key {
            SeeReplaced(multiset(heap), ds, q, seen, i, heap[0]);
            if kneeded == 1 {
              SingleReplaced(heap, Entry(ptdist, i));
              heap := [Entry(ptdist, i)];
            } else {
              heap := ReplaceTop(heap, Entry(ptdist, i));
            }
          } else {
            SeeTooFar(multiset(heap), ds, q, seen, i, heap[0].key);
          }
        }
      }
    }

    method QueryLeaf(i1: nat, i2: nat, ghost seen: set<nat>)
      requires QueryReady() && HeapIsBest(seen) && i1 <= i2 <= |rows| && seen !! Interval(i1, i2)
      modifies this`heap
      ensures HeapIsBest(seen + Interval(i1, i2))
    {
      hide Best, Heap, Interval;
      IntervalGrows(seen, i1, i1);
      for i := i1 to i2
        invariant HeapIsBest(seen + Interval(i1, i))
      {
        IntervalGrows(seen, i1, i);
        ProcessRow(i, seen + Interval(i1, i));
      }
    }

    /** Enters one child: the box and its distance are adjusted, and restored on the way out. */
    method VisitChild(childOffs: int, updateMin: bool, d: nat, s: real, ghost t: Tree, ghost seen: set<nat>)
      requires QueryReady() && HeapIsBest(seen)
      requires BoxOk(CurBox(), nx) && curDist == BoxDistance(norm, CurBox(), x)
      requires d < nx && curBoxMin[d] <= s <= curBoxMax[d]
      requires Encodes(nodes, splits, childOffs, t) && Contiguous(t)
      requires Fits(t, rows, nx, if updateMin then RightHalf(CurBox(), d, s) else LeftHalf(CurBox(), d, s))
      requires seen !! Interval(First(t), End(t))
      modifies this`heap, this`curBoxMin, this`curBoxMax, this`curDist
      ensures curBoxMin == old(curBoxMin) && curBoxMax == old(curBoxMax) && curDist == old(curDist)
      ensures HeapIsBest(seen + Interval(First(t), End(t)))
      decreases t, 2
    {
      hide Fits, Encodes, Contiguous, Best, Heap, BoxDistance;
      var prevDist := curDist;
      var v := if updateMin then curBoxMin[d] else curBoxMax[d];
      EnterHalf(updateMin, d, s);
      SearchOrSkip(childOffs, t, seen);
      if updateMin {
        curBoxMin := curBoxMin[d := v];
      } else {
        curBoxMax := curBoxMax[d := v];
      }
      curDist := prevDist;
    }

    method EnterHalf(updateMin: bool, d: nat, s: real)
      requires |x| == nx && BoxOk(CurBox(), nx) && curDist == BoxDistance(norm, CurBox(), x)
      requires d < nx && curBoxMin[d] <= s <= curBoxMax[d]
      modifies this`curBoxMin, this`curBoxMax, this`curDist
      ensures CurBox() == old(if updateMin then RightHalf(CurBox(), d, s) else LeftHalf(CurBox(), d, s))
      ensures BoxOk(CurBox(), nx) && curDist == BoxDistance(norm, CurBox(), x)
    {
      hide BoxDistance, MaxReal;
      if updateMin {
        RaisedIsDistance(norm, CurBox(), x, d, s);
        curDist := RaiseBy(x[d], curBoxMin[d], s);
        curBoxMin := curBoxMin[d := s];
      } else {
        LoweredIsDistance(norm, CurBox(), x, d, s);
        curDist := LowerBy(x[d], curBoxMax[d], s);
        curBoxMax := curBoxMax[d := s];
      }
    }

    /** Decides whether the child can matter, and searches it if so. */
    method SearchOrSkip(childOffs: int, ghost t: Tree, ghost seen: set<nat>)
      requires QueryReady() && HeapIsBest(seen)
      requires BoxOk(CurBox(), nx) && curDist == BoxDistance(norm, CurBox(), x)
      requires Encodes(nodes, splits, childOffs, t) && Contiguous(t) && Fits(t, rows, nx, CurBox())
      requires seen !! Interval(First(t), End(t))
      modifies this`heap, this`curBoxMin, this`curBoxMax, this`curDist
      ensures curBoxMin == old(curBoxMin) && curBoxMax == old(curBoxMax) && curDist == old(curDist)
      ensures HeapIsBest(seen + Interval(First(t), End(t)))
      decreases t, 1
    {
      hide Fits, Encodes, Contiguous, Best, Heap, BoxDistance;
      var toDive;
      if rneeded != 0.0 && curDist > rneeded {
        toDive := false;
      } else if |heap| < kneeded || kneeded == 0 {
        toDive := true;
      } else {
        BestIsFull(multiset(heap), Distances(rows, CurrentQuery()), CurrentQuery(), seen);
        HeapTop(heap);
        toDive := curDist <= heap[0].key * approxf;
      }
      if toDive {
        QueryRec(childOffs, t, seen);
      } else {
        SkipSubtree(multiset(heap), rows, CurrentQuery(), seen, t, CurBox(),
                    if heap == [] then 0.0 else heap[0].key);
      }
    }

    method RaiseBy(t1: real, v: real, s: real) returns (dist: real)
      ensures dist == if t1 > s then curDist
                      else if norm == 0 then MaxReal(curDist, s - t1)
                      else if norm == 1 then curDist - MaxReal(v - t1, 0.0) + s - t1
                      else curDist - MaxReal(v - t1, 0.0) * MaxReal(v - t1, 0.0) + (s - t1) * (s - t1)
    {
      dist := curDist;
      if t1 <= s {
        if norm == 0 {
          dist := MaxReal(curDist, s - t1);
        }
        if norm == 1 {
          dist := curDist - MaxReal(v - t1, 0.0) + s - t1;
        }
        if norm == 2 {
          dist := curDist - MaxReal(v - t1, 0.0) * MaxReal(v - t1, 0.0) + (s - t1) * (s - t1);
        }
      }
    }

    method LowerBy(t1: real, v: real, s: real) returns (dist: real)
      ensures dist == if t1 < s then curDist
                      else if norm == 0 then MaxReal(curDist, t1 - s)
                      else if norm == 1 then curDist - MaxReal(t1 - v, 0.0) + t1 - s
                      else curDist - MaxReal(t1 - v, 0.0) * MaxReal(t1 - v, 0.0) + (t1 - s) * (t1 - s)
    {
      dist := curDist;
      if t1 >= s {
        if norm == 0 {
          dist := MaxReal(curDist, t1 - s);
        }
        if norm == 1 {
          dist := curDist - MaxReal(t1 - v, 0.0) + t1 - s;
        }
        if norm == 2 {
          dist := curDist - MaxReal(t1 - v, 0.0) * MaxReal(t1 - v, 0.0) + (t1 - s) * (t1 - s);
        }
      }
    }

    /** The recursive search: afterwards the results are right for the rows of the subtree too,
        whether they were visited or pruned. */
    method QueryRec(offs: int, ghost t: Tree, ghost seen: set<nat>)
      requires QueryReady() && HeapIsBest(seen)
      requires BoxOk(CurBox(), nx) && curDist == BoxDistance(norm, CurBox(), x)
      requires Encodes(nodes, splits, offs, t) && Contiguous(t) && Fits(t, rows, nx, CurBox())
      requires seen !! Interval(First(t), End(t))
      modifies this`heap, this`curBoxMin, this`curBoxMax, this`curDist
      ensures curBoxMin == old(curBoxMin) && curBoxMax == old(curBoxMax) && curDist == old(curDist)
      ensures HeapIsBest(seen + Interval(First(t), End(t)))
      decreases t, 0
    {
      hide Best, Heap, BoxDistance, Encodes, Fits, Contiguous, Interval;
      NodeShape(nodes, splits, offs, t, rows, nx, CurBox());
      if nodes[offs] > 0 {
        QueryLeaf(nodes[offs + 1], nodes[offs + 1] + nodes[offs], seen);
        return;
      }
      var d, s := nodes[offs + 1], splits[nodes[offs + 2]];
      ghost var l, r := t.left, t.right;
      IntervalsJoin(seen, First(l), End(l), End(r));
      if x[d] <= s {
        VisitChild(nodes[offs + 3], false, d, s, l, seen);
        VisitChild(nodes[offs + 4], true, d, s, r, seen + Interval(First(l), End(l)));
      } else {
        VisitChild(nodes[offs + 4], true, d, s, r, seen);
        VisitChild(nodes[offs + 3], false, d, s, l, seen + Interval(First(r), End(r)));
      }
    }
  }

  /** The linear scan, sorted: every eligible row pushed onto a heap, which is then emptied. */
  method LinearScan(ds: seq<real>, q: Query) returns (all: seq<Entry>)
    ensures SortedScan(all, ds, q)
  {
    hide Eligible, Heap;
    all := [];
    assert Heap(all, 0) by { EmptyHeap(all); }
    for i := 0 to |ds|
      invariant Heap(all, |all|) && multiset(all) == multiset(Scan(ds, q, i))
    {
      if Eligible(q, ds[i]) {
        all := Push(all, Entry(ds[i], i));
      }
    }
    all := SortHeap(all);
  }

  lemma EmptyHeap(h: seq<Entry>)
    ensures Heap(h, 0)
  {
  }

  /** A nearest-neighbour query and the scan: as many results, and the i-th distance within the factor of the i-th
      smallest; equal to it for eps = 0. */
  method NearestMatchScan(t: KdTree, x0: Point, k: nat, selfmatch: bool, eps: real)
    returns (results: seq<Entry>, all: seq<Entry>)
    requires t.Valid() && k > 0 && eps >= 0.0 && |x0| >= t.nx
    modifies t
    ensures t.Valid()
    ensures t.rows == old(t.rows) && t.nx == old(t.nx) && t.norm == old(t.norm) && RowsOk(t.rows, t.nx)
    ensures var wanted := if k < |t.rows| then k else |t.rows|;
            var q := Query(t.norm, x0[..t.nx], wanted, 0.0, selfmatch, ApproxFactor(t.norm, eps));
      SortedScan(all, Distances(t.rows, q), q)
    ensures |results| == if k < |all| then k else |all|
    ensures forall i | 0 <= i < |results| ::
      all[i].key <= results[i].key && results[i].key * ApproxFactor(t.norm, eps) <= all[i].key
    ensures eps == 0.0 ==> forall i | 0 <= i < |results| :: results[i].key == all[i].key
    ensures NamesRows(results, t.rows, t.norm, x0[..t.nx])
  {
    hide Best, SortedScan, Distances, KdTree.Valid, NamesRows;
    TreeRows(t);
    var count := t.QueryAKNN(x0, k, selfmatch, eps);
    results := t.heap;
    var q := Query(t.norm, x0[..t.nx], if k < |t.rows| then k else |t.rows|, 0.0, selfmatch, ApproxFactor(t.norm, eps));
    all := LinearScan(Distances(t.rows, q), q);
    FactorBounds(t.norm, eps);
    DistancesNonNegative(t.rows, q);
    ScanSize(all, Distances(t.rows, q), q);
    ResultsMatchScan(results, all, Distances(t.rows, q), q);
    ResultsNameRows(results, t.rows, q);
  }

  lemma TreeRows(t: KdTree)
    requires t.Valid()
    ensures RowsOk(t.rows, t.nx)
  {
  }

  lemma {:induction false} ScanIsShort(ds: seq<real>, q: Query, n: nat)
    requires n <= |ds|
    ensures |Scan(ds, q, n)| <= n
  {
    hide Eligible;
    if n > 0 {
      ScanIsShort(ds, q, n - 1);
    }
  }

  lemma ScanSize(all: seq<Entry>, ds: seq<real>, q: Query)
    requires SortedScan(all, ds, q)
    ensures |all| <= |ds|
  {
    hide Scan, Ascending;
    ScanIsShort(ds, q, |ds|);
    assert |multiset(all)| == |all| && |multiset(Scan(ds, q, |ds|))| == |Scan(ds, q, |ds|)|;
  }

  /** A radius query and the scan: the same rows, in order of distance. */
  method InRangeMatchScan(t: KdTree, x0: Point, r: real, selfmatch: bool)
    returns (results: seq<Entry>, all: seq<Entry>)
    requires t.Valid() && r > 0.0 && |x0| >= t.nx
    modifies t
    ensures t.Valid()
    ensures t.rows == old(t.rows) && t.nx == old(t.nx) && t.norm == old(t.norm) && RowsOk(t.rows, t.nx)
    ensures var q := Query(t.norm, x0[..t.nx], 0, if t.norm != 2 then r else r * r, selfmatch, 1.0);
      SortedScan(all, Distances(t.rows, q), q)
    ensures multiset(results) == multiset(all) && Ascending(results)
    ensures |results| == |all| && forall i | 0 <= i < |results| :: results[i].key == all[i].key
    ensures NamesRows(results, t.rows, t.norm, x0[..t.nx])
  {
    hide Best, SortedScan, Distances, KdTree.Valid, NamesRows;
    TreeRows(t);
    var count := t.QueryRNN(x0, r, selfmatch);
    results := t.heap;
    var q := Query(t.norm, x0[..t.nx], 0, if t.norm != 2 then r else r * r, selfmatch, 1.0);
    all := LinearScan(Distances(t.rows, q), q);
    DistancesNonNegative(t.rows, q);
    ResultsMatchScan(results, all, Distances(t.rows, q), q);
    ResultsNameRows(results, t.rows, q);
  }

  function ApproxFactor(norm: Norm, eps: real): real
    requires eps >= 0.0
  {
    if norm == 2 then
      assert (1.0 + eps) * (1.0 + eps) > 0.0;
      1.0 / ((1.0 + eps) * (1.0 + eps))
    else 1.0 / (1.0 + eps)
  }

  // ---- small facts the methods use ----

  lemma TotalStart(norm: Norm, ts: seq<real>)
    ensures Total(norm, ts[..0]) == 0.0
  {
  }

  lemma TotalStep(norm: Norm, ts: seq<real>, i: nat)
    requires i < |ts| && NonNegative(ts)
    ensures Total(norm, ts[..i + 1]) ==
            if norm == 0 then MaxReal(Total(norm, ts[..i]), ts[i]) else Total(norm, ts[..i]) + Cost(norm, ts[i])
    ensures 0.0 <= Total(norm, ts[..i + 1])
  {
    assert ts[..i + 1][..i] == ts[..i];
    TotalMonotone(norm, ts[..i + 1], ts[..i + 1]);
  }

  lemma FactorBounds(norm: Norm, eps: real)
    requires eps >= 0.0
    ensures 0.0 < ApproxFactor(norm, eps) <= 1.0 && ApproxFactor(norm, 0.0) == 1.0
  {
    SquareMonotone(1.0, 1.0 + eps);
    InverseBounds(1.0 + eps);
    InverseBounds((1.0 + eps) * (1.0 + eps));
  }

  lemma InverseBounds(a: real)
    requires a >= 1.0
    ensures 0.0 < 1.0 / a <= 1.0
  {
    var i := 1.0 / a;
    assert i * a == 1.0;
  }

  lemma NothingSeen(ds: seq<real>, q: Query)
    ensures Best(multiset([]), ds, q, {}) && (ds == [] ==> Best(multiset([]), ds, q, Interval(0, 0)))
  {
  }

  lemma PermutedAll(was: seq<Row>, now: seq<Row>)
    requires Permuted(was, now, 0, |was|)
    ensures |now| == |was| && multiset(now) == multiset(was)
  {
    assert now[0..|was|] == now && was[0..|was|] == was;
  }

  lemma WidenBox(rows: seq<Row>, i: nat, b: Box, nx: nat, j: nat, v: real)
    requires RowsOk(rows, nx) && i <= |rows| && BoxOk(b, nx) && AllInBox(rows, 0, i, b, nx) && j < nx
    ensures var c := Box(b.lo[j := if v < b.lo[j] then v else b.lo[j]], b.hi[j := MaxReal(b.hi[j], v)]);
            BoxOk(c, nx) && AllInBox(rows, 0, i, c, nx)
  {
    var c := Box(b.lo[j := if v < b.lo[j] then v else b.lo[j]], b.hi[j := MaxReal(b.hi[j], v)]);
    forall k | 0 <= k < i ensures InBox(rows[k].coords, c) {
      assert InBox(rows[k].coords, b);
    }
  }

  lemma PermutedRefl(rows: seq<Row>, i1: nat, i2: nat)
    requires i1 <= i2 <= |rows|
    ensures Permuted(rows, rows, i1, i2)
  {
  }

  lemma WidenLeaf(nodes: seq<int>, splits: seq<real>, offs: int, hi: int, soffs: int, t: Tree)
    requires t.Leaf? && EncodesIn(nodes, splits, offs, hi, 0, offs, t) && 0 <= soffs <= |splits|
    ensures EncodesIn(nodes, splits, offs, hi, soffs, offs, t)
  {
  }

  lemma FlatBox(rows: seq<Row>, i1: nat, i2: nat, b: Box, nx: nat, d: nat, v: real)
    requires RowsOk(rows, nx) && i1 < i2 <= |rows| && BoxOk(b, nx) && AllInBox(rows, i1, i2, b, nx) && d < nx
    requires forall i | i1 <= i < i2 :: rows[i].coords[d] == v
    ensures var c := Box(b.lo[d := v], b.hi[d := v]);
            BoxOk(c, nx) && AllInBox(rows, i1, i2, c, nx) && Inside(c, b, nx)
  {
    assert InBox(rows[i1].coords, b);
  }

  lemma HalvesHold(rows: seq<Row>, i1: nat, i3: nat, i2: nat, b: Box, nx: nat, d: nat, s: real)
    requires RowsOk(rows, nx) && i1 < i3 < i2 <= |rows| && BoxOk(b, nx) && AllInBox(rows, i1, i2, b, nx)
    requires d < nx && b.lo[d] <= s <= b.hi[d]
    requires forall i | i1 <= i < i3 :: rows[i].coords[d] <= s
    requires forall i | i3 <= i < i2 :: rows[i].coords[d] >= s
    ensures BoxOk(LeftHalf(b, d, s), nx) && AllInBox(rows, i1, i3, LeftHalf(b, d, s), nx)
    ensures BoxOk(RightHalf(b, d, s), nx) && AllInBox(rows, i3, i2, RightHalf(b, d, s), nx)
  {
  }

  lemma RightUntouched(was: seq<Row>, now: seq<Row>, i1: nat, i3: nat, i2: nat, b: Box, nx: nat)
    requires Permuted(was, now, i1, i3) && i3 <= i2 <= |was| && RowsOk(was, nx) && RowsOk(now, nx)
    requires BoxOk(b, nx) && AllInBox(was, i3, i2, b, nx)
    ensures AllInBox(now, i3, i2, b, nx)
  {
    forall i | i3 <= i < i2 ensures InBox(now[i].coords, b) {
      PermutedOutside(was, now, i1, i3, i);
    }
  }

  /** Rows and boxes of a split, after both children have been generated. */
  lemma JoinRows(a: seq<Row>, b: seq<Row>, c: seq<Row>, i1: nat, i3: nat, i2: nat, d: nat, s: real,
                 l: Tree, r: Tree, nx: nat, box: Box)
    requires RowsOk(a, nx) && RowsOk(b, nx) && RowsOk(c, nx)
    requires Permuted(a, b, i1, i3) && Permuted(b, c, i3, i2)
    requires BoxOk(box, nx) && d < nx && box.lo[d] <= s <= box.hi[d]
    requires Contiguous(l) && Contiguous(r) && End(l) == First(r) == i3
    requires Fits(l, b, nx, LeftHalf(box, d, s)) && Fits(r, c, nx, RightHalf(box, d, s))
    ensures Permuted(a, c, i1, i2)
    ensures Fits(Split(d, s, l, r), c, nx, box) && Contiguous(Split(d, s, l, r))
  {
    hide Permuted;
    PermutedSizes(a, b, i1, i3);
    PermutedSizes(b, c, i3, i2);
    PermutedWider(a, b, i1, i3, i1, i2);
    PermutedWider(b, c, i3, i2, i1, i2);
    PermutedTransitive(a, b, c, i1, i2);
    FitsAfter(l, b, c, nx, LeftHalf(box, d, s), i3, i2);
  }

  lemma TightPoint(rows: seq<Row>, nx: nat)
    requires rows != [] && RowsOk(rows, nx)
    ensures Tight(Part(rows, 0, 1), Box(rows[0].coords[..nx], rows[0].coords[..nx]), nx)
  {
    assert rows[0] in Part(rows, 0, 1);
  }

  lemma TightWider(rows: seq<Row>, i: nat, b: Box, nx: nat, j: nat)
    requires i < |rows| && RowsOk(rows, nx) && j < nx && BoxOk(b, nx) && Tight(Part(rows, 0, i + 1), b, nx)
    ensures var v := rows[i].coords[j];
      Tight(Part(rows, 0, i + 1),
            Box(b.lo[j := if v < b.lo[j] then v else b.lo[j]], b.hi[j := MaxReal(b.hi[j], v)]), nx)
  {
    hide Part, SomeAt;
    RowIsAt(rows, 0, i + 1, i, j);
  }

  lemma JoinSlid(a: seq<Row>, b: seq<Row>, c: seq<Row>, i1: nat, i3: nat, i2: nat, d: nat, s: real,
                 l: Tree, r: Tree, nx: nat, box: Box)
    requires Permuted(a, c, i1, i2) && Permuted(b, c, i3, i2) && BoxOk(box, nx)
    requires Contiguous(l) && Contiguous(r) && First(l) == i1 && End(l) == First(r) == i3 && End(r) == i2
    requires i2 - i1 > MAX_LEAF_SIZE && LongestVarying(Part(a, i1, i2), nx, box, d)
    requires SlidTo(Part(a, i1, i2), d, Middle(box, d), s)
    requires Slid(l, b, nx, LeftHalf(box, d, s)) && Slid(r, c, nx, RightHalf(box, d, s))
    ensures Slid(Split(d, s, l, r), c, nx, box)
  {
    hide Permuted, SlidTo, Vary, Part;
    PermutedSizes(a, c, i1, i2);
    PermutedSizes(b, c, i3, i2);
    PermutedPart(a, c, i1, i2);
    forall i | i1 <= i < i3
      ensures c[i] == b[i]
    {
      PermutedOutside(b, c, i3, i2, i);
    }
    SlidFrame(l, b, c, nx, LeftHalf(box, d, s));
  }

  /** Where the rule puts the split of a range of rows, from what a scan of the column finds. */
  lemma RuleOfSplit(rows: seq<Row>, i1: nat, i2: nat, nx: nat, d: nat, middle: real, minidx: nat, maxidx: nat,
                    less: bool, greater: bool)
    requires i1 <= i2 <= |rows| && RowsOk(rows, nx) && d < nx && i1 <= minidx < i2 && i1 <= maxidx < i2
    requires forall i | i1 <= i < i2 :: rows[minidx].coords[d] <= rows[i].coords[d] <= rows[maxidx].coords[d]
    requires !less <==> forall i | i1 <= i < i2 :: rows[i].coords[d] >= middle
    requires !greater <==> forall i | i1 <= i < i2 :: rows[i].coords[d] <= middle
    ensures SlidTo(Part(rows, i1, i2), d, middle,
      if !less then rows[minidx].coords[d] else if !greater then rows[maxidx].coords[d] else middle)
  {
    hide SomeBelow, SomeAbove, SomeAt, Part;
    SidesOf(rows, i1, i2, nx, d, middle);
    var minv, maxv := rows[minidx].coords[d], rows[maxidx].coords[d];
    SidesOf(rows, i1, i2, nx, d, minv);
    SidesOf(rows, i1, i2, nx, d, maxv);
    RowIsAt(rows, i1, i2, minidx, d);
    RowIsAt(rows, i1, i2, maxidx, d);
  }

  lemma SidesOf(rows: seq<Row>, i1: nat, i2: nat, nx: nat, d: nat, v: real)
    requires i1 <= i2 <= |rows| && RowsOk(rows, nx) && d < nx
    ensures !SomeBelow(Part(rows, i1, i2), d, v) <==> forall i | i1 <= i < i2 :: rows[i].coords[d] >= v
    ensures !SomeAbove(Part(rows, i1, i2), d, v) <==> forall i | i1 <= i < i2 :: rows[i].coords[d] <= v
  {
    assert forall i | i1 <= i < i2 :: rows[i] in Part(rows, i1, i2);
  }

  lemma RowIsAt(rows: seq<Row>, i1: nat, i2: nat, i: nat, d: nat)
    requires i1 <= i < i2 <= |rows| && d < |rows[i].coords|
    ensures SomeAt(Part(rows, i1, i2), d, rows[i].coords[d])
  {
    assert rows[i] in Part(rows, i1, i2);
  }

  lemma LongestVaries(rows: seq<Row>, i1: nat, i2: nat, nx: nat, b: Box, d: nat, i: nat, k: nat)
    requires i1 <= i < i2 <= |rows| && i1 <= k < i2 && RowsOk(rows, nx) && BoxOk(b, nx) && d < nx
    requires rows[i].coords[d] != rows[k].coords[d]
    requires forall j | 0 <= j < nx :: b.hi[j] - b.lo[j] <= b.hi[d] - b.lo[d]
    ensures LongestVarying(Part(rows, i1, i2), nx, b, d)
  {
    var part := Part(rows, i1, i2);
    assert rows[i] in part && rows[k] in part;
  }

  lemma SlidLeaf(rows: seq<Row>, i1: nat, i2: nat, nx: nat, b: Box)
    requires i1 <= i2 <= |rows| && RowsOk(rows, nx) && BoxOk(b, nx) && AllInBox(rows, i1, i2, b, nx)
    requires i2 - i1 <= MAX_LEAF_SIZE || forall j | 0 <= j < nx :: b.hi[j] == b.lo[j]
    ensures Slid(Leaf(i1, i2), rows, nx, b)
  {
    var part := Part(rows, i1, i2);
    forall p | p in part
      ensures nx <= |p.coords| && InBox(p.coords, b)
    {
    }
  }

  lemma FlatIsSlid(t: Tree, was: seq<Row>, rows: seq<Row>, nx: nat, flat: Box, box: Box, d: nat, v: real)
    requires Contiguous(t) && Slid(t, rows, nx, flat) && BoxOk(box, nx) && d < nx && |was| == |rows|
    requires flat == Box(box.lo[d := v], box.hi[d := v])
    requires RowsOk(was, nx) && Part(rows, First(t), End(t)) == Part(was, First(t), End(t))
    requires forall i | First(t) <= i < End(t) :: was[i].coords[d] == v
    ensures Slid(t, rows, nx, box)
  {
    var part := Part(was, First(t), End(t));
    assert !Vary(part, d);
    assert SameWhere(part, nx, flat, box) by {
      hide Vary;
    }
    SlidInBox(t, rows, nx, flat, box);
  }

  lemma PermutedSizes(was: seq<Row>, now: seq<Row>, i1: nat, i2: nat)
    requires Permuted(was, now, i1, i2)
    ensures i1 <= i2 <= |was| == |now|
  {
  }

  /** Node and split cells of a split, after both children have been generated: `mid` is the
      state between them, before the offset of the right child is written. */
  lemma JoinCells(was: Arrays, mid: Arrays, now: Arrays, offs: nat, soffs: nat, n1: nat, s1: nat, n2: nat, s2: nat,
                  d: nat, s: real, l: Tree, r: Tree)
    requires offs + 6 <= n1 <= n2 <= |was.nodes| == |mid.nodes| == |now.nodes|
    requires soffs + 1 <= s1 <= s2 <= |was.splits| == |mid.splits| == |now.splits|
    requires var head := was.nodes[offs := 0][offs + 1 := d][offs + 2 := soffs][offs + 3 := offs + SPLIT_NODE_SIZE];
             mid.nodes[..offs + 6] == head[..offs + 6]
    requires mid.splits[..soffs + 1] == was.splits[soffs := s][..soffs + 1]
    requires now.nodes[..n1] == mid.nodes[offs + 4 := n1][..n1] && now.splits[..s1] == mid.splits[..s1]
    requires EncodesIn(mid.nodes, mid.splits, offs + 6, n1, s1, offs + 6, l)
    requires EncodesIn(now.nodes, now.splits, n1, n2, s2, n1, r)
    ensures now.nodes[..offs] == was.nodes[..offs] && now.splits[..soffs] == was.splits[..soffs]
    ensures EncodesIn(now.nodes, now.splits, offs, n2, s2, offs, Split(d, s, l, r))
  {
    hide EncodesIn;
    ghost var head := was.nodes[offs := 0][offs + 1 := d][offs + 2 := soffs][offs + 3 := offs + SPLIT_NODE_SIZE];
    PrefixCells(mid.nodes, head, offs + 6);
    PrefixCells(now.nodes, mid.nodes[offs + 4 := n1], n1);
    PrefixSplits(mid.splits, was.splits[soffs := s], soffs + 1);
    PrefixSplits(now.splits, mid.splits, s1);
    EncodesInFrame(mid.nodes, mid.splits, offs + 6, n1, s1, offs + 6, l, now.nodes, now.splits, offs, n2, s2);
    EncodesInFrame(now.nodes, now.splits, n1, n2, s2, n1, r, now.nodes, now.splits, offs, n2, s2);
    SplitEncodes(now.nodes, now.splits, offs, n2, s2, d, s, l, r);
  }

  lemma FitsAfter(t: Tree, was: seq<Row>, now: seq<Row>, nx: nat, b: Box, i3: nat, i2: nat)
    requires Permuted(was, now, i3, i2) && RowsOk(was, nx) && RowsOk(now, nx)
    requires Contiguous(t) && End(t) == i3 && Fits(t, was, nx, b)
    ensures Fits(t, now, nx, b)
  {
    forall i | First(t) <= i < End(t) && i < |was| ensures now[i] == was[i] {
      PermutedOutside(was, now, i3, i2, i);
    }
    FitsFrame(t, was, now, nx, b);
  }

  lemma SplitEncodes(nodes: seq<int>, splits: seq<real>, offs: nat, hi: nat, shi: nat, d: nat, s: real, l: Tree,
                     r: Tree)
    requires offs + 4 < hi <= |nodes| && shi <= |splits|
    requires nodes[offs] == 0 && nodes[offs + 1] == d
    requires 0 <= nodes[offs + 2] < shi && splits[nodes[offs + 2]] == s
    requires EncodesIn(nodes, splits, offs, hi, shi, nodes[offs + 3], l)
    requires EncodesIn(nodes, splits, offs, hi, shi, nodes[offs + 4], r)
    ensures EncodesIn(nodes, splits, offs, hi, shi, offs, Split(d, s, l, r))
  {
  }

  lemma PrefixCells(a: seq<int>, b: seq<int>, n: nat)
    requires n <= |a| && n <= |b| && a[..n] == b[..n]
    ensures forall i | 0 <= i < n :: a[i] == b[i]
  {
    forall i | 0 <= i < n ensures a[i] == b[i] {
      assert a[..n][i] == b[..n][i];
    }
  }

  lemma PrefixSplits(a: seq<real>, b: seq<real>, n: nat)
    requires n <= |a| && n <= |b| && a[..n] == b[..n]
    ensures forall i | 0 <= i < n :: a[i] == b[i]
  {
    forall i | 0 <= i < n ensures a[i] == b[i] {
      assert a[..n][i] == b[..n][i];
    }
  }

  /** With rows on both sides of s before, both parts are non-empty after. */
  lemma SplitIsProper(was: seq<Row>, now: seq<Row>, i1: nat, i2: nat, i3: nat, d: nat, s: real, nx: nat)
    requires Permuted(was, now, i1, i2) && RowsOk(was, nx) && RowsOk(now, nx) && d < nx && i1 <= i3 <= i2
    requires exists i :: i1 <= i < i2 && was[i].coords[d] < s
    requires exists i :: i1 <= i < i2 && was[i].coords[d] > s
    requires forall i | i1 <= i < i3 :: now[i].coords[d] <= s
    requires forall i | i3 <= i < i2 :: now[i].coords[d] > s
    ensures i1 < i3 < i2
  {
    var a :| i1 <= a < i2 && was[a].coords[d] < s;
    var b :| i1 <= b < i2 && was[b].coords[d] > s;
    PermutedBack(was, now, i1, i2);
    var a' := PermutedRow(now, was, i1, i2, a);
    var b' := PermutedRow(now, was, i1, i2, b);
  }

  lemma PermutedBack(was: seq<Row>, now: seq<Row>, i1: nat, i2: nat)
    requires Permuted(was, now, i1, i2)
    ensures Permuted(now, was, i1, i2)
  {
  }

  lemma SquareOfAbs(t: real)
    ensures Abs(t) * Abs(t) == t * t
  {
  }

  /** What the search finds at a node, and what it may assume of the children. */
  lemma NodeShape(nodes: seq<int>, splits: seq<real>, offs: int, t: Tree, rows: seq<Row>, nx: nat, b: Box)
    requires Encodes(nodes, splits, offs, t) && Contiguous(t) && RowsOk(rows, nx) && Fits(t, rows, nx, b)
    ensures 0 <= offs && offs + 1 < |nodes|
    ensures nodes[offs] > 0 <==> t.Leaf?
    ensures t.Leaf? ==> nodes[offs + 1] == First(t) <= End(t) == nodes[offs + 1] + nodes[offs] <= |rows|
    ensures t.Split? ==>
              && offs + 4 < |nodes| && nodes[offs + 1] == t.d < nx
              && 0 <= nodes[offs + 2] < |splits| && splits[nodes[offs + 2]] == t.s
              && Encodes(nodes, splits, nodes[offs + 3], t.left) && Encodes(nodes, splits, nodes[offs + 4], t.right)
              && Contiguous(t.left) && Contiguous(t.right)
              && b.lo[t.d] <= t.s <= b.hi[t.d]
              && Fits(t.left, rows, nx, LeftHalf(b, t.d, t.s)) && Fits(t.right, rows, nx, RightHalf(b, t.d, t.s))
              && First(t) == First(t.left) <= End(t.left) == First(t.right) <= End(t.right) == End(t)
  {
    if t.Split? {
      ContiguousNonEmpty(t.left);
      ContiguousNonEmpty(t.right);
    }
  }

  lemma IntervalGrows(seen: set<nat>, a: nat, i: nat)
    requires a <= i
    ensures seen + Interval(a, a) == seen
    ensures seen + Interval(a, i) + {i} == seen + Interval(a, i + 1)
    ensures forall j | j in Interval(a, i) :: j < i
  {
  }

  lemma IntervalsJoin(seen: set<nat>, a: nat, b: nat, c: nat)
    requires a <= b <= c && seen !! Interval(a, c)
    ensures var l, r := Interval(a, b), Interval(b, c);
            && seen !! l && seen !! r && seen + l !! r && seen + r !! l
            && seen + l + r == seen + Interval(a, c) == seen + r + l
  {
  }

  lemma RowCases(m: multiset<Entry>, ds: seq<real>, q: Query, seen: set<nat>, i: nat)
    requires Best(m, ds, q, seen) && i < |ds|
    ensures Eligible(q, ds[i]) <==> !(ds[i] == 0.0 && !q.selfmatch) && (q.rneeded == 0.0 || ds[i] <= q.rneeded)
    ensures !Eligible(q, ds[i]) ==> Best(m, ds, q, seen + {i})
  {
    if !Eligible(q, ds[i]) {
      SeeIneligible(m, ds, q, seen, i);
    }
  }

  lemma BestIsFull(m: multiset<Entry>, ds: seq<real>, q: Query, seen: set<nat>)
    requires Best(m, ds, q, seen) && q.kneeded > 0 && |m| >= q.kneeded
    ensures |m| == q.kneeded
  {
  }

  lemma HeapTop(h: seq<Entry>)
    requires h != [] && Heap(h, |h|)
    ensures h[0] in multiset(h) && forall e | e in multiset(h) :: e.key <= h[0].key
  {
    forall e | e in multiset(h) ensures e.key <= h[0].key {
      var i :| 0 <= i < |h| && h[i] == e;
      TopIsMax(h, |h|, i);
    }
  }

  lemma SingleReplaced(h: seq<Entry>, e: Entry)
    requires |h| == 1
    ensures multiset([e]) == multiset(h) - multiset{h[0]} + multiset{e}
    ensures Heap([e], 1)
  {
    assert h == [h[0]];
  }
}
