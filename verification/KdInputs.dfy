/** How the rows of a kd-tree of ALGLIB (alglibmisc.cpp, nearest neighbour section) hold the data set it was built from:
    each input row once, with its tag. */
module KdInputs {
  import opened TagHeap
  import opened KdGeometry
  import opened KdSpec

  /** The rows that construction starts from. */
  function InputRows(xy: seq<Point>, tags: seq<int>, nx: nat, ny: nat): (r: seq<Row>)
    requires |tags| == |xy| && forall i | 0 <= i < |xy| :: nx + ny <= |xy[i]|
    ensures |r| == |xy|
  {
    seq(|xy|, i requires 0 <= i < |xy| => Row(xy[i][..nx] + xy[i][..nx + ny], tags[i]))
  }

  /** The row stands for this point and tag: its first nx columns are the point, the others the whole input row. */
  predicate Holds(row: Row, p: Point, tag: int, nx: nat, ny: nat) {
    && nx + ny <= |p| && |row.coords| == 2 * nx + ny && row.tag == tag
    && (forall j | 0 <= j < nx :: row.coords[j] == p[j])
    && (forall j | 0 <= j < nx + ny :: row.coords[nx + j] == p[j])
  }

  /** The numbers below n, each once. */
  predicate Arrangement(order: seq<nat>, n: nat) {
    && |order| == n && (forall j | 0 <= j < n :: order[j] < n)
    && (forall i, j | 0 <= i < j < n :: order[i] != order[j])
  }

  /** Row j stands for input row order[j]. */
  predicate Arranged(rows: seq<Row>, xy: seq<Point>, tags: seq<int>, nx: nat, ny: nat, order: seq<nat>) {
    && |tags| == |xy| == |rows| && Arrangement(order, |rows|)
    && forall j | 0 <= j < |rows| :: Holds(rows[j], xy[order[j]], tags[order[j]], nx, ny)
  }

  /** A rearrangement as a list of places. */
  lemma {:induction false} OrderOf(now: seq<Row>, was: seq<Row>) returns (order: seq<nat>)
    requires multiset(now) == multiset(was)
    ensures |now| == |was| && Arrangement(order, |now|)
    ensures forall j | 0 <= j < |now| :: now[j] == was[order[j]]
    decreases |now|
  {
    hide Arrangement;
    assert |multiset(now)| == |now| && |multiset(was)| == |was|;
    if now == [] {
      order := [];
      NothingArranged();
    } else {
      var n := |now| - 1;
      assert now[n] in multiset(now);
      var k :| 0 <= k < |was| && was[k] == now[n];
      WithoutOne(now, n);
      WithoutOne(was, k);
      var rest := OrderOf(Without(now, n), Without(was, k));
      order := OrderWith(now, was, n, k, rest);
    }
  }

  lemma NothingArranged()
    ensures Arrangement([], 0)
  {
  }

  function Without(rows: seq<Row>, k: nat): (r: seq<Row>)
    requires k < |rows|
    ensures |r| == |rows| - 1 && forall j | 0 <= j < |r| :: r[j] == rows[Past(j, k)]
  {
    rows[..k] + rows[k + 1..]
  }

  lemma WithoutOne(rows: seq<Row>, k: nat)
    requires k < |rows|
    ensures multiset(Without(rows, k)) == multiset(rows) - multiset{rows[k]}
  {
    assert rows == rows[..k] + ([rows[k]] + rows[k + 1..]);
  }

  lemma OrderWith(now: seq<Row>, was: seq<Row>, n: nat, k: nat, rest: seq<nat>) returns (order: seq<nat>)
    requires |now| == |was| == n + 1 && k <= n && now[n] == was[k] && Arrangement(rest, n)
    requires forall j | 0 <= j < n :: Without(now, n)[j] == Without(was, k)[rest[j]]
    ensures Arrangement(order, n + 1) && forall j | 0 <= j < |now| :: now[j] == was[order[j]]
  {
    hide Without;
    order := seq(n, j requires 0 <= j < n => Past(rest[j], k)) + [k];
    PastKeeps(rest, k, n, order);
    forall j | 0 <= j < n
      ensures now[j] == was[order[j]]
    {
      assert Without(now, n)[j] == Without(was, k)[rest[j]];
    }
  }

  /** A place in the list before place k was taken out. */
  function Past(i: nat, k: nat): nat {
    if i < k then i else i + 1
  }

  lemma PastKeeps(rest: seq<nat>, k: nat, n: nat, order: seq<nat>)
    requires Arrangement(rest, n) && k <= n
    requires |order| == n + 1 && order[n] == k && forall j | 0 <= j < n :: order[j] == Past(rest[j], k)
    ensures Arrangement(order, n + 1)
  {
  }

  /** Rows that are the input rows rearranged hold each input row once. */
  lemma InputsArranged(rows: seq<Row>, xy: seq<Point>, tags: seq<int>, nx: nat, ny: nat) returns (order: seq<nat>)
    requires |tags| == |xy| && forall i | 0 <= i < |xy| :: nx + ny <= |xy[i]|
    requires multiset(rows) == multiset(InputRows(xy, tags, nx, ny))
    ensures Arranged(rows, xy, tags, nx, ny, order)
  {
    hide Arrangement;
    order := OrderOf(rows, InputRows(xy, tags, nx, ny));
    PlacesInRange(order, |rows|);
    forall j | 0 <= j < |rows|
      ensures Holds(rows[j], xy[order[j]], tags[order[j]], nx, ny)
    {
      assert rows[j] == InputRows(xy, tags, nx, ny)[order[j]];
    }
  }

  lemma PlacesInRange(order: seq<nat>, n: nat)
    requires Arrangement(order, n)
    ensures |order| == n && forall j | 0 <= j < n :: order[j] < n
  {
  }

  /** Every input row has its place. */
  lemma PlaceOf(order: seq<nat>, n: nat, i: nat) returns (j: nat)
    requires Arrangement(order, n) && i < n
    ensures j < n && order[j] == i
  {
    CountPlaces(order, n);
    if i !in Places(order, n) {
      forall v | v in Places(order, n)
        ensures v in Numbers(n) - {i}
      {
        var k := PlaceIn(order, n, v);
      }
      Fewer(Places(order, n), Numbers(n) - {i});
      assert false;
    }
    j := PlaceIn(order, n, i);
  }

  lemma Fewer(a: set<nat>, b: set<nat>)
    requires a <= b
    ensures |a| <= |b|
  {
    assert b == a + (b - a);
  }

  /** The numbers below n. */
  ghost function Numbers(n: nat): (r: set<nat>)
    ensures |r| == n && forall k: nat :: k in r <==> k < n
  {
    if n == 0 then {} else Numbers(n - 1) + {n - 1}
  }

  /** The first n elements of order. */
  ghost function Places(order: seq<nat>, n: nat): set<nat>
    requires n <= |order|
  {
    if n == 0 then {} else Places(order, n - 1) + {order[n - 1]}
  }

  lemma {:induction false} PlaceIn(order: seq<nat>, n: nat, v: nat) returns (k: nat)
    requires n <= |order| && v in Places(order, n)
    ensures k < n && order[k] == v
  {
    if order[n - 1] == v {
      k := n - 1;
    } else {
      k := PlaceIn(order, n - 1, v);
    }
  }

  lemma {:induction false} CountPlaces(order: seq<nat>, n: nat)
    requires n <= |order| && forall i, j | 0 <= i < j < n :: order[i] != order[j]
    ensures |Places(order, n)| == n
  {
    if n > 0 {
      CountPlaces(order, n - 1);
      if order[n - 1] in Places(order, n - 1) {
        var k := PlaceIn(order, n - 1, order[n - 1]);
        assert false;
      }
    }
  }

  // ---- answers ----

  /** Row `which` of the input may be a result of the query. */
  predicate Admissible(xy: seq<Point>, q: Query, which: nat)
    requires which < |xy| && |q.x| <= |xy[which]|
  {
    var d := Distance(q.norm, xy[which], q.x);
    (q.selfmatch || d != 0.0) && (q.rneeded > 0.0 ==> d <= q.rneeded)
  }

  /** The rows listed are admissible, and come with their distances. */
  predicate Listed(which: seq<nat>, ds: seq<real>, xy: seq<Point>, q: Query)
    requires forall i | 0 <= i < |xy| :: |q.x| <= |xy[i]|
  {
    |which| == |ds| && forall i | 0 <= i < |which| ::
      which[i] < |xy| && Admissible(xy, q, which[i]) && ds[i] == Distance(q.norm, xy[which[i]], q.x)
  }

  /** Each row at most once, nearest first. */
  predicate InOrder(which: seq<nat>, ds: seq<real>) {
    |which| == |ds| && forall i, j | 0 <= i < j < |which| :: which[i] != which[j] && ds[i] <= ds[j]
  }

  /** The wanted number of rows is listed, and none of them is farther than v, up to the factor. */
  predicate Enough(which: seq<nat>, ds: seq<real>, q: Query, v: real) {
    q.kneeded > 0 && |which| == q.kneeded && forall i | 0 <= i < |ds| :: ds[i] * q.approxf <= v
  }

  /** The answer to a query in terms of the input. */
  predicate Answers(which: seq<nat>, ds: seq<real>, xy: seq<Point>, q: Query)
    requires forall i | 0 <= i < |xy| :: |q.x| <= |xy[i]|
  {
    && Listed(which, ds, xy, q) && InOrder(which, ds) && (q.kneeded > 0 ==> |which| <= q.kneeded)
    && forall c: nat | c < |xy| && Admissible(xy, q, c) && c !in which ::
         Enough(which, ds, q, Distance(q.norm, xy[c], q.x))
  }

  /** The input rows that the entries stand for. */
  function InputsOf(results: seq<Entry>, order: seq<nat>): seq<nat>
    requires forall i | 0 <= i < |results| :: 0 <= results[i].tag < |order|
  {
    seq(|results|, i requires 0 <= i < |results| => order[results[i].tag])
  }

  function Keys(results: seq<Entry>): seq<real> {
    seq(|results|, i requires 0 <= i < |results| => results[i].key)
  }

  /** Only the columns of the point matter for the distance. */
  lemma HoldsDistance(row: Row, p: Point, tag: int, nx: nat, ny: nat, norm: Norm, x: Point)
    requires Holds(row, p, tag, nx, ny) && |x| == nx
    ensures Distance(norm, row.coords, x) == Distance(norm, p, x)
  {
    assert Differences(row.coords, x) == Differences(p, x);
  }

  lemma RowDistance(rows: seq<Row>, xy: seq<Point>, tags: seq<int>, nx: nat, ny: nat, order: seq<nat>, q: Query, j: nat)
    requires Arranged(rows, xy, tags, nx, ny, order) && |q.x| == nx && j < |rows|
    ensures RowsOk(rows, nx) && order[j] < |xy| && nx <= |xy[order[j]]|
    ensures Distances(rows, q)[j] == Distance(q.norm, xy[order[j]], q.x)
  {
    assert Holds(rows[j], xy[order[j]], tags[order[j]], nx, ny);
    HoldsDistance(rows[j], xy[order[j]], tags[order[j]], nx, ny, q.norm, q.x);
  }

  /** Entries that are sound for the rows name places of rows, each once. */
  lemma SoundEntries(results: seq<Entry>, ds: seq<real>, q: Query, seen: set<nat>)
    requires Sound(multiset(results), ds, q, seen)
    ensures forall i | 0 <= i < |results| ::
      0 <= results[i].tag < |ds| && results[i].key == ds[results[i].tag] && Eligible(q, results[i].key)
    ensures forall i, j | 0 <= i < j < |results| :: results[i].tag != results[j].tag
  {
    hide Eligible;
    assert forall i | 0 <= i < |results| :: results[i] in multiset(results);
    forall i, j | 0 <= i < j < |results|
      ensures results[i].tag != results[j].tag
    {
      if results[i].tag == results[j].tag {
        assert results[i] == results[j];
        TwoOfOne(results, i, j);
        assert false;
      }
    }
  }

  /** The entries name rows, each at most once, with their distances. */
  predicate NamesRows(results: seq<Entry>, rows: seq<Row>, norm: Norm, x: Point)
    requires RowsOk(rows, |x|)
  {
    && (forall i | 0 <= i < |results| ::
          0 <= results[i].tag < |rows| && results[i].key == Distance(norm, rows[results[i].tag].coords, x))
    && forall i, j | 0 <= i < j < |results| :: results[i].tag != results[j].tag
  }

  lemma ResultsNameRows(results: seq<Entry>, rows: seq<Row>, q: Query)
    requires RowsOk(rows, |q.x|) && Best(multiset(results), Distances(rows, q), q, Interval(0, |rows|))
    ensures NamesRows(results, rows, q.norm, q.x)
  {
    hide Sound, Complete, Distance;
    SoundEntries(results, Distances(rows, q), q, Interval(0, |rows|));
  }

  lemma TwoOfOne(results: seq<Entry>, i: nat, j: nat)
    requires i < j < |results| && results[i] == results[j]
    ensures multiset(results)[results[i]] >= 2
  {
    assert results == results[..i] + ([results[i]] + (results[i + 1..j] + ([results[j]] + results[j + 1..])));
  }

  lemma EligibleIsAdmissible(xy: seq<Point>, q: Query, which: nat)
    requires which < |xy| && |q.x| <= |xy[which]| && q.rneeded >= 0.0
    ensures Eligible(q, Distance(q.norm, xy[which], q.x)) <==> Admissible(xy, q, which)
  {
    hide Distance;
  }

  /** The results of a query are the answer. */
  lemma ResultsAnswer(results: seq<Entry>, rows: seq<Row>, xy: seq<Point>, tags: seq<int>, nx: nat, ny: nat,
                      order: seq<nat>, q: Query)
    requires Arranged(rows, xy, tags, nx, ny, order) && |q.x| == nx && q.rneeded >= 0.0 && RowsOk(rows, nx)
    requires forall i | 0 <= i < |xy| :: nx <= |xy[i]|
    requires Ascending(results) && Best(multiset(results), Distances(rows, q), q, Interval(0, |rows|))
    ensures forall i | 0 <= i < |results| :: 0 <= results[i].tag < |order|
    ensures Answers(InputsOf(results, order), Keys(results), xy, q)
  {
    hide Arranged, Arrangement, Distance, Distances, Eligible, Admissible, Complete, Sound, Listed, InOrder, Enough,
      Ascending, InputsOf;
    ArrangedSizes(rows, xy, tags, nx, ny, order);
    SoundEntries(results, Distances(rows, q), q, Interval(0, |rows|));
    ResultsListed(results, rows, xy, tags, nx, ny, order, q);
    ResultsInOrder(results, order, |rows|);
    assert |multiset(results)| == |results|;
    forall c: nat | c < |xy| && Admissible(xy, q, c) && c !in InputsOf(results, order)
      ensures Enough(InputsOf(results, order), Keys(results), q, Distance(q.norm, xy[c], q.x))
    {
      var j := EligiblePlace(rows, xy, tags, nx, ny, order, q, c);
      NotListed(results, order, j);
      LeftOutIsFar(results, order, Distances(rows, q), q, j);
    }
  }

  lemma ResultsListed(results: seq<Entry>, rows: seq<Row>, xy: seq<Point>, tags: seq<int>, nx: nat, ny: nat,
                      order: seq<nat>, q: Query)
    requires Arranged(rows, xy, tags, nx, ny, order) && |q.x| == nx && q.rneeded >= 0.0 && RowsOk(rows, nx)
    requires |order| == |rows| && forall i | 0 <= i < |xy| :: nx <= |xy[i]|
    requires forall i | 0 <= i < |results| ::
      && 0 <= results[i].tag < |rows|
      && results[i].key == Distances(rows, q)[results[i].tag] && Eligible(q, results[i].key)
    ensures Listed(InputsOf(results, order), Keys(results), xy, q)
  {
    hide Holds, Arranged, Arrangement, Distance, Distances, Eligible, Admissible;
    var which := InputsOf(results, order);
    forall i | 0 <= i < |which|
      ensures which[i] < |xy| && Admissible(xy, q, which[i])
      ensures Keys(results)[i] == Distance(q.norm, xy[which[i]], q.x)
    {
      RowDistance(rows, xy, tags, nx, ny, order, q, results[i].tag);
      EligibleIsAdmissible(xy, q, which[i]);
    }
  }

  lemma ArrangedSizes(rows: seq<Row>, xy: seq<Point>, tags: seq<int>, nx: nat, ny: nat, order: seq<nat>)
    requires Arranged(rows, xy, tags, nx, ny, order)
    ensures |xy| == |rows| == |order| && Arrangement(order, |rows|)
  {
    hide Holds;
  }

  lemma ResultsInOrder(results: seq<Entry>, order: seq<nat>, n: nat)
    requires Arrangement(order, n) && Ascending(results)
    requires forall i | 0 <= i < |results| :: 0 <= results[i].tag < n
    requires forall i, j | 0 <= i < j < |results| :: results[i].tag != results[j].tag
    ensures |order| == n && InOrder(InputsOf(results, order), Keys(results))
    ensures |InputsOf(results, order)| == |results|
  {
  }

  lemma EligiblePlace(rows: seq<Row>, xy: seq<Point>, tags: seq<int>, nx: nat, ny: nat, order: seq<nat>, q: Query,
                      c: nat) returns (j: nat)
    requires Arranged(rows, xy, tags, nx, ny, order) && |q.x| == nx && q.rneeded >= 0.0 && RowsOk(rows, nx)
    requires c < |xy| && nx <= |xy[c]| && Admissible(xy, q, c)
    ensures j < |rows| && j < |order| && order[j] == c
    ensures Distances(rows, q)[j] == Distance(q.norm, xy[c], q.x) && Eligible(q, Distances(rows, q)[j])
  {
    hide Holds, Arranged, Arrangement, Distance, Distances, Eligible, Admissible;
    ArrangedSizes(rows, xy, tags, nx, ny, order);
    j := PlaceOf(order, |rows|, c);
    RowDistance(rows, xy, tags, nx, ny, order, q, j);
    EligibleIsAdmissible(xy, q, c);
  }

  lemma NotListed(results: seq<Entry>, order: seq<nat>, j: nat)
    requires forall i | 0 <= i < |results| :: 0 <= results[i].tag < |order|
    requires j < |order| && order[j] !in InputsOf(results, order)
    ensures forall i | 0 <= i < |results| :: results[i].tag != j
  {
    forall i | 0 <= i < |results|
      ensures results[i].tag != j
    {
      assert InputsOf(results, order)[i] in InputsOf(results, order);
    }
  }

  lemma LeftOutIsFar(results: seq<Entry>, order: seq<nat>, ds: seq<real>, q: Query, j: nat)
    requires Complete(multiset(results), ds, q, Interval(0, |ds|)) && j < |ds| && Eligible(q, ds[j])
    requires forall i | 0 <= i < |results| :: 0 <= results[i].tag < |order| && results[i].tag != j
    ensures Enough(InputsOf(results, order), Keys(results), q, ds[j])
  {
    hide Eligible, Crowded, Enough;
    assert Entry(ds[j], j) !in multiset(results);
    CrowdedIsEnough(results, order, q, ds[j]);
  }

  lemma CrowdedIsEnough(results: seq<Entry>, order: seq<nat>, q: Query, v: real)
    requires forall i | 0 <= i < |results| :: 0 <= results[i].tag < |order|
    requires Crowded(multiset(results), q, v)
    ensures Enough(InputsOf(results, order), Keys(results), q, v)
  {
    assert |multiset(results)| == |results|;
    forall i | 0 <= i < |results|
      ensures Keys(results)[i] * q.approxf <= v
    {
      assert results[i] in multiset(results) && Keys(results)[i] == results[i].key;
    }
  }

  lemma HoldsInput(row: Row, p: Point, tag: int, nx: nat, ny: nat)
    requires Holds(row, p, tag, nx, ny)
    ensures row.tag == tag && row.coords[nx..2 * nx + ny] == p[..nx + ny] && row.coords[nx..2 * nx] == p[..nx]
  {
  }
}
