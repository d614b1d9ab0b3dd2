/** The tagged max-heap of ALGLIB (alglibinternal.cpp): keys in one vector, tags in a parallel
    one, here a sequence of pairs. Elements move through a hole; the new element is written only
    when its place is known. */
module TagHeap {

  datatype Entry = Entry(key: real, tag: int)

  function Parent(i: nat): (p: nat)
    requires i > 0
    ensures p < i
  {
    (i - 1) / 2
  }

  predicate Heap(h: seq<Entry>, n: nat)
    requires n <= |h|
  {
    forall i | 0 < i < n :: h[Parent(i)].key >= h[i].key
  }

  lemma {:induction false} TopIsMax(h: seq<Entry>, n: nat, i: nat)
    requires i < n <= |h| && Heap(h, n)
    ensures h[i].key <= h[0].key
  {
    if i > 0 {
      TopIsMax(h, n, Parent(i));
    }
  }

  lemma SwapKeepsMultiset(s: seq<Entry>, i: nat, j: nat)
    requires i < |s| && j < |s|
    ensures multiset(s[i := s[j]][j := s[i]]) == multiset(s)
  {
    var t := s[i := s[j]];
    assert multiset(t) == multiset(s) - multiset{s[i]} + multiset{s[j]};
    assert t[j] == s[j];
  }

  /** Moving the hole from j to c is a swap of the list with the new element filled in. */
  lemma HoleMoves(a: seq<Entry>, e: Entry, j: nat, c: nat)
    requires j < |a| && c < |a| && j != c
    ensures var g := a[j := e]; g[j := g[c]][c := g[j]] == a[j := a[c]][c := e]
  {
  }

  /** A heap but for the element at `hole`, whose children are at most its parent. */
  predicate HeapUp(g: seq<Entry>, hole: nat) {
    && (forall i | 0 < i < |g| && i != hole :: g[Parent(i)].key >= g[i].key)
    && (0 < hole < |g| ==> forall i | 0 < i < |g| && Parent(i) == hole :: g[Parent(hole)].key >= g[i].key)
  }

  /** tagheappushi: add at the bottom, then move up. */
  method Push(h: seq<Entry>, e: Entry) returns (a: seq<Entry>)
    requires Heap(h, |h|)
    ensures |a| == |h| + 1 && Heap(a, |a|)
    ensures multiset(a) == multiset(h) + multiset{e}
  {
    hide Heap, HeapUp;
    a := h + [e];
    var j := |h|;
    ghost var g := a;
    HeapUpStart(h, e);
    while j > 0
      invariant 0 <= j < |a| == |h| + 1
      invariant g == a[j := e] && multiset(g) == multiset(h) + multiset{e}
      invariant HeapUp(g, j)
    {
      var k := (j - 1) / 2;
      var v := a[k];
      if v.key < e.key {
        SwapKeepsMultiset(g, j, k);
        SiftUpStep(g, j, k);
        HoleMoves(a, e, j, k);
        g := g[j := g[k]][k := g[j]];
        a := a[j := v];
        j := k;
      } else {
        break;
      }
    }
    a := a[j := e];
    HeapUpDone(a, j);
  }

  lemma HeapUpStart(h: seq<Entry>, e: Entry)
    requires Heap(h, |h|)
    ensures HeapUp(h + [e], |h|)
  {
  }

  lemma SiftUpStep(g: seq<Entry>, j: nat, k: nat)
    requires 0 < j < |g| && k == Parent(j) && HeapUp(g, j) && g[k].key < g[j].key
    ensures HeapUp(g[j := g[k]][k := g[j]], k)
  {
  }

  lemma HeapUpDone(g: seq<Entry>, j: nat)
    requires j < |g| && HeapUp(g, j) && (j == 0 || g[Parent(j)].key >= g[j].key)
    ensures Heap(g, |g|)
  {
  }

  /** tagheapreplacetopi: the top gives way to a new element, which moves down. */
  method ReplaceTop(h: seq<Entry>, e: Entry) returns (a: seq<Entry>)
    requires h != [] && Heap(h, |h|)
    ensures |a| == |h| && Heap(a, |a|)
    ensures multiset(a) == multiset(h) - multiset{h[0]} + multiset{e}
  {
    hide Heap, HeapDown;
    a := h;
    var n := |h|;
    var j, k1, k2 := 0, 1, 2;
    ghost var g := h[0 := e];
    HeapDownStart(h, e);
    while k1 < n
      invariant 0 <= j < n == |a| && k1 == 2 * j + 1 && k2 == 2 * j + 2
      invariant g == a[j := e] && multiset(g) == multiset(h) - multiset{h[0]} + multiset{e}
      invariant HeapDown(g, j)
      decreases n - j
    {
      var c := k1;
      if k2 >= n {
        if !(a[k1].key > e.key) {
          break;
        }
      } else if a[k1].key > a[k2].key {
        if !(e.key < a[k1].key) {
          break;
        }
      } else {
        c := k2;
        if !(e.key < a[k2].key) {
          break;
        }
      }
      SwapKeepsMultiset(g, j, c);
      SiftDownStep(g, j, c);
      HoleMoves(a, e, j, c);
      g := g[j := g[c]][c := g[j]];
      a := a[j := a[c]];
      j := c;
      k1, k2 := 2 * j + 1, 2 * j + 2;
    }
    HeapDownDone(g, j);
    a := a[j := e];
  }

  lemma HeapDownStart(h: seq<Entry>, e: Entry)
    requires h != [] && Heap(h, |h|)
    ensures HeapDown(h[0 := e], 0)
  {
  }

  /** A heap but for the children of `hole`, which are still at most the parent of `hole`. */
  predicate HeapDown(g: seq<Entry>, hole: nat) {
    && (forall i | 0 < i < |g| && Parent(i) != hole :: g[Parent(i)].key >= g[i].key)
    && (hole > 0 && hole < |g| ==>
          forall i | 0 < i < |g| && Parent(i) == hole :: g[Parent(hole)].key >= g[i].key)
  }

  lemma SiftDownStep(g: seq<Entry>, j: nat, c: nat)
    requires j < c < |g| && Parent(c) == j && HeapDown(g, j) && g[j].key < g[c].key
    requires 2 * j + 1 < |g| ==> g[2 * j + 1].key <= g[c].key
    requires 2 * j + 2 < |g| ==> g[2 * j + 2].key <= g[c].key
    ensures HeapDown(g[j := g[c]][c := g[j]], c)
  {
    hide Parent;
    var h := g[j := g[c]][c := g[j]];
    forall i | 0 < i < |h| ensures if Parent(i) != c then h[Parent(i)].key >= h[i].key else h[j].key >= h[i].key {
      ChildOf(i);
      if Parent(i) == j {
        assert i == c ==> h[i] == g[j];
        assert i != c ==> h[i] == g[i];
      } else if i == j {
        assert g[Parent(j)].key >= g[c].key;
        assert h[Parent(j)] == g[Parent(j)];
      } else {
        assert g[Parent(i)].key >= g[i].key;
        assert h[i] == g[i];
        assert Parent(i) != c ==> h[Parent(i)] == g[Parent(i)];
      }
    }
  }

  lemma ChildOf(i: nat)
    requires 0 < i
    ensures Parent(i) < i && (i == 2 * Parent(i) + 1 || i == 2 * Parent(i) + 2)
  {
  }

  lemma HeapDownDone(g: seq<Entry>, j: nat)
    requires j < |g| && HeapDown(g, j)
    requires 2 * j + 1 < |g| ==> g[2 * j + 1].key <= g[j].key
    requires 2 * j + 2 < |g| ==> g[2 * j + 2].key <= g[j].key
    ensures Heap(g, |g|)
  {
  }

  /** tagheappopi: the top moves to position n - 1, the n - 1 others stay a heap. */
  method Pop(h: seq<Entry>, n: nat) returns (a: seq<Entry>)
    requires 2 <= n <= |h| && Heap(h, n)
    ensures |a| == |h| && Heap(a, n - 1) && a[n - 1] == h[0] && a[n..] == h[n..]
    ensures multiset(a[..n - 1]) + multiset{h[0]} == multiset(h[..n])
  {
    var last := h[n - 1];
    var rest := ReplaceTop(h[..n - 1], last);
    a := rest + [h[0]] + h[n..];
    assert a[..n - 1] == rest;
    assert h[..n] == h[..n - 1] + [last];
  }

  predicate Ascending(s: seq<Entry>) {
    forall i, j | 0 <= i < j < |s| :: s[i].key <= s[j].key
  }

  /** The loop at the end of a query: popping all but one element leaves them in ascending order. */
  method SortHeap(h: seq<Entry>) returns (a: seq<Entry>)
    requires Heap(h, |h|)
    ensures Ascending(a) && multiset(a) == multiset(h) && |a| == |h|
  {
    hide Heap, Ascending;
    a := h;
    var j := |h|;
    assert a[..j] == a && a[j..] == [];
    SortedFrom(a, j);
    while j >= 2
      invariant j <= |a| == |h| && Heap(a, j)
      invariant multiset(a[..j]) + multiset(a[j..]) == multiset(h)
      invariant Ascending(a[j..]) && Below(a, j)
      decreases j
    {
      ghost var b := a;
      a := Pop(a, j);
      PopStep(b, a, j);
      j := j - 1;
    }
    assert a == a[..j] + a[j..];
    LastInPlace(a, j);
  }

  /** Everything before position j is at most everything from j on. */
  predicate Below(a: seq<Entry>, j: nat) {
    forall p, q | 0 <= p < j <= q < |a| :: a[p].key <= a[q].key
  }

  lemma SortedFrom(a: seq<Entry>, j: nat)
    requires j == |a|
    ensures Ascending(a[j..]) && Below(a, j)
  {
  }

  lemma LastInPlace(a: seq<Entry>, j: nat)
    requires j <= 1 && j <= |a| && Ascending(a[j..]) && Below(a, j)
    ensures Ascending(a)
  {
    forall p, q | 0 <= p < q < |a| ensures a[p].key <= a[q].key {
      if p >= j {
        assert a[p] == a[j..][p - j] && a[q] == a[j..][q - j];
      }
    }
  }

  lemma PopStep(b: seq<Entry>, a: seq<Entry>, j: nat)
    requires 2 <= j <= |b| == |a| && Heap(b, j)
    requires a[j - 1] == b[0] && a[j..] == b[j..]
    requires multiset(a[..j - 1]) + multiset{b[0]} == multiset(b[..j])
    requires Ascending(b[j..]) && Below(b, j)
    ensures multiset(a[..j - 1]) + multiset(a[j - 1..]) == multiset(b[..j]) + multiset(b[j..])
    ensures Ascending(a[j - 1..]) && Below(a, j - 1)
  {
    assert a[j - 1..] == [b[0]] + b[j..];
    forall q | j <= q < |a| ensures a[q] == b[q] {
      assert a[q] == a[j..][q - j];
    }
    forall p | 0 <= p < j - 1 ensures exists i :: 0 <= i < j && a[p] == b[i] {
      assert a[..j - 1][p] in multiset(a[..j - 1]);
      assert a[p] in multiset(b[..j]);
      assert a[p] in b[..j];
    }
    forall p, q | 0 <= p < j - 1 <= q < |a| ensures a[p].key <= a[q].key {
      var i :| 0 <= i < j && a[p] == b[i];
      TopIsMax(b, j, i);
    }
  }
}
