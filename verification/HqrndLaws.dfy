/** Which number hqrnduniformi returns (alglibmisc.cpp), said of the base values drawn, and that none is preferred. */
module HqrndLaws {
  import opened Outcomes
  import opened Hqrnds

  /** The base value after k steps. */
  function Base(s: Seeds, k: nat): int {
    Output(After(s, k))
  }

  /** The largest multiple of n that the number of base values reaches: the base values below it are accepted. */
  function Limit(n: int): int
    requires 0 < n
  {
    COUNT - COUNT % n
  }

  /** The first base value accepted comes after k steps. */
  predicate FirstAccepted(s: Seeds, n: int, k: nat)
    requires 0 < n
  {
    1 <= k && Base(s, k) < Limit(n) && forall j: nat | 1 <= j < k :: Base(s, j) >= Limit(n)
  }

  /** For n up to the number of base values: the first accepted base value modulo n is returned, and the seeds are those
      after it. */
  lemma SmallIs(s: Seeds, n: int) returns (k: nat)
    requires SeedsOk(s) && 0 < n <= COUNT
    ensures FirstAccepted(s, n, k)
    ensures Uniform(s, n) == Ok((After(s, k), Base(s, k) % n))
  {
    hide SeedsOk, Draw, After, Output;
    k := Steps(s, n);
    assert IsFirst(s, n, k);
    DrawTakesFirst(s, n, k);
    assert Rejected(s, n, k) <==> Base(s, k) >= Limit(n);
    forall j: nat | 1 <= j < k
      ensures Base(s, j) >= Limit(n)
    {
      assert Rejected(s, n, j);
    }
  }

  // ---------------------------------------------------------------- larger n

  /** The bins of COUNT numbers that n takes up, the last one perhaps in part. */
  function BinCount(n: int): int {
    (n + COUNT - 1) / COUNT
  }

  lemma BinCountIs(n: int)
    requires COUNT < n
    ensures BinCount(n) == Bins(n) && 0 < BinCount(n)
    ensures BinCount(n) <= COUNT <==> n <= COUNT * COUNT
  {
  }

  /** Exactly for numbers from 1 to the square of the number of base values something is returned. */
  lemma ReturnsIff(s: Seeds, n: int)
    requires SeedsOk(s)
    ensures Uniform(s, n).Ok? <==> 0 < n <= COUNT * COUNT
    ensures Uniform(s, n).Ok? ==> SeedsOk(Uniform(s, n).value.0) && 0 <= Uniform(s, n).value.1 < n
  {
    hide SeedsOk, Uniform;
    UniformInRange(s, n);
    if n > COUNT {
      BinCountIs(n);
    }
  }

  /** One round for a larger n: a number below COUNT is drawn as the offset, then one below the number of bins. */
  ghost function Round(s: Seeds, n: int): (r: (Seeds, int, int))
    requires SeedsOk(s) && COUNT < n <= COUNT * COUNT
    ensures SeedsOk(r.0) && 0 <= r.1 < COUNT && 0 <= r.2 < BinCount(n)
  {
    ReturnsIff(s, COUNT);
    var (t, offset) := Uniform(s, COUNT).value;
    BinCountIs(n);
    ReturnsIff(t, BinCount(n));
    var (u, bin) := Uniform(t, BinCount(n)).value;
    (u, offset, bin)
  }

  function Number(offset: int, bin: int): int {
    offset + COUNT * bin
  }

  /** The number of a round. */
  ghost function Drawn(s: Seeds, n: int): int
    requires SeedsOk(s) && COUNT < n <= COUNT * COUNT
  {
    Number(Round(s, n).1, Round(s, n).2)
  }

  /** The seeds before each of some rounds: every number drawn but the last is too large. */
  ghost predicate Rounds(seeds: seq<Seeds>, n: int)
    requires COUNT < n <= COUNT * COUNT
  {
    && seeds != [] && SeedsOk(seeds[0])
    && if |seeds| == 1 then Drawn(seeds[0], n) < n
       else Drawn(seeds[0], n) >= n && seeds[1] == Round(seeds[0], n).0 && Rounds(seeds[1..], n)
  }

  lemma RoundIsPair(s: Seeds, n: int)
    requires SeedsOk(s) && COUNT < n <= COUNT * COUNT
    ensures !TooLarge(n) && Round(s, n) == Pair(s, n)
    ensures PairAccepted(n, Round(s, n).1, Round(s, n).2) <==> Number(Round(s, n).1, Round(s, n).2) < n
  {
    hide SeedsOk, Draw;
    BinCountIs(n);
    var (_, offset, bin) := Round(s, n);
    OnePair(n, 0, offset, bin);
  }

  /** A round is the last if its number lies below n; else the drawing goes on from the seeds it leaves. */
  lemma UniformGoesOn(s: Seeds, n: int)
    requires SeedsOk(s) && COUNT < n <= COUNT * COUNT
    ensures Uniform(s, n)
         == if Drawn(s, n) < n then Ok((Round(s, n).0, Drawn(s, n))) else Uniform(Round(s, n).0, n)
    ensures Drawn(s, n) >= n ==> ZeroIn(Round(s, n).0) < ZeroIn(s)
  {
    hide SeedsOk, Draw, ZeroIn, Round, PairAccepted, DrawPair;
    RoundIsPair(s, n);
    var (next, offset, bin) := Round(s, n);
    if n % COUNT == 0 {
      FullBins(n, offset, bin);
    } else {
      PairGoesOn(s, n);
      if Drawn(s, n) >= n {
        PairNearsZero(s, n);
      }
    }
  }

  lemma PairGoesOn(s: Seeds, n: int)
    requires SeedsOk(s) && COUNT < n && !TooLarge(n) && n % COUNT != 0
    ensures var (t, a, b) := Pair(s, n);
      DrawPair(s, n) == if PairAccepted(n, a, b) then (t, a + COUNT * b) else DrawPair(t, n)
  {
    hide SeedsOk, Pair, PairAccepted;
  }

  /** For a larger n: rounds are drawn until the number lies below n, and that is returned. */
  lemma {:induction false} LargeIs(s: Seeds, n: int) returns (seeds: seq<Seeds>)
    requires SeedsOk(s) && COUNT < n <= COUNT * COUNT
    ensures Rounds(seeds, n) && seeds[0] == s
    ensures var last := seeds[|seeds| - 1];
      SeedsOk(last) && Drawn(last, n) < n && Uniform(s, n) == Ok((Round(last, n).0, Drawn(last, n)))
    decreases ZeroIn(s)
  {
    hide SeedsOk, ZeroIn, Round, Drawn, Uniform;
    UniformGoesOn(s, n);
    if Drawn(s, n) < n {
      seeds := [s];
    } else {
      var rest := LargeIs(Round(s, n).0, n);
      seeds := [s] + rest;
      assert seeds[1..] == rest && seeds[|seeds| - 1] == rest[|rest| - 1];
    }
  }

  lemma FullBins(n: int, offset: int, bin: int)
    requires COUNT < n && n % COUNT == 0 && 0 <= offset < COUNT && 0 <= bin < BinCount(n)
    ensures Number(offset, bin) < n
  {
    assert n == COUNT * (n / COUNT);
  }

  // ---------------------------------------------------------------- no number is preferred

  /** The accepted base values that make it return r. */
  function Making(n: int, r: int): set<int>
    requires 0 < n
  {
    set v: int | 0 <= v < Limit(n) && v % n == r
  }

  lemma {:induction false} CountPreimages(n: int, r: int, k: nat)
    requires 0 < n
    ensures |set v: int | 0 <= v < k && v % n == r| == Preimages(n, r, k)
  {
    var below := set v: int | 0 <= v < k && v % n == r;
    if k > 0 {
      CountPreimages(n, r, k - 1);
      var fewer := set v: int | 0 <= v < k - 1 && v % n == r;
      assert below == if (k - 1) % n == r then fewer + {k - 1} else fewer;
    } else {
      assert below == {};
    }
  }

  /** For n up to the number of base values every result has the same number of accepted base values, and whatever the
      seeds, the result is r exactly when the accepted value drawn is one of those of r. */
  lemma SmallUnbiased(s: Seeds, n: int, r: int) returns (k: nat)
    requires SeedsOk(s) && 0 <= r < n <= COUNT
    ensures |Making(n, r)| == COUNT / n
    ensures FirstAccepted(s, n, k) && Uniform(s, n).Ok?
    ensures Uniform(s, n).value.1 == r <==> Base(s, k) in Making(n, r)
  {
    hide SeedsOk, Uniform, After, Output;
    NoBias(n, r);
    CountPreimages(n, r, Limit(n));
    k := SmallIs(s, n);
    BaseIsNat(s, k);
  }

  lemma BaseIsNat(s: Seeds, k: nat)
    requires SeedsOk(s) && 1 <= k
    ensures 0 <= Base(s, k) <= MAX
  {
    hide SeedsOk, Next, Output;
    AfterSteps(s, k - 1);
    NextOk(After(s, k - 1));
    AfterAfter(s, k - 1, 1);
    assert After(After(s, k - 1), 1) == Next(After(After(s, k - 1), 0));
  }

  /** For a larger n every result has exactly one accepted pair: it is returned exactly when the offset and the bin of
      the round that ends the drawing are its remainder and its quotient. */
  lemma LargeUnbiased(s: Seeds, n: int, x: int) returns (seeds: seq<Seeds>)
    requires SeedsOk(s) && COUNT < n <= COUNT * COUNT && 0 <= x < n
    ensures Rounds(seeds, n) && seeds[0] == s && Uniform(s, n).Ok? && SeedsOk(seeds[|seeds| - 1])
    ensures var (_, offset, bin) := Round(seeds[|seeds| - 1], n);
      Uniform(s, n).value.1 == x <==> offset == x % COUNT && bin == x / COUNT
    ensures 0 <= x / COUNT < BinCount(n) && Number(x % COUNT, x / COUNT) == x
  {
    hide SeedsOk, Uniform, Round;
    seeds := LargeIs(s, n);
    var (_, offset, bin) := Round(seeds[|seeds| - 1], n);
    BinCountIs(n);
    OnePair(n, x, offset, bin);
  }
}
