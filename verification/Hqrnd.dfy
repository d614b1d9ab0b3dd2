/**
 * The high quality random generator (verus/lib/alglib/src/alglibmisc.cpp): two
 * multiplicative generators, stepped without leaving 32 bits, and integers below n
 * without bias.
 */
module Hqrnds {
  import opened Outcomes
  import opened ModularPowers
  import opened HqrndPeriods

  const MAX: int := 2147483561
  const MAGIC: int := 1634357784

  /** A multiplier a and modulus m with m == a * q + r, and the inverse of a modulo m. */
  datatype Multiplier = Multiplier(a: int, m: int, q: int, r: int, inverse: int, turns: int)

  predicate MultiplierOk(g: Multiplier) {
    && 0 < g.a && 0 < g.q && 0 <= g.r < g.q && g.m == g.a * g.q + g.r && 1 < g.m
    && g.a * g.inverse == 1 + g.turns * g.m
  }

  const FIRST := Multiplier(40014, M1, 53668, 12211, 2082061899, 38795)
  const SECOND := Multiplier(40692, M2, 52774, 3791, 1481316021, 28069)

  lemma MultipliersOk()
    ensures MultiplierOk(FIRST) && MultiplierOk(SECOND)
  {
  }

  predicate Fits32(x: int) {
    -0x8000_0000 <= x < 0x8000_0000
  }

  // ---------------------------------------------------------------- one step

  /** What the code computes: a * (s mod q) - r * (s / q), plus m when that is negative. */
  function Stepped(g: Multiplier, s: int): int
    requires g.q != 0
  {
    var k := s / g.q;
    var x := g.a * (s - k * g.q) - k * g.r;
    if x < 0 then x + g.m else x
  }

  lemma QuotientBound(k: int, a: int, q: int)
    requires 0 < q && k * q < (a + 1) * q
    ensures k <= a
  {
    if k > a {
      Bounded(q, a + 1, k);
    }
  }

  /** The algebra behind the step. */
  lemma SchrageAlgebra(a: int, q: int, r: int, k: int, rem: int)
    ensures a * rem - k * r == a * (k * q + rem) - k * (a * q + r)
  {
    Distribute(a, k * q, rem);
    Distribute(k, a * q, r);
    assert a * (k * q) == k * (a * q);
  }

  lemma SchrageBounds(a: int, q: int, r: int, k: int, rem: int)
    requires 0 < a && 0 < q && 0 <= r < q && 0 <= rem < q && 0 <= k <= a
    ensures 0 <= a * rem <= a * (q - 1) && 0 <= k * r <= a * (q - 1) && a * (q - 1) < a * q
  {
    Bounded(a, rem, q - 1);
    Bounded(a, 0, rem);
    Bounded(r, k, a);
    Bounded(a, r, q - 1);
    Bounded(r, 0, k);
    Distribute(a, q - 1, 1);
    assert r * k == k * r && r * a == a * r;
  }

  lemma SplitSeed(s: int, q: int, a: int, r: int)
    requires 0 < q && 0 <= s < a * q + r && 0 <= r < q && 0 < a
    ensures var k := s / q; s == k * q + s % q && 0 <= s % q < q && 0 <= k <= a
  {
    var k := s / q;
    assert s == k * q + s % q;
    Distribute(q, a, 1);
    assert q * (a + 1) == (a + 1) * q && q * a == a * q;
    QuotientBound(k, a, q);
  }

  /** Each step is a multiplication modulo m, and every intermediate value stays below m in size. */
  lemma Schrage(g: Multiplier, s: int)
    requires MultiplierOk(g) && 0 <= s < g.m
    ensures Stepped(g, s) == (g.a * s) % g.m
    ensures var k := s / g.q;
      && 0 <= k * g.q <= s && 0 <= g.a * (s - k * g.q) < g.m && 0 <= k * g.r < g.m
  {
    var a, q, r, m := g.a, g.q, g.r, g.m;
    var k, rem := s / q, s % q;
    SplitSeed(s, q, a, r);
    SchrageBounds(a, q, r, k, rem);
    SchrageAlgebra(a, q, r, k, rem);
    assert s - k * q == rem;
    Bounded(q, 0, k);
    assert q * k == k * q;
    var x := a * rem - k * r;
    assert x == a * s - k * m;
    if x >= 0 {
      MulMod(a * s, k, m);
    } else {
      Distribute(m, k - 1, 1);
      assert m * (k - 1) == (k - 1) * m && m * k == k * m;
      MulMod(a * s, k - 1, m);
    }
  }

  /** The multiplier is invertible, so a seed never becomes zero. */
  lemma NeverZero(g: Multiplier, s: int)
    requires MultiplierOk(g) && 0 < s < g.m
    ensures (g.a * s) % g.m != 0
  {
    Invertible(g.a, g.inverse, g.turns, g.m, s);
  }

  // ---------------------------------------------------------------- the generator

  datatype Seeds = Seeds(s1: int, s2: int)

  predicate SeedsOk(s: Seeds) {
    1 <= s.s1 < M1 && 1 <= s.s2 < M2
  }

  /** Both seeds are multiplied by their constants. */
  function Next(s: Seeds): (r: Seeds) {
    Seeds((FIRST.a * s.s1) % M1, (SECOND.a * s.s2) % M2)
  }

  function Output(s: Seeds): int {
    var d := s.s1 - s.s2;
    (if d < 1 then d + M1 - 1 else d) - 1
  }

  /** The output is the difference of the seeds, less one, modulo the number of base values. */
  lemma OutputIs(s: Seeds)
    requires SeedsOk(s)
    ensures 0 <= Output(s) <= MAX && (Output(s) + 1) % 2147483562 == (s.s1 - s.s2) % 2147483562
  {
    var d := s.s1 - s.s2;
    MulMod(d, if d < 0 then -1 else 0, 2147483562);
    MulMod(Output(s) + 1, if Output(s) == MAX then 1 else 0, 2147483562);
  }

  lemma NextOk(s: Seeds)
    requires SeedsOk(s)
    ensures SeedsOk(Next(s)) && 0 <= Output(Next(s)) <= MAX
  {
    MultipliersOk();
    NeverZero(FIRST, s.s1);
    NeverZero(SECOND, s.s2);
  }

  function After(s: Seeds, n: nat): Seeds {
    if n == 0 then s else Next(After(s, n - 1))
  }

  /** After any number of steps the seeds are the first ones times a power, and in range. */
  lemma {:induction false} AfterSteps(s: Seeds, n: nat)
    requires SeedsOk(s)
    ensures SeedsOk(After(s, n))
    ensures After(s, n).s1 == (Power(FIRST.a, n) * s.s1) % M1
    ensures After(s, n).s2 == (Power(SECOND.a, n) * s.s2) % M2
  {
    hide SeedsOk;
    if n == 0 {
      SeedsReduced(s);
    } else {
      AfterSteps(s, n - 1);
      NextOk(After(s, n - 1));
      ModMul(FIRST.a, Power(FIRST.a, n - 1) * s.s1, M1);
      ModMul(SECOND.a, Power(SECOND.a, n - 1) * s.s2, M2);
      Associate(FIRST.a, Power(FIRST.a, n - 1), s.s1);
      Associate(SECOND.a, Power(SECOND.a, n - 1), s.s2);
    }
  }

  lemma SeedsReduced(s: Seeds)
    requires SeedsOk(s)
    ensures s.s1 == (1 * s.s1) % M1 && s.s2 == (1 * s.s2) % M2
  {
  }

  // ---------------------------------------------------------------- integers below n

  const COUNT: int := MAX + 1

  /** Base values below this bound are accepted. */
  function Bound(n: int): int
    requires 0 < n
  {
    COUNT - COUNT % n
  }

  /** How many values below k leave the remainder r. */
  function Preimages(n: int, r: int, k: nat): nat
    requires 0 < n
  {
    if k == 0 then 0 else Preimages(n, r, k - 1) + if (k - 1) % n == r then 1 else 0
  }

  lemma {:induction false} PreimagesInTurn(n: int, r: int, base: nat, j: nat)
    requires 0 <= r < n && base % n == 0 && j <= n
    ensures Preimages(n, r, base + j) == Preimages(n, r, base) + if r < j then 1 else 0
  {
    if j > 0 {
      PreimagesInTurn(n, r, base, j - 1);
      var q := base / n;
      assert base == q * n;
      MulMod(base + j - 1, q, n);
    }
  }

  /** Every remainder is left equally often by the values below a multiple of n. */
  lemma {:induction false} EqualPreimages(n: int, r: int, q: nat)
    requires 0 <= r < n
    ensures 0 <= q * n && Preimages(n, r, q * n) == q
  {
    hide Preimages;
    if q == 0 {
      NoPreimages(n, r);
    } else {
      EqualPreimages(n, r, q - 1);
      Distribute(n, q - 1, 1);
      assert n * (q - 1) == (q - 1) * n && n * q == q * n;
      MulMod((q - 1) * n, q - 1, n);
      PreimagesInTurn(n, r, (q - 1) * n, n);
    }
  }

  lemma NoPreimages(n: int, r: int)
    requires 0 < n
    ensures Preimages(n, r, 0) == 0
  {
  }

  lemma QuotientPositive(c: int, n: int)
    requires 0 < n <= c
    ensures c / n >= 1
  {
    if c / n <= 0 {
      Bounded(n, c / n, 0);
    }
  }

  /** Without bias: every result below n has the same number of accepted base values. */
  lemma NoBias(n: int, r: int)
    requires 0 <= r < n <= COUNT
    ensures 0 < Bound(n) <= COUNT && Preimages(n, r, Bound(n)) == COUNT / n
  {
    var q := COUNT / n;
    assert COUNT == q * n + COUNT % n;
    EqualPreimages(n, r, q);
    QuotientPositive(COUNT, n);
  }

  // ---------------------------------------------------------------- powers

  /** The steps after which both seeds are negated. */
  const OPPOSITE: nat := HALF1 * HALF2

  lemma OppositePowers()
    ensures Leaves(40014, OPPOSITE, M1 - 1, M1) && Leaves(40692, OPPOSITE, M2 - 1, M2)
  {
    hide Leaves;
    FirstHalfPower();
    SecondHalfPower();
    Alternates(40014, HALF1, HALF2, M1);
    Alternates(40692, HALF2, HALF1, M2);
  }

  lemma Negated(x: int, m: int)
    requires 0 < x < m
    ensures ((m - 1) * x) % m == m - x
  {
    assert (m - 1) * x == (x - 1) * m + (m - x);
    MulMod((m - 1) * x, x - 1, m);
  }

  lemma Opposite(s: Seeds)
    requires SeedsOk(s)
    ensures After(s, OPPOSITE) == Seeds(M1 - s.s1, M2 - s.s2)
  {
    hide Leaves, Power, After;
    OppositePowers();
    AfterSteps(s, OPPOSITE);
    LeavesTimes(40014, OPPOSITE, M1 - 1, M1, s.s1);
    LeavesTimes(40692, OPPOSITE, M2 - 1, M2, s.s2);
    Negated(s.s1, M1);
    Negated(s.s2, M2);
  }

  lemma {:induction false} AfterAfter(s: Seeds, k: nat, n: nat)
    ensures After(After(s, k), n) == After(s, k + n)
  {
    hide Next;
    if n > 0 {
      AfterAfter(s, k, n - 1);
    }
  }

  // A multiple of HALF1 that leaves the remainder 1 modulo HALF2.
  const ALIGN: nat := 720192603

  /** Steps that keep the first seed and do to the second what an even number d of steps does. */
  lemma Aligned(d: nat, r: int) returns (e: nat)
    requires d % 2 == 0 && Leaves(40692, d, r, M2)
    ensures Leaves(40014, e, 1, M1) && Leaves(40692, e, r, M2)
  {
    hide Leaves;
    var h := d / 2;
    e := 2 * HALF1 * (ALIGN * h);
    FirstWholePower();
    OneMany(40014, 2 * HALF1, ALIGN * h, M1);
    SecondWholePower();
    OneMany(40692, 2 * HALF2, 720192658 * h, M2);
    LeavesPast(40692, 2 * HALF2 * (720192658 * h), d, r, M2);
  }

  lemma StepsTo(s: Seeds, i: nat, r1: int, r2: int)
    requires SeedsOk(s) && Leaves(40014, i, r1, M1) && Leaves(40692, i, r2, M2)
    ensures After(s, i) == Seeds((r1 * s.s1) % M1, (r2 * s.s2) % M2)
  {
    hide Leaves, Power, After;
    AfterSteps(s, i);
    LeavesTimes(40014, i, r1, M1, s.s1);
    LeavesTimes(40692, i, r2, M2, s.s2);
  }

  /** With the first seed kept, the second is taken to y or to its negative. */
  lemma SecondReaches(s: Seeds, y: int) returns (e: nat)
    requires SeedsOk(s) && 0 < y < M2
    ensures After(s, e) == Seeds(s.s1, y) || After(s, e) == Seeds(s.s1, M2 - y)
  {
    hide Leaves, Power, After;
    SecondGenerates();
    var d := Takes(40692, M2, s.s2, y);
    var r := Power(40692, d) % M2;
    PowerLeaves(40692, d, M2);
    LeavesTimes(40692, d, r, M2, s.s2);
    MulMod(1 * s.s1, 0, M1);
    if d % 2 == 0 {
      e := Aligned(d, r);
      StepsTo(s, e, 1, r);
    } else {
      SecondHalfPower();
      LeavesProduct(40692, d, r, HALF2, M2 - 1, M2);
      var n := (r * (M2 - 1)) % M2;
      e := Aligned(d + HALF2, n);
      StepsTo(s, e, 1, n);
      NegatedTimes(r, s.s2, y, M2);
    }
  }

  lemma PowerLeaves(a: int, k: nat, m: int)
    requires 0 < m
    ensures Leaves(a, k, Power(a, k) % m, m)
  {
  }

  lemma NegatedTimes(r: int, x: int, y: int, m: int)
    requires 0 < y < m && (r * x) % m == y
    ensures (((r * (m - 1)) % m) * x) % m == m - y
  {
    ModMul(x, r * (m - 1), m);
    assert x * ((r * (m - 1)) % m) == ((r * (m - 1)) % m) * x;
    assert x * (r * (m - 1)) == (m - 1) * (r * x);
    ModMul(m - 1, r * x, m);
    Negated(y, m);
  }

  /** From any seeds, every first seed comes together with every second seed or its negative. */
  lemma Reaches(s: Seeds, x: int, y: int) returns (k: nat)
    requires SeedsOk(s) && 0 < x < M1 && 0 < y < M2
    ensures After(s, k) == Seeds(x, y) || After(s, k) == Seeds(x, M2 - y)
  {
    hide Leaves, Power, After;
    FirstGenerates();
    var i := Takes(40014, M1, s.s1, x);
    AfterSteps(s, i);
    var e := SecondReaches(After(s, i), y);
    AfterAfter(s, i, e);
    k := i + e;
  }

  lemma Bridge()
    ensures After(Seeds(12657, M2 - 12656), 148118) == Seeds(698921787, 698921786)
  {
    hide After, Leaves;
    FirstBridge();
    SecondBridge();
    StepsTo(Seeds(12657, M2 - 12656), 148118, 1169235060, 1154794018);
    MulMod(1169235060 * 12657, 6891, M1);
    MulMod(1154794018 * (M2 - 12656), 1154787212, M2);
  }

  /** From any seeds, the base value 0 comes. */
  lemma ZeroComes(s: Seeds) returns (k: nat)
    requires SeedsOk(s)
    ensures 1 <= k && Output(After(s, k)) == 0
  {
    hide After, Leaves;
    NextOk(s);
    var j := Reaches(Next(s), 12657, 12656);
    assert After(s, 1) == Next(s) by { FirstStep(s); }
    AfterAfter(s, 1, j);
    k := 1 + j;
    if After(s, k) != Seeds(12657, 12656) {
      Bridge();
      AfterAfter(s, k, 148118);
      k := k + 148118;
    }
  }

  lemma FirstStep(s: Seeds)
    ensures After(s, 1) == Next(s)
  {
    assert After(s, 0) == s;
  }

  predicate Rejected(s: Seeds, n: int, i: nat)
    requires 0 < n
  {
    Output(After(s, i)) >= Bound(n)
  }

  lemma BoundPositive(n: int)
    requires 0 < n <= COUNT
    ensures 0 < Bound(n) <= COUNT
  {
  }

  /** From any seeds some base value is accepted: the drawing always ends. */
  lemma DrawEnds(s: Seeds, n: int) returns (k: nat)
    requires SeedsOk(s) && 0 < n <= COUNT
    ensures 1 <= k && !Rejected(s, n, k)
  {
    hide After, Output, Bound;
    BoundPositive(n);
    k := ZeroComes(s);
  }

  /** For larger n, an offset and a bin; they are drawn again when they lie past n. */
  predicate PairAccepted(n: int, a: int, b: int) {
    !(b == n / COUNT && a >= n % COUNT)
  }

  /** The bins of COUNT values that the numbers below n take up. */
  function Bins(n: int): int {
    if n % COUNT == 0 then n / COUNT else n / COUNT + 1
  }

  /** Every result below n comes from exactly one accepted pair, and every accepted pair gives such a result. */
  lemma OnePair(n: int, x: int, a: int, b: int)
    requires COUNT < n && 0 <= x < n && 0 <= a < COUNT && 0 <= b < Bins(n)
    ensures a + COUNT * b == x <==> a == x % COUNT && b == x / COUNT
    ensures 0 <= x / COUNT < Bins(n) && PairAccepted(n, x % COUNT, x / COUNT)
    ensures PairAccepted(n, a, b) <==> 0 <= a + COUNT * b < n
  {
    assert x == (x / COUNT) * COUNT + x % COUNT;
    assert n == (n / COUNT) * COUNT + n % COUNT;
    if a + COUNT * b == x {
      Euclid(a, b, x % COUNT, x / COUNT, COUNT);
    }
  }

  /** The first base value that is not rejected comes after k steps. */
  predicate IsFirst(s: Seeds, n: int, k: nat)
    requires 0 < n
  {
    1 <= k && !Rejected(s, n, k) && forall i: nat | 1 <= i < k :: Rejected(s, n, i)
  }

  lemma FirstExists(s: Seeds, n: int)
    requires SeedsOk(s) && 0 < n <= COUNT
    ensures exists k: nat :: IsFirst(s, n, k)
  {
    hide Rejected;
    var k := DrawEnds(s, n);
    var i: nat := 1;
    while Rejected(s, n, i)
      invariant 1 <= i <= k && forall j: nat | 1 <= j < i :: Rejected(s, n, j)
      decreases k - i
    {
      i := i + 1;
    }
    assert IsFirst(s, n, i);
  }

  ghost function Steps(s: Seeds, n: int): (k: nat)
    requires SeedsOk(s) && 0 < n <= COUNT
    ensures IsFirst(s, n, k)
  {
    FirstExists(s, n);
    var k: nat :| IsFirst(s, n, k);
    k
  }

  /** The seeds once a base value was accepted, and the number below n that it gives. */
  ghost function Draw(s: Seeds, n: int): (r: (Seeds, int))
    requires SeedsOk(s) && 0 < n <= COUNT
    ensures SeedsOk(r.0) && 0 <= r.1 < n
  {
    var t := After(s, Steps(s, n));
    AfterSteps(s, Steps(s, n));
    (t, Output(t) % n)
  }

  /** There is only one first base value not rejected, and it is the one drawn. */
  lemma DrawTakesFirst(s: Seeds, n: int, k: nat)
    requires SeedsOk(s) && 0 < n <= COUNT && IsFirst(s, n, k)
    ensures Draw(s, n) == (After(s, k), Output(After(s, k)) % n)
  {
    hide Rejected, After, Output;
    assert IsFirst(s, n, Steps(s, n));
    assert Steps(s, n) == k;
  }

  predicate TooLarge(n: int) {
    COUNT < n && Bins(n) > COUNT
  }

  /** An offset, then a bin. */
  ghost function Pair(s: Seeds, n: int): (r: (Seeds, int, int))
    requires SeedsOk(s) && COUNT < n && !TooLarge(n)
    ensures SeedsOk(r.0) && 0 <= r.1 < COUNT && 0 <= r.2 < Bins(n)
  {
    var (t, a) := Draw(s, COUNT);
    var (u, b) := Draw(t, Bins(n));
    (u, a, b)
  }

  /** The next base value 0 comes after k steps. */
  predicate IsZeroIn(s: Seeds, k: nat) {
    1 <= k && Output(After(s, k)) == 0 && forall i: nat | 1 <= i < k :: Output(After(s, i)) != 0
  }

  lemma ZeroExists(s: Seeds)
    requires SeedsOk(s)
    ensures exists k: nat :: IsZeroIn(s, k)
  {
    hide After, Output;
    var k := ZeroComes(s);
    var i: nat := 1;
    while Output(After(s, i)) != 0
      invariant 1 <= i <= k && forall j: nat | 1 <= j < i :: Output(After(s, j)) != 0
      decreases k - i
    {
      i := i + 1;
    }
    assert IsZeroIn(s, i);
  }

  ghost function ZeroIn(s: Seeds): (k: nat)
    requires SeedsOk(s)
    ensures IsZeroIn(s, k)
  {
    ZeroExists(s);
    var k: nat :| IsZeroIn(s, k);
    k
  }

  /** A draw that does not give 0 has not passed the next base value 0. */
  lemma DrawNearsZero(s: Seeds, n: int)
    requires SeedsOk(s) && 0 < n <= COUNT && Draw(s, n).1 != 0
    ensures ZeroIn(Draw(s, n).0) < ZeroIn(s)
  {
    hide After, Output, Bound;
    BoundPositive(n);
    var k, z := Steps(s, n), ZeroIn(s);
    assert IsFirst(s, n, k);
    assert !Rejected(s, n, z);
    assert k != z by {
      MulMod(0, 0, n);
    }
    AfterSteps(s, k);
    var t := After(s, k);
    AfterAfter(s, k, z - k);
    assert Output(After(t, z - k)) == 0;
  }

  /** So does a pair that is drawn again. */
  lemma PairNearsZero(s: Seeds, n: int)
    requires SeedsOk(s) && COUNT < n && !TooLarge(n) && n % COUNT != 0
    requires !PairAccepted(n, Pair(s, n).1, Pair(s, n).2)
    ensures ZeroIn(Pair(s, n).0) < ZeroIn(s)
  {
    hide SeedsOk, Draw, ZeroIn;
    var (t, a) := Draw(s, COUNT);
    DrawNearsZero(s, COUNT);
    DrawNearsZero(t, Bins(n));
  }

  /** Pairs drawn again while they lie past n; an end comes with the next base value 0. */
  ghost function DrawPair(s: Seeds, n: int): (r: (Seeds, int))
    requires SeedsOk(s) && COUNT < n && !TooLarge(n) && n % COUNT != 0
    ensures SeedsOk(r.0) && 0 <= r.1 < n
    decreases ZeroIn(s)
  {
    var (t, a, b) := Pair(s, n);
    OnePair(n, 0, a, b);
    if PairAccepted(n, a, b) then (t, a + COUNT * b)
    else
      PairNearsZero(s, n);
      DrawPair(t, n)
  }

  ghost function Uniform(s: Seeds, n: int): Outcome<(Seeds, int)>
    requires SeedsOk(s)
  {
    if n <= 0 || TooLarge(n) then AssertFailed
    else if n <= COUNT then Ok(Draw(s, n))
    else if n % COUNT == 0 then
      var (t, a, b) := Pair(s, n);
      Ok((t, a + COUNT * b))
    else Ok(DrawPair(s, n))
  }

  /** A number in [0, n) comes back, from any seeds. */
  lemma UniformInRange(s: Seeds, n: int)
    requires SeedsOk(s)
    ensures Uniform(s, n).Ok? <==> 0 < n && !TooLarge(n)
    ensures Uniform(s, n).Ok? ==> SeedsOk(Uniform(s, n).value.0) && 0 <= Uniform(s, n).value.1 < n
  {
    hide SeedsOk, Draw, Pair, DrawPair;
    if COUNT < n && !TooLarge(n) {
      var (t, a, b) := Pair(s, n);
      OnePair(n, 0, a, b);
    }
  }

  class HqrndState {
    var s1: int
    var s2: int
    var magic: int

    ghost function Value(): Seeds
      reads this
    {
      Seeds(s1, s2)
    }

    ghost predicate Valid()
      reads this
    {
      SeedsOk(Value()) && magic == MAGIC
    }

    /** Any seeds, negative ones included, are brought into range. */
    constructor (seed1: int, seed2: int)
      ensures Valid()
      ensures s1 == (if seed1 < 0 then -(seed1 + 1) else seed1) % (M1 - 1) + 1
      ensures s2 == (if seed2 < 0 then -(seed2 + 1) else seed2) % (M2 - 1) + 1
    {
      var a := if seed1 < 0 then -(seed1 + 1) else seed1;
      var b := if seed2 < 0 then -(seed2 + 1) else seed2;
      s1 := a % (M1 - 1) + 1;
      s2 := b % (M2 - 1) + 1;
      magic := MAGIC;
    }

    /** One step; every intermediate value fits 32 bits. */
    method IntegerBase() returns (result: int)
      requires Valid()
      modifies this`s1, this`s2
      ensures Valid() && Value() == Next(old(Value()))
      ensures result == Output(Value()) && 0 <= result <= MAX
      ensures (result + 1) % 2147483562 == (s1 - s2) % 2147483562
    {
      MultipliersOk();
      NextOk(Value());
      OutputIs(Next(Value()));
      Schrage(FIRST, s1);
      Schrage(SECOND, s2);
      var k := s1 / 53668;
      assert Fits32(k * 53668) && Fits32(40014 * (s1 - k * 53668)) && Fits32(k * 12211);
      s1 := 40014 * (s1 - k * 53668) - k * 12211;
      assert Fits32(s1);
      if s1 < 0 {
        s1 := s1 + 2147483563;
      }
      k := s2 / 52774;
      assert Fits32(k * 52774) && Fits32(40692 * (s2 - k * 52774)) && Fits32(k * 3791);
      s2 := 40692 * (s2 - k * 52774) - k * 3791;
      assert Fits32(s2);
      if s2 < 0 {
        s2 := s2 + 2147483399;
      }
      result := s1 - s2;
      if result < 1 {
        result := result + 2147483562;
      }
      result := result - 1;
    }

    /** Base values are drawn until one is accepted, which always happens. */
    method UniformSmall(n: int) returns (result: int)
      requires Valid() && 0 < n <= COUNT
      modifies this`s1, this`s2
      ensures Valid()
      ensures (Value(), result) == Draw(old(Value()), n)
    {
      hide Output, Next, SeedsOk, Draw;
      var mx := COUNT - COUNT % n;
      ghost var s := Value();
      ghost var k := DrawEnds(s, n);
      ghost var i: nat := 0;
      while true
        invariant Valid() && i < k && Value() == After(s, i)
        invariant forall j: nat | 1 <= j <= i :: Rejected(s, n, j)
        decreases k - i
      {
        result := IntegerBase();
        i := i + 1;
        if result < mx {
          assert IsFirst(s, n, i);
          DrawTakesFirst(s, n, i);
          return result % n;
        }
        assert Rejected(s, n, i);
      }
    }

    /** For n beyond the base values, an offset and a bin are drawn, again if need be; both assertions on n are
        reported. */
    method UniformInteger(n: int) returns (r: Outcome<int>)
      requires Valid()
      modifies this`s1, this`s2
      ensures Valid()
      ensures r.Ok? <==> Uniform(old(Value()), n).Ok?
      ensures r.Ok? ==> Uniform(old(Value()), n) == Ok((Value(), r.value)) && 0 <= r.value < n
    {
      hide SeedsOk, Draw, ZeroIn;
      UniformInRange(Value(), n);
      if n <= 0 || TooLarge(n) {
        return AssertFailed;
      }
      if n <= COUNT {
        var small := UniformSmall(n);
        return Ok(small);
      }
      if n % COUNT == 0 {
        var a := UniformSmall(COUNT);
        var b := UniformSmall(n / COUNT);
        return Ok(a + COUNT * b);
      }
      while true
        invariant Valid() && DrawPair(Value(), n) == DrawPair(old(Value()), n)
        decreases ZeroIn(Value())
      {
        ghost var s := Value();
        var a := UniformSmall(COUNT);
        var b := UniformSmall(n / COUNT + 1);
        assert Pair(s, n) == (Value(), a, b);
        if !(b == n / COUNT && a >= n % COUNT) {
          return Ok(a + COUNT * b);
        }
        PairNearsZero(s, n);
      }
    }
  }
}
