/** Powers modulo m: repeated squaring, exponents whose power is 1, and numbers whose powers are all remainders. */
module ModularPowers {
  lemma MulMod(x: int, k: int, m: int)
    requires 0 < m && 0 <= x - k * m < m
    ensures x % m == x - k * m
  {
    Euclid(x % m, x / m, x - k * m, k, m);
  }

  /** Quotient and remainder are unique. */
  lemma Euclid(r1: int, q1: int, r2: int, q2: int, m: int)
    requires 0 <= r1 < m && 0 <= r2 < m && q1 * m + r1 == q2 * m + r2
    ensures r1 == r2 && q1 == q2
  {
    if q1 < q2 {
      Grows(q1, q2, m);
    } else if q2 < q1 {
      Grows(q2, q1, m);
    }
  }

  lemma Grows(a: int, b: int, m: int)
    requires a < b && 0 < m
    ensures a * m + m <= b * m
  {
    var k := b - a - 1;
    NotNegative(k, m);
    assert (a + 1 + k) * m == a * m + m + k * m;
  }

  lemma {:induction false} NotNegative(k: nat, m: nat)
    ensures 0 <= k * m
  {
    if k > 0 {
      NotNegative(k - 1, m);
      assert k * m == (k - 1) * m + m;
    }
  }

  lemma Bounded(a: int, x: int, y: int)
    requires 0 <= a && x <= y
    ensures a * x <= a * y
  {
    assert a * (y - x) >= 0;
  }

  lemma Distribute(a: int, x: int, y: int)
    ensures a * (x + y) == a * x + a * y
  {
  }

  /** A factor with an inverse takes nothing but multiples to multiples. */
  lemma Invertible(a: int, inverse: int, turns: int, m: int, s: int)
    requires 0 < s < m && a * inverse == 1 + turns * m
    ensures (a * s) % m != 0
  {
    if (a * s) % m == 0 {
      var k := (a * s) / m;
      assert a * s == k * m;
      var t := inverse * k - s * turns;
      assert s == t * m by {
        calc {
          t * m;
          inverse * (k * m) - s * (turns * m);
          inverse * (a * s) - s * (a * inverse - 1);
          { assert inverse * (a * s) == s * (a * inverse); }
          s;
        }
      }
      NotAMultiple(s, t, m);
    }
  }

  lemma NotAMultiple(s: int, t: int, m: int)
    requires 0 < s < m
    ensures s != t * m
  {
    if t <= 0 {
      Bounded(m, t, 0);
    } else {
      Bounded(m, 1, t);
    }
    assert m * t == t * m;
  }

  function Power(a: int, n: nat): int {
    if n == 0 then 1 else a * Power(a, n - 1)
  }

  lemma ModMul(a: int, x: int, m: int)
    requires 0 < m
    ensures (a * (x % m)) % m == (a * x) % m
  {
    var k := x / m;
    var y := a * (x % m);
    assert x == k * m + x % m;
    Distribute(a, k * m, x % m);
    assert a * (k * m) == (a * k) * m;
    assert a * x == (a * k) * m + y;
    var q := y / m;
    assert y == q * m + y % m;
    Distribute(m, a * k, q);
    assert m * (a * k + q) == (a * k + q) * m && m * (a * k) == (a * k) * m && m * q == q * m;
    MulMod(a * x, a * k + q, m);
  }

  lemma Associate(a: int, b: int, c: int)
    ensures a * (b * c) == (a * b) * c
  {
  }

  /** The n-th power of a leaves the remainder r. */
  predicate Leaves(a: int, n: nat, r: int, m: int) {
    0 <= r < m && Power(a, n) % m == r
  }

  lemma {:induction false} PowerAdds(a: int, k: nat, n: nat)
    ensures Power(a, k + n) == Power(a, k) * Power(a, n)
  {
    if k > 0 {
      PowerAdds(a, k - 1, n);
      Associate(a, Power(a, k - 1), Power(a, n));
    }
  }

  lemma ModMulBoth(x: int, y: int, m: int)
    requires 0 < m
    ensures ((x % m) * (y % m)) % m == (x * y) % m
  {
    ModMul(x % m, y, m);
    ModMul(y, x, m);
    assert (x % m) * y == y * (x % m) && y * x == x * y;
  }

  lemma PowerOne(a: int, m: int)
    requires 0 <= a < m
    ensures Leaves(a, 1, a, m)
  {
    assert Power(a, 1) == a * Power(a, 0);
    MulMod(a, 0, m);
  }

  /** Remainders of powers multiply. */
  lemma LeavesProduct(a: int, k: nat, r: int, n: nat, t: int, m: int)
    requires Leaves(a, k, r, m) && Leaves(a, n, t, m)
    ensures Leaves(a, k + n, (r * t) % m, m)
  {
    PowerAdds(a, k, n);
    ModMulBoth(Power(a, k), Power(a, n), m);
  }

  /** Powers of a power that is -1 alternate. */
  lemma {:induction false} Alternates(a: int, k: nat, j: nat, m: int)
    requires 2 < m && Leaves(a, k, m - 1, m)
    ensures k * j >= 0 && Leaves(a, k * j, if j % 2 == 0 then 1 else m - 1, m)
  {
    if j == 0 {
      MulMod(1, 0, m);
      assert k * j == 0;
    } else {
      Alternates(a, k, j - 1, m);
      var r := if (j - 1) % 2 == 0 then 1 else m - 1;
      LeavesProduct(a, k * (j - 1), r, k, m - 1, m);
      Distribute(k, j - 1, 1);
      assert k * (j - 1) + k == k * j;
      if r == 1 {
        MulMod(r * (m - 1), 0, m);
      } else {
        assert (m - 1) * (m - 1) == (m - 2) * m + 1;
        MulMod(r * (m - 1), m - 2, m);
      }
    }
  }

  /** What a power does to a number is known from the remainder of the power. */
  lemma LeavesTimes(a: int, n: nat, r: int, m: int, x: int)
    requires Leaves(a, n, r, m)
    ensures (Power(a, n) * x) % m == (r * x) % m
  {
    ModMul(x, Power(a, n), m);
    assert x * Power(a, n) == Power(a, n) * x && x * r == r * x;
  }

  // ---------------------------------------------------------------- repeated squaring

  lemma Square(a: int, k: nat, r: int, q: int, t: int, m: int)
    requires Leaves(a, k, r, m) && r * r == q * m + t && 0 <= t < m
    ensures Leaves(a, 2 * k, t, m)
  {
    LeavesProduct(a, k, r, k, r, m);
    MulMod(r * r, q, m);
  }

  /** A square, and one more factor. */
  lemma Raise(a: int, k: nat, r: int, n: nat, s: int, q: int, t: int, m: int)
    requires Leaves(a, k, r, m) && Leaves(a, n, s, m) && s * (r * r) == q * m + t && 0 <= t < m
    ensures Leaves(a, 2 * k + n, t, m)
  {
    LeavesProduct(a, k, r, k, r, m);
    LeavesProduct(a, n, s, 2 * k, (r * r) % m, m);
    ModMul(s, r * r, m);
    MulMod(s * (r * r), q, m);
  }

  // ---------------------------------------------------------------- divisors

  function Gcd(x: nat, y: nat): nat
    decreases y
  {
    if y == 0 then x else Gcd(y, x % y)
  }

  lemma Multiple(x: int, k: int, g: int)
    requires 0 < g && x == k * g
    ensures x % g == 0
  {
    MulMod(x, k, g);
  }

  lemma SumDivides(x: int, y: int, k: int, g: int)
    requires 0 < g && x % g == 0 && y % g == 0
    ensures (k * x + y) % g == 0
  {
    assert x == (x / g) * g && y == (y / g) * g;
    Associate(k, x / g, g);
    Distribute(g, k * (x / g), y / g);
    Multiple(k * x + y, k * (x / g) + y / g, g);
  }

  lemma {:induction false} GcdDivides(x: nat, y: nat)
    requires 0 < x || 0 < y
    ensures 0 < Gcd(x, y) && x % Gcd(x, y) == 0 && y % Gcd(x, y) == 0
    decreases y
  {
    if y == 0 {
      Multiple(x, 1, x);
    } else {
      GcdDivides(y, x % y);
      SumDivides(y, x % y, x / y, Gcd(x, y));
      assert x == (x / y) * y + x % y;
    }
  }

  predicate Prime(q: nat) {
    1 < q && forall g | 1 < g < q :: q % g != 0
  }

  /** It is enough to try divisors up to the root. */
  lemma PrimeByRoot(q: nat, r: nat)
    requires 1 < q < (r + 1) * (r + 1) && forall g | 1 < g <= r && g < q :: q % g != 0
    ensures Prime(q)
  {
    forall g | 1 < g < q ensures q % g != 0 {
      if q % g == 0 {
        var k := q / g;
        assert q == k * g;
        if k <= 1 {
          Bounded(g, k, 1);
        } else if k >= q {
          Bounded(k, 2, g);
        } else if g > r && k > r {
          Bounded(k, r + 1, g);
          Bounded(r + 1, r + 1, k);
        } else if k <= r {
          assert q == g * k;
          Multiple(q, g, k);
        }
      }
    }
  }

  /** Multiples of two numbers with no common divisor are multiples of their product. */
  lemma Both(x: nat, y: nat, u: int, v: int, d: int)
    requires 0 < x && 0 < y && d % x == 0 && d % y == 0 && u * x + v * y == 1
    ensures 0 < x * y && d % (x * y) == 0
  {
    var j, k := d / x, d / y;
    assert d == j * x && d == k * y;
    calc {
      d;
      d * (u * x + v * y);
      { Distribute(d, u * x, v * y); }
      d * (u * x) + d * (v * y);
      { assert d * (u * x) == (k * u) * (x * y); }
      { assert d * (v * y) == (j * v) * (x * y); }
      (k * u) * (x * y) + (j * v) * (x * y);
      { Distribute(x * y, k * u, j * v); }
      (k * u + j * v) * (x * y);
    }
    Bounded(x, 1, y);
    Multiple(d, k * u + j * v, x * y);
  }

  // ---------------------------------------------------------------- powers that are 1

  lemma {:induction false} OneMany(a: int, k: nat, j: nat, m: int)
    requires 1 < m && Leaves(a, k, 1, m)
    ensures k * j >= 0 && Leaves(a, k * j, 1, m)
  {
    if j == 0 {
      MulMod(1, 0, m);
      assert k * j == 0;
    } else {
      OneMany(a, k, j - 1, m);
      LeavesProduct(a, k * (j - 1), 1, k, 1, m);
      Distribute(k, j - 1, 1);
      MulMod(1 * 1, 0, m);
    }
  }

  /** Exponents may be changed by multiples of one whose power is 1. */
  lemma LeavesPast(a: int, k: nat, n: nat, r: int, m: int)
    requires 1 < m && Leaves(a, k, 1, m)
    ensures Leaves(a, k + n, r, m) <==> Leaves(a, n, r, m)
  {
    var s := Power(a, n) % m;
    LeavesProduct(a, k, 1, n, s, m);
    MulMod(1 * s, 0, m);
  }

  lemma {:induction false} OneAtGcd(a: int, u: nat, x: nat, y: nat, m: int)
    requires 1 < m && Leaves(a, u * x, 1, m) && Leaves(a, u * y, 1, m)
    ensures Leaves(a, u * Gcd(x, y), 1, m)
    decreases y
  {
    if y > 0 {
      var j := x / y;
      assert x == y * j + x % y;
      Distribute(u, y * j, x % y);
      Associate(u, y, j);
      OneMany(a, u * y, j, m);
      LeavesPast(a, u * y * j, u * (x % y), 1, m);
      OneAtGcd(a, u, y, x % y, m);
    }
  }

  /** An exponent whose power is 1 has every prime that is needed in it. */
  lemma PrimeInOrder(a: int, w: nat, q: nat, d: nat, m: int)
    requires 1 < m && Prime(q) && Leaves(a, w * q, 1, m) && !Leaves(a, w, 1, m) && Leaves(a, d, 1, m)
    ensures d % q == 0
  {
    hide Leaves, Prime, Gcd;
    OneMany(a, d, w, m);
    assert d * w == w * d;
    OneAtGcd(a, w, d, q, m);
    assert 1 < q by { PrimeIsLarge(q); }
    GcdDivides(d, q);
    var g := Gcd(d, q);
    assert w * 1 == w;
    if g < q {
      NoDivisor(q, g);
    } else if g > q {
      MulMod(q, 0, g);
    }
  }

  lemma PrimeIsLarge(q: nat)
    requires Prime(q)
    ensures 1 < q
  {
  }

  lemma NoDivisor(q: nat, g: nat)
    requires Prime(q) && 1 < g < q
    ensures q % g != 0
  {
  }

  // ---------------------------------------------------------------- generators of all remainders

  /** No power of a before the last is 1. */
  predicate Generates(a: int, m: int) {
    2 < m && Leaves(a, m - 1, 1, m) && forall d | 0 < d < m - 1 :: !Leaves(a, d, 1, m)
  }

  /** Up to the last one, no remainder comes twice. */
  lemma PowersDiffer(a: int, m: int, i: nat, j: nat)
    requires Generates(a, m) && i < j < m - 1
    ensures Power(a, i) % m != Power(a, j) % m
  {
    var r := Power(a, i) % m;
    if r == Power(a, j) % m {
      var n := m - 1 - i;
      var s := Power(a, n) % m;
      LeavesProduct(a, i, r, n, s, m);
      LeavesProduct(a, j, r, n, s, m);
      assert i + n == m - 1 && j + n == (m - 1) + (j - i);
      LeavesPast(a, m - 1, j - i, 1, m);
    }
  }

  lemma NoPowerIsZero(a: int, m: int, i: nat)
    requires Generates(a, m) && i < m - 1
    ensures 0 < Power(a, i) % m < m
  {
    if Power(a, i) % m == 0 {
      var n := m - 1 - i;
      LeavesProduct(a, i, 0, n, Power(a, n) % m, m);
      MulMod(0, 0, m);
    }
  }

  function Remainders(a: int, m: int, n: nat): set<int>
    requires m != 0
  {
    if n == 0 then {} else Remainders(a, m, n - 1) + {Power(a, n - 1) % m}
  }

  ghost predicate IsPower(a: int, m: int, n: nat, t: int) {
    exists k: nat | k < n :: Leaves(a, k, t, m)
  }

  lemma {:induction false} ManyRemainders(a: int, m: int, n: nat)
    requires Generates(a, m) && n <= m - 1
    ensures |Remainders(a, m, n)| == n
    ensures forall t | t in Remainders(a, m, n) :: 0 < t < m && IsPower(a, m, n, t)
  {
    hide Generates, Power;
    if n > 0 {
      ManyRemainders(a, m, n - 1);
      var r := Power(a, n - 1) % m;
      NoPowerIsZero(a, m, n - 1);
      if r in Remainders(a, m, n - 1) {
        var k: nat :| k < n - 1 && Leaves(a, k, r, m);
        PowersDiffer(a, m, k, n - 1);
      }
      assert Leaves(a, n - 1, r, m);
      forall t | t in Remainders(a, m, n) ensures 0 < t < m && IsPower(a, m, n, t) {
        if t != r {
          var k: nat :| k < n - 1 && Leaves(a, k, t, m);
          assert k < n;
        }
      }
    }
  }

  function Positives(n: nat): (r: set<int>)
    ensures |r| == n && forall t :: t in r <==> 0 < t <= n
  {
    if n == 0 then {} else Positives(n - 1) + {n}
  }

  lemma {:induction false} SubsetIsSmaller<T>(x: set<T>, y: set<T>)
    requires x <= y
    ensures |x| <= |y|
  {
    if x != {} {
      var t :| t in x;
      SubsetIsSmaller(x - {t}, y - {t});
    }
  }

  /** Every remainder but zero is a power. */
  lemma HasLog(a: int, m: int, t: int) returns (k: nat)
    requires Generates(a, m) && 0 < t < m
    ensures k < m - 1 && Leaves(a, k, t, m)
  {
    hide Power, Remainders;
    ManyRemainders(a, m, m - 1);
    var all := Remainders(a, m, m - 1);
    if t !in all {
      SubsetIsSmaller(all, Positives(m - 1) - {t});
    }
    assert t in all && IsPower(a, m, m - 1, t);
    k :| k < m - 1 && Leaves(a, k, t, m);
  }

  /** So every number but the multiples is taken to every remainder. */
  lemma Takes(a: int, m: int, x: int, t: int) returns (i: nat)
    requires Generates(a, m) && 0 < x < m && 0 < t < m
    ensures (Power(a, i) * x) % m == t
  {
    hide Generates, Power;
    var j := HasLog(a, m, x);
    var k := HasLog(a, m, t);
    i := k + (m - 1 - j);
    var r := Power(a, i) % m;
    assert 2 < m && Leaves(a, m - 1, 1, m) by { WholePeriod(a, m); }
    LeavesProduct(a, i, r, j, x, m);
    assert i + j == (m - 1) + k;
    LeavesPast(a, m - 1, k, t, m);
    LeavesTimes(a, i, r, m, x);
  }

  lemma WholePeriod(a: int, m: int)
    requires Generates(a, m)
    ensures 2 < m && Leaves(a, m - 1, 1, m)
  {
  }
}
