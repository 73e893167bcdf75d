/**
 Powers of two, division by them, and the one fact about primes the circuit
 rests on: a prime modulus leaves no zero divisors.
 */
module Arith {

  function Pow2(n: nat): (r: nat)
    ensures r > 0
  {
    if n == 0 then 1 else 2 * Pow2(n - 1)
  }

  const TWO_64: nat := 0x1_0000_0000_0000_0000
  const TWO_63: nat := 0x8000_0000_0000_0000

  function Min(a: int, b: int): int {
    if a < b then a else b
  }

  lemma {:induction false} Pow2Monotone(m: nat, n: nat)
    requires m <= n
    ensures Pow2(m) <= Pow2(n)
    decreases n
  {
    if m == n {
    } else {
      Pow2Monotone(m, n - 1);
    }
  }

  // `n >> level`.
  function Shift(n: nat, level: nat): nat {
    if level == 0 then n else Shift(n, level - 1) / 2
  }

  // Bit `level` of `n`.
  predicate Bit(n: nat, level: nat) {
    Shift(n, level) % 2 == 1
  }

  lemma {:induction false} ShiftFits(n: nat, level: nat)
    ensures Shift(n, level) == 0 <==> n < Pow2(level)
  {
    if level == 0 {
    } else {
      ShiftIsDivision(n, level - 1);
      ShiftIsDivision(n, level);
      var w := Pow2(level);
      if n < w {
        DivUnique(n, w, 0, n);
      }
    }
  }

  lemma DoubleLeft(h: int, w: int)
    ensures 2 * h * w == h * (2 * w) && (2 * h + 1) * w == h * (2 * w) + w
  {
  }

  lemma HalveDivision(n: nat, w: nat)
    requires w > 0
    ensures n / (2 * w) == n / w / 2
  {
    var q, r := n / w, n % w;
    var h := q / 2;
    assert n == q * w + r;
    DoubleLeft(h, w);
    DivUnique(n, 2 * w, h, if q % 2 == 0 then r else w + r);
  }

  lemma {:induction false} ShiftIsDivision(n: nat, level: nat)
    ensures Shift(n, level) == n / Pow2(level)
  {
    if level == 0 {
    } else {
      ShiftIsDivision(n, level - 1);
      HalveDivision(n, Pow2(level - 1));
    }
  }

  lemma {:induction false} ShiftSuccessor(n: nat, level: nat)
    ensures Shift(n + 1, level) == Shift(n, level) || Shift(n + 1, level) == Shift(n, level) + 1
  {
    if level == 0 {
    } else {
      ShiftSuccessor(n, level - 1);
    }
  }

  lemma MultipleOutside(k: int, d: nat)
    ensures k >= 1 ==> k * d >= d
    ensures k <= -1 ==> k * d <= -(d as int)
  {
    if k >= 1 {
      assert (k - 1) * d >= 0;
    } else if k <= -1 {
      assert (-1 - k) * d >= 0;
    }
  }

  /** Euclidean division is determined by its two inequalities. */
  lemma DivUnique(n: int, d: nat, q: int, r: int)
    requires d > 0 && n == q * d + r && 0 <= r < d
    ensures n / d == q && n % d == r
  {
    var k := n / d - q;
    assert n == n / d * d + n % d;
    assert k * d == n / d * d - q * d == r - n % d;
    MultipleOutside(k, d);
  }

  lemma SmallMod(v: nat, d: nat)
    requires v < d
    ensures v % d == v
  {
  }

  lemma ModAddMultiple(a: int, k: int, d: nat)
    requires d > 0
    ensures (a + k * d) % d == a % d
  {
    DivUnique(a + k * d, d, a / d + k, a % d);
  }

  /** Adding residues and then reducing is reducing the sum. */
  lemma ModAdd(a: int, b: int, d: nat)
    requires d > 0
    ensures (a % d + b) % d == (a + b) % d
    ensures (a + b % d) % d == (a + b) % d
  {
    assert a == a % d + a / d * d && b == b % d + b / d * d;
    ModAddMultiple(a % d + b, a / d, d);
    ModAddMultiple(a + b % d, b / d, d);
  }

  // ----- Primes -----

  predicate Divides(d: nat, n: int)
    requires d > 0
  {
    n % d == 0
  }

  ghost predicate Prime(p: nat) {
    p > 1 && forall d: nat | 0 < d && Divides(d, p) :: d == 1 || d == p
  }

  // k * b vanishes modulo p.
  predicate Kills(p: nat, b: int, k: nat)
    requires p > 0
  {
    Divides(p, k * b)
  }

  lemma {:induction false} LeastKiller(p: nat, b: int, k: nat) returns (m: nat)
    requires p > 0 && k > 0 && Kills(p, b, k)
    ensures 0 < m <= k && Kills(p, b, m)
    ensures forall j: nat | 0 < j < m :: !Kills(p, b, j)
    decreases k
  {
    if j: nat :| 0 < j < k && Kills(p, b, j) {
      m := LeastKiller(p, b, j);
    } else {
      m := k;
    }
  }

  lemma LeastKillerDivides(p: nat, b: int, m: nat, k: nat)
    requires p > 0 && m > 0 && Kills(p, b, m) && Kills(p, b, k)
    requires forall j: nat | 0 < j < m :: !Kills(p, b, j)
    ensures Divides(m, k)
  {
    var q, r := k / m, k % m;
    var u, v := k * b / p, m * b / p;
    assert k * b == u * p && m * b == v * p;
    assert r * b == (u - q * v) * p by {
      assert k == q * m + r;
      assert k * b == q * (m * b) + r * b by {
        assert (q * m + r) * b == q * m * b + r * b;
      }
      assert q * (m * b) == q * v * p by {
        assert q * (v * p) == q * v * p;
      }
    }
    DivUnique(r * b, p, u - q * v, 0);
    assert Kills(p, b, r);
  }

  /** Euclid: a prime that divides a product divides a factor. */
  lemma PrimeDividesFactor(p: nat, a: nat, b: int)
    requires Prime(p) && Divides(p, a * b)
    ensures Divides(p, a) || Divides(p, b)
  {
    assert Kills(p, b, p) by {
      DivUnique(p * b, p, b, 0);
    }
    assert Kills(p, b, a);
    var m := LeastKiller(p, b, p);
    LeastKillerDivides(p, b, m, p);
    LeastKillerDivides(p, b, m, a);
  }
}
