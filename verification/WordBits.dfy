/**
 Shifts, masks and bitwise or of machine words, as arithmetic on naturals.
 */
module WordBits {
  import opened Base

  function Pow2(n: nat): (p: nat)
    ensures p >= 1
  {
    if n == 0 then 1 else 2 * Pow2(n - 1)
  }

  /** `x >> n`. */
  function Shr(x: u32, n: nat): u32 {
    DivShrinks(x, Pow2(n));
    x / Pow2(n)
  }

  /** `x << n` in 32 bits. */
  function Shl(x: u32, n: nat): u32 {
    x * Pow2(n) % 0x1_0000_0000
  }

  /** `x & ((1 << n) - 1)`. */
  function LowBits(x: u32, n: nat): u32 {
    ModShrinks(x, Pow2(n));
    x % Pow2(n)
  }

  /** `x | y`. */
  function Or(x: nat, y: nat): nat
    decreases x + y
  {
    if x == 0 && y == 0 then 0 else 2 * Or(x / 2, y / 2) + (if x % 2 == 1 || y % 2 == 1 then 1 else 0)
  }

  // ---------------------------------------------------------------- powers

  lemma {:induction false} Pow2Add(a: nat, b: nat)
    ensures Pow2(a + b) == Pow2(a) * Pow2(b)
  {
    if a > 0 {
      Pow2Add(a - 1, b);
    }
  }

  lemma {:induction false} Pow2Mono(a: nat, b: nat)
    requires a <= b
    ensures Pow2(a) <= Pow2(b)
  {
    if a < b {
      Pow2Mono(a, b - 1);
    }
  }

  lemma Pow2Word()
    ensures Pow2(8) == 0x100 && Pow2(32) == 0x1_0000_0000
  {
    assert Pow2(4) == 16;
    Pow2Add(4, 4);
    Pow2Add(8, 8);
    Pow2Add(16, 16);
  }

  // ---------------------------------------------------------------- division

  lemma MulMono(a: int, b: int, c: nat)
    requires a <= b
    ensures a * c <= b * c
  {
  }

  lemma MulBounds(a: nat, b: nat, x: nat, y: nat)
    requires 1 <= a <= x && 1 <= b <= y
    ensures 1 <= a * b <= x * y
  {
    MulMono(a, x, b);
    MulMono(b, y, x);
  }

  lemma DivModUnique(x: int, d: nat, q: int, r: int)
    requires x == d * q + r && 0 <= r < d
    ensures x / d == q && x % d == r
  {
    if x / d < q {
      MulMono(x / d + 1, q, d);
    } else if x / d > q {
      MulMono(q + 1, x / d, d);
    }
  }

  lemma DivShrinks(x: nat, d: nat)
    requires d >= 1
    ensures 0 <= x / d <= x
  {
    assert x == d * (x / d) + x % d;
    if x / d > x {
      MulMono(1, d, x / d);
    }
  }

  lemma ModShrinks(x: nat, d: nat)
    requires d >= 1
    ensures 0 <= x % d <= x
  {
    assert x == d * (x / d) + x % d;
  }

  /** Quotient and remainder of a product, taken one factor at a time. */
  lemma Nested(x: nat, a: nat, b: nat)
    requires a >= 1 && b >= 1
    ensures a * b >= 1
    ensures x / (a * b) == (x / a) / b
    ensures x % (a * b) == a * ((x / a) % b) + x % a
  {
    var q, r := x / a, x % a;
    var s, t := q / b, q % b;
    DivModIs(x, a);
    DivModIs(q, b);
    Regroup(a, b, s, t, r);
    BelowProduct(a, b, t, r);
    DivModUnique(x, a * b, s, a * t + r);
  }

  lemma DivModIs(x: nat, d: nat)
    requires d >= 1
    ensures x == d * (x / d) + x % d && 0 <= x % d < d && 0 <= x / d
  {
  }

  lemma Regroup(a: nat, b: nat, s: nat, t: nat, r: nat)
    ensures a * (b * s + t) + r == a * b * s + (a * t + r)
  {
  }

  lemma BelowProduct(a: nat, b: nat, t: nat, r: nat)
    requires t < b && r < a
    ensures a * t + r < a * b
  {
    MulMono(t + 1, b, a);
    assert a * (t + 1) == a * t + a;
  }

  lemma AddMulDiv(a: nat, m: nat, u: nat)
    requires m >= 1
    ensures (a + m * u) / m == a / m + u && (a + m * u) % m == a % m
  {
    assert a == m * (a / m) + a % m;
    DivModUnique(a + m * u, m, a / m + u, a % m);
  }

  /** Cutting `x` at bit boundaries `a` and `a * b`: mask then shift is shift then mask. */
  lemma ModDiv(x: nat, a: nat, b: nat)
    requires a >= 1 && b >= 1
    ensures a * b >= 1 && (x % (a * b)) / a == (x / a) % b
  {
    Nested(x, a, b);
    AddMulDiv(x % a, a, (x / a) % b);
  }

  lemma SplitMod(a: nat, m: nat, u: nat, n: nat)
    requires a < m && n >= 1
    ensures m * n >= 1 && (a + m * u) % (m * n) == a + m * (u % n)
  {
    var s, t := u / n, u % n;
    assert u == n * s + t;
    assert a + m * u == (m * n) * s + (a + m * t);
    MulMono(t + 1, n, m);
    DivModUnique(a + m * u, m * n, s, a + m * t);
  }

  // ---------------------------------------------------------------- bitwise or

  lemma {:induction false} OrZero(y: nat)
    ensures Or(0, y) == y
  {
    if y > 0 {
      OrZero(y / 2);
    }
  }

  /** On disjoint bits, or is addition. */
  lemma {:induction false} OrDisjoint(x: nat, y: nat, k: nat)
    requires x < Pow2(k)
    ensures Or(x, y * Pow2(k)) == x + y * Pow2(k)
  {
    if k == 0 {
      OrZero(y);
    } else {
      var z := y * Pow2(k - 1);
      assert y * Pow2(k) == 2 * z;
      OrDisjoint(x / 2, y, k - 1);
    }
  }

  lemma {:induction false} OrComm(x: nat, y: nat)
    ensures Or(x, y) == Or(y, x)
    decreases x + y
  {
    if x != 0 || y != 0 {
      OrComm(x / 2, y / 2);
    }
  }
}
