/** Facts about products, quotients and powers of two that several modules need. */
module Arith {

  function Max(a: int, b: int): int { if a < b then b else a }

  function Min(a: int, b: int): int { if a < b then a else b }

  function Pow2(n: nat): (r: nat)
    ensures r > 0
  {
    if n == 0 then 1 else 2 * Pow2(n - 1)
  }

  lemma {:induction false} Pow2Monotone(a: nat, b: nat)
    requires a <= b
    ensures Pow2(a) <= Pow2(b)
    ensures a < b ==> Pow2(a) < Pow2(b)
  {
    if a < b { Pow2Monotone(a, b - 1); }
  }

  lemma {:induction false} Pow2Add(a: nat, b: nat)
    ensures Pow2(a + b) == Pow2(a) * Pow2(b)
  {
    if a > 0 {
      Pow2Add(a - 1, b);
      MulAssoc(2, Pow2(a - 1), Pow2(b));
    }
  }

  /** The least b with v <= 2^b. */
  function CeilLog2(v: nat): (b: nat)
    ensures v <= Pow2(b)
    ensures b > 0 ==> Pow2(b - 1) < v
  {
    if v <= 1 then 0 else 1 + CeilLog2((v + 1) / 2)
  }

  lemma CeilLog2Unique(v: nat, b: nat)
    requires v <= Pow2(b) && (b > 0 ==> Pow2(b - 1) < v)
    ensures b == CeilLog2(v)
  {
    var c := CeilLog2(v);
    if b < c { Pow2Monotone(b, c - 1); }
    if c < b { Pow2Monotone(c, b - 1); }
  }

  lemma MulAssoc(a: int, b: int, c: int)
    ensures a * b * c == a * (b * c)
  {
  }

  lemma MulPositive(a: nat, b: nat)
    requires a > 0 && b > 0
    ensures a * b > 0
  {
  }

  lemma MulMono(a: int, b: int, n: nat)
    requires a <= b
    ensures a * n <= b * n
  {
    assert (b - a) * n >= 0;
    assert b * n == a * n + (b - a) * n;
  }

  /** a < b leaves room for one more n. */
  lemma MulStep(a: int, b: int, n: nat)
    requires a < b
    ensures a * n + n <= b * n
  {
    MulMono(a + 1, b, n);
    assert (a + 1) * n == a * n + n;
  }

  lemma Distribute(a: int, b: int, n: int)
    ensures (a + b) * n == a * n + b * n
  {
  }

  lemma DivNonNegative(a: nat, d: nat)
    requires d > 0
    ensures a / d >= 0
  {
    if a / d < 0 { MulStep(a / d, 0, d); }
  }

  /** Quotient and remainder are unique. */
  lemma Digits(a: int, d: int, q: int, r: int)
    requires 0 <= r < d && a == q * d + r
    ensures a / d == q && a % d == r
  {
    assert a == (a / d) * d + a % d;
    if a / d < q { MulStep(a / d, q, d); }
    if q < a / d { MulStep(q, a / d, d); }
  }

  /** Long division by a product, one factor at a time. */
  lemma DivMod(a: nat, w: nat, m: nat)
    requires w > 0 && m > 0
    ensures m * w > 0
    ensures (a / w % m) * w + a % w == a % (m * w)
    ensures a / (m * w) == a / w / m
  {
    MulPositive(m, w);
    var q, r := a / w / m, a / w % m;
    assert a / w == q * m + r;
    assert a == (a / w) * w + a % w;
    Distribute(q * m, r, w);
    MulAssoc(q, m, w);
    MulStep(r, m, w);
    Digits(a, m * w, q, r * w + a % w);
  }

  /** Adding whole multiples of d does not change the remainder. */
  lemma ModAdd(a: int, d: int, n: int)
    requires d > 0
    ensures (a + n * d) % d == a % d
    ensures (a + n * d) / d == a / d + n
  {
    Distribute(a / d, n, d);
    Digits(a + n * d, d, a / d + n, a % d);
  }

  lemma MultipleIs(x: int, d: int, k: int)
    requires d > 0 && x == k * d
    ensures x % d == 0
  {
    Digits(x, d, k, 0);
  }

  /** A multiple of a multiple. */
  lemma MultipleOfMultiple(x: int, m: int, d: int)
    requires m > 0 && d > 0 && x % m == 0 && m % d == 0
    ensures x % d == 0
  {
    MulAssoc(x / m, m / d, d);
    MultipleIs(x, d, (x / m) * (m / d));
  }

  /** Different multiples are at least one step apart. */
  lemma MultipleGap(a: int, b: int, d: nat)
    requires d > 0 && a % d == 0 && b % d == 0 && a < b
    ensures a + d <= b
  {
    if a / d < b / d { MulStep(a / d, b / d, d); } else { MulMono(b / d, a / d, d); }
  }
}
