/** Facts about products and quotients that the solver does not find alone. */
module Arithmetic {
  function Min(a: nat, b: nat): nat {
    if a < b then a else b
  }

  function Max(a: nat, b: nat): nat {
    if a > b then a else b
  }

  lemma TimesMonotone(a: nat, b: nat, c: nat)
    requires a <= b
    ensures a * c <= b * c
  {
  }

  lemma CancelFactor(a: nat, b: nat, c: nat)
    requires a * c < b * c
    ensures a < b
  {
  }

  lemma QuotientBounds(n: nat, d: nat)
    requires d > 0
    ensures n / d * d <= n < (n / d + 1) * d
  {
    assert n == n / d * d + n % d;
    assert (n / d + 1) * d == n / d * d + d;
  }

  lemma Remainder(n: nat, d: nat, k: nat, r: nat)
    requires n == k * d + r && r < d
    ensures n % d == r && n / d == k
  {
    var k', r' := n / d, n % d;
    assert n == k' * d + r';
    assert (k' + 1) * d == k' * d + d && (k + 1) * d == k * d + d;
    if k' < k {
      TimesMonotone(k' + 1, k, d);
    } else if k < k' {
      TimesMonotone(k + 1, k', d);
    }
  }

  lemma MultipleTimes(a: nat, b: nat, m: nat)
    requires m > 0 && a % m == 0
    ensures a * b % m == 0 && b * a % m == 0
  {
    var k := a / m;
    assert a == k * m;
    assert a * b == k * b * m;
    Remainder(a * b, m, k * b, 0);
  }

  lemma ModPlus(a: nat, b: nat, s: nat)
    requires s > 0 && b % s == 0
    ensures (a + b) % s == a % s
  {
    var k, l := a / s, b / s;
    assert a == k * s + a % s && b == l * s;
    assert (k + l) * s == k * s + l * s;
    Remainder(a + b, s, k + l, a % s);
  }

  lemma ModMinus(a: nat, b: nat, s: nat)
    requires s > 0 && b % s == 0 && b <= a
    ensures (a - b) % s == a % s
  {
    ModPlus(a - b, b, s);
  }

  lemma QuotientIs(n: nat, d: nat, k: nat)
    requires d > 0 && k == n / d
    ensures k * d <= n < (k + 1) * d
  {
    QuotientBounds(n, d);
  }

  /** Below q multiples of s the next multiple is still among them. */
  lemma NextMultiple(a: nat, k: nat, q: nat, s: nat)
    requires s > 0 && k == a / s && a < q * s
    ensures k < q && a < (k + 1) * s <= q * s
  {
    QuotientIs(a, s, k);
    NextInside(a, k, q, s);
  }

  lemma NextInside(a: nat, k: nat, q: nat, s: nat)
    requires k * s <= a < q * s
    ensures k < q && (k + 1) * s <= q * s
  {
    CancelFactor(k, q, s);
    TimesMonotone(k + 1, q, s);
  }

  /** The whole multiples in a number. */
  lemma Whole(a: nat, s: nat)
    requires s > 0
    ensures a / s * s == a - a % s
  {
    assert a == a / s * s + a % s;
  }

  function Power2(n: nat): (p: nat)
    ensures p > 0
  {
    if n == 0 then 1 else 2 * Power2(n - 1)
  }

  lemma Doubled(q: nat, r: nat, d: nat)
    requires r < 2
    ensures (2 * q + r) * d == q * (2 * d) + (if r == 0 then 0 else d)
  {
  }

  /** Halving a quotient halves what it is a quotient of. */
  lemma HalfQuotient(n: nat, d: nat)
    requires d > 0
    ensures n / d / 2 == n / (2 * d)
  {
    var h, rest := n / d, n % d;
    assert n == h * d + rest;
    Doubled(h / 2, h % 2, d);
    Remainder(n, 2 * d, h / 2, (if h % 2 == 0 then 0 else d) + rest);
  }
}
