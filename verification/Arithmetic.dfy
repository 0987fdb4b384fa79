/** Minimum and maximum, and facts of division the solver does not find on its own. */
module Arithmetic {

  function Min(a: nat, b: nat): nat { if a <= b then a else b }

  function Max(a: nat, b: nat): nat { if a >= b then a else b }

  lemma {:induction false} MulSign(x: int, d: int)
    requires d > 0
    ensures x >= 1 ==> x * d >= d
    ensures x <= -1 ==> x * d <= -d
  {
  }

  /** A quotient and a remainder in range are the quotient and the remainder. */
  lemma {:induction false} DivModIs(v: int, d: int, q: int, m: int)
    requires d > 0 && 0 <= m < d && v == q * d + m
    ensures v / d == q && v % d == m
  {
    MulSign(q - v / d, d);
    assert (q - v / d) * d == v % d - m;
  }

  /** The remainder of the next number. */
  lemma {:induction false} NextRemainder(k: nat, n: nat)
    requires n > 0
    ensures (k + 1) % n == if k % n + 1 == n then 0 else k % n + 1
  {
    var q, m := k / n, k % n;
    assert k == n * q + m;
    if m + 1 == n {
      assert k + 1 == (q + 1) * n;
      DivModIs(k + 1, n, q + 1, 0);
    } else {
      DivModIs(k + 1, n, q, m + 1);
    }
  }

  lemma {:induction false} DivSign(v: nat, d: nat)
    requires d > 0
    ensures v / d >= 0
  {
  }

  lemma {:induction false} MulMono(k: int, a: int, b: int)
    requires k >= 0 && a <= b
    ensures k * a <= k * b
  {
  }

  lemma {:induction false} MulStep(k: int, d: int)
    requires k >= 1 && d >= 0
    ensures k * d == (k - 1) * d + d && (k - 1) * d >= 0
  {
    MulMono(d, 0, k - 1);
  }

  lemma {:induction false} MulAssociates(a: int, b: int, c: int)
    ensures (a * b) * c == a * (b * c)
  {
  }

  /** One more `b` below `c` of them still fits. */
  lemma {:induction false} MulBelow(b: nat, q: nat, c: nat)
    requires q < c
    ensures q * b + b <= c * b
  {
    MulMono(b, q + 1, c);
    assert b * (q + 1) == q * b + b;
  }

  /** Two digits, `m` below `c` and `r` below `b`, make one below `b * c`. */
  lemma {:induction false} TwoDigits(b: int, c: int, q: int, m: int, r: int)
    requires 0 <= m < c && 0 <= r < b
    ensures b * (q * c + m) + r == q * (b * c) + (b * m + r)
    ensures 0 <= b * m + r < b * c
  {
    MulMono(b, m, c - 1);
    assert b * (c - 1) == b * c - b;
    MulMono(b, 0, m);
    assert b * (q * c + m) == b * (q * c) + b * m;
    assert b * (q * c) == q * (b * c) by { assert b * (q * c) == (b * q) * c == (q * b) * c; }
  }

  /** Division and remainder by `b * c`, digit by digit. */
  lemma {:induction false} ModProduct(v: nat, b: nat, c: nat)
    requires b > 0 && c > 0
    ensures b * c > 0
    ensures v % (b * c) == b * (v / b % c) + v % b
    ensures v / (b * c) == v / b / c
  {
    TwoDigits(b, c, v / b / c, v / b % c, v % b);
    DivModIs(v, b * c, v / b / c, b * (v / b % c) + v % b);
  }
}
