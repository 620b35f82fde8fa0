/**
 Integer facts about products, quotients and powers that the other modules share.
 All divisors here are positive, where Dafny's `/` agrees with BigInt division of
 non-negative operands.
 */
module Arithmetic {

  function Min(a: int, b: int): (m: int)
    ensures m <= a && m <= b && (m == a || m == b)
  {
    if a < b then a else b
  }

  function Max(a: int, b: int): (m: int)
    ensures a <= m && b <= m && (m == a || m == b)
  {
    if a < b then b else a
  }

  function Pow(b: nat, e: nat): (p: nat)
    ensures 0 < b ==> 0 < p
  {
    if e == 0 then 1
    else if b == 0 then 0
    else MulPositive(b, Pow(b, e - 1)); Mul(b, Pow(b, e - 1))
  }

  /**
   Multiplication under a name: a product that the verifier treats as one term until
   MulIs spells it out.
   */
  function Mul(a: nat, b: nat): nat
  {
    if b == 0 then 0 else Mul(a, b - 1) + a
  }

  lemma {:induction false} MulIs(a: nat, b: nat)
    ensures Mul(a, b) == a * b
  {
    if b != 0 {
      MulIs(a, b - 1);
      assert a * b == a * (b - 1) + a;
    }
  }

  lemma MulPositive(a: nat, b: nat)
    requires 0 < a && 0 < b
    ensures 0 < a * b
    ensures 0 < Mul(a, b)
  {
    MulIs(a, b);
  }

  lemma MulCommutes(a: nat, b: nat)
    ensures Mul(a, b) == Mul(b, a)
  {
    MulIs(a, b);
    MulIs(b, a);
  }

  lemma {:induction false} MulDistributes(a: nat, b: nat, c: nat)
    ensures Mul(a, b + c) == Mul(a, b) + Mul(a, c)
  {
    if c != 0 { MulDistributes(a, b, c - 1); }
  }

  lemma {:induction false} MulAssociates(a: nat, b: nat, c: nat)
    ensures Mul(a, Mul(b, c)) == Mul(Mul(a, b), c)
  {
    if c != 0 {
      MulAssociates(a, b, c - 1);
      MulDistributes(a, Mul(b, c - 1), b);
    }
  }

  lemma MulMonotone(a: nat, b: nat, c: nat, d: nat)
    requires a <= b && c <= d
    ensures Mul(a, c) <= Mul(b, d)
  {
    MulIs(a, c);
    MulIs(b, d);
    MulMono2(a, b, c, d);
  }

  lemma MulMono(a: int, b: int, c: int)
    requires a <= b && 0 <= c
    ensures a * c <= b * c
    ensures c * a <= c * b
  {
  }

  lemma MulMono2(a: int, b: int, c: int, d: int)
    requires 0 <= a <= b && 0 <= c <= d
    ensures a * c <= b * d
  {
    MulMono(a, b, c);
    MulMono(c, d, b);
  }

  /** The quotient is the only q with q*d <= n < (q+1)*d. */
  lemma DivUnique(n: int, d: int, q: int)
    requires 0 < d
    requires q * d <= n < (q + 1) * d
    ensures n / d == q
    ensures n % d == n - q * d
  {
    var p := n / d;
    assert n == p * d + n % d;
    assert (p + 1) * d == p * d + d;
    if p < q {
      MulMono(p + 1, q, d);
    } else if q < p {
      MulMono(q + 1, p, d);
    }
  }

  lemma DivModOf(d: nat, q: nat, r: nat)
    requires r < d
    ensures (Mul(d, q) + r) / d == q
    ensures (Mul(d, q) + r) % d == r
  {
    assert (q + 1) * d == q * d + d;
    MulIs(d, q);
    DivUnique(Mul(d, q) + r, d, q);
  }

  lemma DivModSplit(n: nat, d: nat)
    requires 2 <= d
    ensures n == Mul(d, n / d) + n % d
    ensures 0 <= n / d && 0 <= n % d < d
    ensures 0 < n ==> n / d < n
  {
    DivBounds(n, d);
    DivGalois(n, d, 0);
    MulIs(d, n / d);
    MulMono(2, d, n / d);
  }

  lemma DivBounds(n: int, d: int)
    requires 0 < d
    ensures (n / d) * d <= n < (n / d + 1) * d
    ensures n - d < (n / d) * d
  {
    assert n == (n / d) * d + n % d;
    assert (n / d + 1) * d == (n / d) * d + d;
  }

  /** q*d <= n is exactly q <= n/d. */
  lemma DivGalois(n: int, d: int, q: int)
    requires 0 < d
    ensures q * d <= n <==> q <= n / d
  {
    DivBounds(n, d);
    if q <= n / d {
      MulMono(q, n / d, d);
    } else {
      MulMono(n / d + 1, q, d);
    }
  }

  lemma DivMono(n: int, m: int, d: int)
    requires 0 < d && n <= m
    ensures n / d <= m / d
  {
    DivBounds(n, d);
    DivGalois(m, d, n / d);
  }

  lemma DivAntitone(n: nat, d1: nat, d2: nat)
    requires 0 < d1 <= d2
    ensures n / d2 <= n / d1
  {
    DivBounds(n, d2);
    assert 0 <= n / d2 by { DivGalois(n, d2, 0); }
    MulMono(d1, d2, n / d2);
    DivGalois(n, d1, n / d2);
  }

  lemma DivNonNegative(n: nat, d: nat)
    requires 0 < d
    ensures 0 <= n / d <= n
  {
    DivGalois(n, d, 0);
    DivBounds(n, d);
    MulMono(1, d, n / d);
  }

  lemma {:induction false} PowAdd(b: nat, m: nat, n: nat)
    requires 0 < b
    ensures Pow(b, m + n) == Mul(Pow(b, m), Pow(b, n))
  {
    if m == 0 {
      MulIs(1, Pow(b, n));
    } else {
      PowAdd(b, m - 1, n);
      MulAssociates(b, Pow(b, m - 1), Pow(b, n));
    }
  }

  lemma {:induction false} PowMono(b: nat, m: nat, n: nat)
    requires 0 < b && m <= n
    ensures Pow(b, m) <= Pow(b, n)
    decreases n
  {
    if m < n {
      PowMono(b, m, n - 1);
      MulIs(1, Pow(b, n - 1));
      MulMonotone(1, b, Pow(b, n - 1), Pow(b, n - 1));
    }
  }

  /** Squaring a power, for literal powers step by step. */
  lemma PowDouble(b: nat, e: nat, v: nat)
    requires 0 < b && Pow(b, e) == v
    ensures Pow(b, 2 * e) == v * v && Pow(b, 2 * e + 1) == v * v * b
  {
    PowAdd(b, e, e);
    MulIs(v, v);
    MulIs(b, v * v);
  }
}
