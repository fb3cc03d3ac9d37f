/** mulInv of rng.h: the extended Euclidean algorithm in 64-bit words that wrap. */
module ModularInverse {
  import opened Words
  import opened Products
  import opened Remainders

  ghost predicate Inverse(x: int, r: int, n: int)
    requires n > 0
  {
    x * r % n == 1 % n
  }

  /** The loop invariant of the algorithm on unbounded integers: the Bezout coefficients `a`
      and `b` of m and x have opposite signs, and together with the remainders they always
      weigh exactly n. That is what keeps them below n. */
  ghost predicate Bezout(x0: int, n: int, x: int, m: int, a: int, b: int, ka: int, kb: int) {
    && 1 <= x && 0 <= m
    && b * x0 == x + kb * n && a * x0 == m + ka * n
    && ((a <= 0 <= b && b * m - a * x == n) || (b <= 0 <= a && a * x - b * m == n))
  }

  /** x0 and n are combinations of the two remainders. */
  ghost predicate Generated(x0: int, n: int, x: int, m: int, c: int, d: int, e: int, f: int) {
    x0 == c * x + d * m && n == e * x + f * m
  }

  lemma BezoutStep(x0: int, n: int, x: int, m: int, a: int, b: int, ka: int, kb: int)
    requires Bezout(x0, n, x, m, a, b, ka, kb) && m > 0
    ensures Bezout(x0, n, m, x % m, b - x / m * a, a, kb - x / m * ka, ka)
  {
    var q, r := x / m, x % m;
    Scale(b, a, q, x0, x, m, r, ka, kb, n);
    SignStep(x, m, q, r, a, b, n);
  }

  lemma Scale(b: int, a: int, q: int, x0: int, x: int, m: int, r: int, ka: int, kb: int, n: int)
    requires b * x0 == x + kb * n && a * x0 == m + ka * n && x == q * m + r
    ensures (b - q * a) * x0 == r + (kb - q * ka) * n
  {
    assert (b - q * a) * x0 == b * x0 - q * (a * x0);
    assert q * (m + ka * n) == q * m + q * ka * n;
  }

  lemma SignStep(x: int, m: int, q: int, r: int, a: int, b: int, n: int)
    requires x == q * m + r && 0 <= q
    requires (a <= 0 <= b && b * m - a * x == n) || (b <= 0 <= a && a * x - b * m == n)
    ensures
      var a' := b - q * a;
      (a' <= 0 <= a && a * r - a' * m == n) || (a <= 0 <= a' && a' * m - a * r == n)
  {
    var a' := b - q * a;
    assert a' * m == b * m - a * (q * m);
    assert a * x == a * (q * m) + a * r;
    if a <= 0 {
      Monotone(0, q, -a);
      assert q * a <= 0;
    } else {
      Monotone(0, q, a);
    }
  }

  lemma GeneratedStep(x0: int, n: int, x: int, m: int, c: int, d: int, e: int, f: int)
    requires Generated(x0, n, x, m, c, d, e, f) && m > 0
    ensures Generated(x0, n, m, x % m, c * (x / m) + d, c, e * (x / m) + f, e)
  {
    var q, r := x / m, x % m;
    assert x == q * m + r;
    assert c * x == c * q * m + c * r && e * x == e * q * m + e * r;
  }

  /** The coefficient of a remainder of at least two is below n, that of one at most n. */
  lemma CoefficientBound(a: int, b: int, x: int, m: int, n: int)
    requires 1 <= x && 0 <= m
    requires (a <= 0 <= b && b * m - a * x == n) || (b <= 0 <= a && a * x - b * m == n)
    ensures -n <= a <= n
    ensures x > 1 && n > 0 ==> -n < a < n
  {
    if a < 0 {
      Monotone(0, b, m);
      Monotone(1, x, -a);
      if x > 1 {
        Monotone(2, x, -a);
      }
    } else if a > 0 {
      Monotone(0, -b, m);
      Monotone(1, x, a);
      if x > 1 {
        Monotone(2, x, a);
      }
    }
  }

  /** A common divisor greater than one rules out an inverse. */
  lemma NoInverse(x0: int, n: int, g: int, c: int, e: int, s: int)
    requires g > 1 && n > 1 && x0 == c * g && n == e * g
    ensures !Inverse(x0, s, n)
  {
    if Inverse(x0, s, n) {
      var t := ModDifference(x0 * s, 1, n);
      assert c * g * s == g * (c * s) && t * (e * g) == g * (t * e);
      var u := c * s - t * e;
      assert g * u == 1;
      if u > 0 {
        Monotone(1, u, g);
      } else {
        Monotone(0, -u, g);
      }
    }
  }

  /** `b - q * a` in wrapping words is the wrapped difference. */
  lemma WrapStep(a: int, b: int, q: int)
    ensures U64(U64(b) - q * U64(a)) == U64(b - q * a)
  {
    ModMod(a, TWO64, 1);
    ModMulAdd(U64(a), a, -q, U64(b), TWO64);
    assert U64(a) * (-q) == -(q * U64(a)) && a * (-q) == -(q * a);
    ModMod(b, TWO64, 1);
    ModSum(U64(b), b, -(q * a), TWO64);
  }

  /** For positive words below 2^63 and a modulus above one, mulInv returns the inverse when
      there is one and 0 when there is none. Read as signed, other words are not above one: as a
      modulus they give 0, as a number 1. */
  method MulInv(x0: nat, m0: nat) returns (r: nat)
    requires x0 < TWO64 && m0 < TWO64
    ensures Signed64(m0) <= 1 ==> r == 0
    ensures Signed64(m0) > 1 && 0 < x0 < TWO63 ==>
      r < m0 && (r > 0 ==> Inverse(x0, r, m0)) && (r == 0 ==> forall s :: !Inverse(x0, s, m0))
    ensures Signed64(m0) > 1 && !(0 < x0 < TWO63) ==> r == 1
  {
    hide Inverse;
    if Signed64(m0) <= 1 {
      return 0;
    }
    if !(0 < x0 < TWO63) {
      // the loop is not entered
      assert Signed64(x0) <= 1;
      return 1;
    }
    r := Euclid(x0, m0);
  }

  lemma SignedSmall(x: nat)
    requires x < TWO63
    ensures Signed64(x) == x
  {
  }

  /** The loop of mulInv. */
  method Euclid(x0: nat, m0: nat) returns (r: nat)
    requires 0 < x0 < TWO63 && 1 < m0 < TWO63
    ensures r < m0
    ensures r > 0 ==> Inverse(x0, r, m0)
    ensures r == 0 ==> forall s :: !Inverse(x0, s, m0)
  {
    hide Inverse, U64, Signed64;
    SignedSmall(x0);
    var n, x, m, a, b := m0, x0, m0, U64(0), U64(1);
    ghost var ia, ib, ka, kb := 0, 1, -1, 0;
    ghost var c, d, e, f := 1, 0, 0, 1;
    assert ib * x0 == x + kb * n && ia * x0 == m + ka * n;
    while Signed64(x) > 1
      invariant 1 <= x < TWO63 && m < TWO63 && Signed64(x) == x
      invariant a == U64(ia) && b == U64(ib) && 0 - n < ib < n
      invariant Bezout(x0, n, x, m, ia, ib, ka, kb)
      invariant Generated(x0, n, x, m, c, d, e, f)
      decreases m
    {
      if m == 0 {
        forall s
          ensures !Inverse(x0, s, m0)
        {
          NoInverse(x0, n, x, c, e, s);
        }
        return 0;
      }
      SignedSmall(m);
      var q := x / m;
      BezoutStep(x0, n, x, m, ia, ib, ka, kb);
      GeneratedStep(x0, n, x, m, c, d, e, f);
      CoefficientBound(ia, ib, x, m, n);
      WrapStep(ia, ib, q);
      var t := m;
      m := x % m;
      x := t;
      t := a;
      a := U64(b - q * a);
      b := t;
      ia, ib := ib - q * ia, ia;
      ka, kb := kb - q * ka, ka;
      c, d, e, f := c * q + d, c, e * q + f, e;
    }
    r := Normalise(b, n, ib);
    Result(x0, n, ib, kb, r);
  }

  method Normalise(b: nat, n: nat, ghost ib: int) returns (r: nat)
    requires b == U64(ib) && 0 - n < ib < n < TWO63
    ensures r == if ib < 0 then ib + n else ib
  {
    r := b;
    if Signed64(b) < 0 {
      r := U64(b + n);
    }
  }

  lemma Result(x0: int, n: int, b: int, k: int, r: int)
    requires n > 1 && -n < b && b * x0 == 1 + k * n && r == if b < 0 then b + n else b
    ensures Inverse(x0, r, n) && r > 0
  {
    var k' := if b < 0 then k + x0 else k;
    assert x0 * r == 1 + k' * n;
    ModEqual(x0 * r, 1, k', n);
    ModUnique(0, 0, n);
    ModUnique(0, 1, n);
  }
}
