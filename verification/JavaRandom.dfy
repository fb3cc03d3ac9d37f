/** The Java generator of rng.h: a linear congruence modulo 2^48, kept in 64-bit words that
    wrap at 2^64. */
module JavaRandom {
  import opened Words
  import opened Remainders

  const MULTIPLIER: int := 0x5_deec_e66d
  const INCREMENT: int := 0xb

  /** One step of the congruence. */
  function Step(s: int): nat {
    (s * MULTIPLIER + INCREMENT) % TWO48
  }

  /** What `n` successive steps make of a seed. */
  function Steps(s: int, n: nat): nat {
    if n == 0 then s % TWO48 else Step(Steps(s, n - 1))
  }

  /** A 64-bit word keeps the low 48 bits. */
  lemma LowBits(x: int)
    ensures U64(x) % TWO48 == x % TWO48
  {
    ModMod(x, TWO48, 0x1_0000);
  }

  /** next(&seed, 31): the state the wrapping arithmetic leaves, and its top 31 bits. */
  function Next31(seed: int): (r: (nat, nat))
    ensures r.0 == Step(seed) < TWO48
    ensures r.1 < TWO31
  {
    LowBits(seed * MULTIPLIER);
    ModSum(U64(seed * MULTIPLIER), seed * MULTIPLIER, INCREMENT, TWO48);
    var s := U64(U64(seed * MULTIPLIER) + INCREMENT) % TWO48;
    LowBits(U64(seed * MULTIPLIER) + INCREMENT);
    (s, s / 0x2_0000)
  }

  /** JAVA_NEXT_INT24: the division by 24 is a multiplication by 0xaaaaaaab and a shift. */
  function JavaNextInt24(seed: int): (r: (nat, int))
    ensures r.0 == Next31(seed).0
    ensures r.1 == Next31(seed).1 % 24
  {
    var c0 := U64(MULTIPLIER * seed);
    var s := U64(c0 + 11) % TWO48;
    assert MULTIPLIER * seed == seed * MULTIPLIER;
    var a := s / 0x2_0000;
    var c := U64(0xaaaa_aaab * a);
    Remainder24(a);
    var q := Signed64(c) / 0x10_0000_0000;
    (s, a - q * 8 * 3)
  }

  lemma Remainder24(a: int)
    requires 0 <= a < TWO31
    ensures a - Signed64(U64(0xaaaa_aaab * a)) / 0x10_0000_0000 * 8 * 3 == a % 24
  {
    Reciprocal24(a);
  }

  lemma Reciprocal24(a: int)
    requires 0 <= a < TWO31
    ensures 0 <= 0xaaaa_aaab * a < TWO63
    ensures (0xaaaa_aaab * a) / 0x10_0000_0000 == a / 24
  {
    var q, r := a / 24, a % 24;
    assert 0xaaaa_aaab * a == q * 0x10_0000_0000 + (8 * q + r * 0xaaaa_aaab);
    ModUnique(q, 8 * q + r * 0xaaaa_aaab, 0x10_0000_0000);
  }

  // ----- jumping ahead

  /** (m, a) stands for p steps: s becomes m * s + a. */
  ghost predicate Jumps(m: int, a: int, p: nat) {
    forall s: int :: Steps(s, p) == (m * s + a) % TWO48
  }

  lemma {:induction false} StepsAdd(s: int, p: nat, q: nat)
    ensures Steps(s, p + q) == Steps(Steps(s, p), q)
  {
    if q == 0 {
      StepsReduced(s, p);
    } else {
      StepsAdd(s, p, q - 1);
    }
  }

  lemma StepsReduced(s: int, p: nat)
    ensures Steps(s, p) == Steps(s, p) % TWO48
  {
  }

  /** First p steps, then q: the factors multiply, and the first offset is carried along. */
  lemma Compose(m: int, a: int, p: nat, im: int, ia: int, q: nat)
    requires Jumps(m, a, p) && Jumps(im, ia, q)
    ensures Jumps(m * im, im * a + ia, p + q)
  {
    hide Steps;
    forall s: int
      ensures Steps(s, p + q) == (m * im * s + (im * a + ia)) % TWO48
    {
      StepsAdd(s, p, q);
      var t, u := m * s + a, (m * s + a) % TWO48;
      assert Steps(s, p) == u && Steps(u, q) == (im * u + ia) % TWO48;
      Substitute(u, t, im, ia);
      Distribute(m, s, a, im);
    }
  }

  lemma Substitute(u: int, t: int, y: int, z: int)
    requires u % TWO48 == t % TWO48
    ensures (y * u + z) % TWO48 == (y * t + z) % TWO48
  {
    ModMulAdd(u, t, y, z, TWO48);
  }

  lemma Distribute(m: int, s: int, a: int, im: int)
    ensures im * (m * s + a) == m * im * s + im * a
  {
  }

  /** Only the low 48 bits of the factor and the offset matter. */
  lemma Reduce(m: int, a: int, p: nat)
    requires Jumps(m, a, p)
    ensures Jumps(U64(m), U64(a), p)
  {
    forall s: int
      ensures Steps(s, p) == (U64(m) * s + U64(a)) % TWO48
    {
      LowBits(m);
      LowBits(a);
      ModMulAdd(m, U64(m), s, a, TWO48);
      ModSum(a, U64(a), U64(m) * s, TWO48);
    }
  }

  /** skipNextN makes the n steps in a number of rounds logarithmic in n. */
  method SkipNextN(seed: nat, n: nat) returns (seed': nat)
    ensures seed' == Steps(seed, n)
  {
    hide Steps, Jumps;
    var m, a, im, ia, k := 1, 0, MULTIPLIER, INCREMENT, n;
    ghost var p, step := 0, 1;
    OneJump();
    while k > 0
      invariant n == p + k * step
      invariant Jumps(m, a, p) && Jumps(im, ia, step)
    {
      if k % 2 == 1 {
        Compose(m, a, p, im, ia, step);
        Reduce(m * im, im * a + ia, p + step);
        LowOffset(U64(m * im), im, a, ia, p + step);
        m, a := U64(m * im), U64(U64(im * a) + ia);
        p := p + step;
      }
      Compose(im, ia, step, im, ia, step);
      Reduce(im * im, im * ia + ia, step + step);
      assert (im + 1) * ia == im * ia + ia;
      LowIncrement(U64(im * im), im, ia, step + step);
      im, ia := U64(im * im), U64(U64(im + 1) * ia);
      HalveSteps(k, step);
      k, step := k / 2, step + step;
    }
    JumpAt(m, a, p, seed);
    LowBits(m * seed);
    ModSum(U64(seed * m), seed * m, a, TWO48);
    LowBits(U64(seed * m) + a);
    seed' := U64(U64(seed * m) + a) % TWO48;
  }

  lemma HalveSteps(k: nat, step: nat)
    ensures k * step == k / 2 * (step + step) + k % 2 * step
  {
    assert k == k / 2 * 2 + k % 2;
  }

  lemma JumpAt(m: int, a: int, p: nat, s: int)
    requires Jumps(m, a, p)
    ensures Steps(s, p) == (m * s + a) % TWO48
  {
  }

  lemma OneJump()
    ensures Jumps(1, 0, 0) && Jumps(MULTIPLIER, INCREMENT, 1)
  {
    forall s: int
      ensures Steps(s, 1) == (MULTIPLIER * s + INCREMENT) % TWO48
    {
      assert Steps(s, 1) == Step(Steps(s, 0));
      ModMulAdd(s % TWO48, s, MULTIPLIER, INCREMENT, TWO48);
    }
  }

  lemma LowOffset(m: int, im: int, a: int, ia: int, p: nat)
    requires Jumps(m, U64(im * a + ia), p)
    ensures Jumps(m, U64(U64(im * a) + ia), p)
  {
    ModMod(im * a, TWO64, 1);
    ModSum(U64(im * a), im * a, ia, TWO64);
  }

  lemma LowIncrement(m: int, im: int, ia: int, p: nat)
    requires Jumps(m, U64((im + 1) * ia), p)
    ensures Jumps(m, U64(U64(im + 1) * ia), p)
  {
    ModMod(im + 1, TWO64, 1);
    ModMulAdd(U64(im + 1), im + 1, ia, 0, TWO64);
  }
}
