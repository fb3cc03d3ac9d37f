/** Which seeds a search looks at: every thread walks its own residue class of offsets, and
    mix64 spreads them over the seed space (worker util.c, search.c). */
module SeedMix {
  import opened Bits
  import opened Words
  import opened Products
  import opened Remainders

  // ----- mix64

  /** `x ^= x >> k` */
  function XorShift(x: nat, k: nat): nat {
    Xor(x, Shr(x, k))
  }

  function Unshift(y: nat, k: nat): nat {
    Xor(y, Xor(Shr(y, k), Shr(y, 2 * k)))
  }

  /** A shift by at least a third of the word is undone by two more shifts. */
  lemma ShiftInverse(x: nat, k: nat)
    requires x < TWO64 && 3 * k >= 64
    ensures XorShift(x, k) < TWO64 && Unshift(x, k) < TWO64
    ensures Unshift(XorShift(x, k), k) == x
    ensures XorShift(Unshift(x, k), k) == x
  {
    hide Xor;
    hide Shr;
    hide Word;
    Word64(x);
    var s1, s2, s3 := Shr(x, k), Shr(x, 2 * k), Shr(x, 3 * k);
    ShrWord(x, 64, k);
    ShrWord(x, 64, 2 * k);
    ShrWord(x, 64, 3 * k);
    XorWord(x, s1, 64);
    Word64(Xor(x, s1));
    XorWord(s1, s2, 64);
    XorWord(x, Xor(s1, s2), 64);
    Word64(Xor(x, Xor(s1, s2)));
    ShrAdd(x, k, k);
    ShrAdd(x, k, 2 * k);
    ShrAdd(x, 2 * k, k);
    XorZero(s2);
    // undoing the shift
    ShrXor(x, s1, k);
    ShrXor(x, s1, 2 * k);
    XorCancel(s1, s2);
    XorCancel(x, s1);
    // shifting the undone
    ShrXor(x, Xor(s1, s2), k);
    ShrXor(s1, s2, k);
    XorCancel(x, Xor(s1, s2));
  }

  const FACTOR1: nat := 0xbf58_476d_1ce4_e5b9
  const FACTOR2: nat := 0x94d0_49bb_1331_11eb
  const UNFACTOR1: nat := 0x96de_1b17_3f11_9089
  const UNFACTOR2: nat := 0x3196_42b2_d24d_8ec3

  lemma FactorInverse(x: nat, f: nat, g: nat)
    requires x < TWO64 && f * g % TWO64 == 1
    ensures U64(U64(x * f) * g) == x
  {
    hide U64;
    var u, v := x * f, f * g;
    assert u * g == v * x by { Regroup(x, f, g); }
    ReducedFactor(u, g);
    UnitFactor(v, x);
  }

  lemma ReducedFactor(u: int, g: int)
    ensures U64(U64(u) * g) == U64(u * g)
  {
    ModMod(u, TWO64, 1);
    ModMulAdd(U64(u), u, g, 0, TWO64);
  }

  lemma UnitFactor(v: int, x: nat)
    requires v % TWO64 == 1 && x < TWO64
    ensures U64(v * x) == x
  {
    ModMulAdd(v, 1, x, 0, TWO64);
  }

  lemma Regroup(x: int, f: int, g: int)
    ensures x * f * g == f * g * x
  {
  }

  function Mixed(x: nat): nat {
    XorShift(U64(XorShift(U64(XorShift(x, 30) * FACTOR1), 27) * FACTOR2), 31)
  }

  function Unmixed(y: nat): nat {
    Unshift(U64(Unshift(U64(Unshift(y, 31) * UNFACTOR2), 27) * UNFACTOR1), 30)
  }

  /** mix64 is a bijection of the 64-bit words: both compositions are the identity. */
  lemma MixBijection(x: nat)
    requires x < TWO64
    ensures Mixed(x) < TWO64 && Unmixed(Mixed(x)) == x
    ensures Unmixed(x) < TWO64 && Mixed(Unmixed(x)) == x
  {
    hide XorShift;
    hide Unshift;
    assert FACTOR1 * UNFACTOR1 % TWO64 == 1 && UNFACTOR1 * FACTOR1 % TWO64 == 1;
    assert FACTOR2 * UNFACTOR2 % TWO64 == 1 && UNFACTOR2 * FACTOR2 % TWO64 == 1;
    var a1 := XorShift(x, 30);
    ShiftInverse(x, 30);
    FactorInverse(a1, FACTOR1, UNFACTOR1);
    var a2 := U64(a1 * FACTOR1);
    ShiftInverse(a2, 27);
    var a3 := XorShift(a2, 27);
    FactorInverse(a3, FACTOR2, UNFACTOR2);
    var a4 := U64(a3 * FACTOR2);
    ShiftInverse(a4, 31);
    var b1 := Unshift(x, 31);
    ShiftInverse(x, 31);
    FactorInverse(b1, UNFACTOR2, FACTOR2);
    var b2 := U64(b1 * UNFACTOR2);
    ShiftInverse(b2, 27);
    var b3 := Unshift(b2, 27);
    FactorInverse(b3, UNFACTOR1, FACTOR1);
    ShiftInverse(U64(b3 * UNFACTOR1), 30);
  }

  method Mix64(x0: nat) returns (x: nat)
    requires x0 < TWO64
    ensures x == Mixed(x0) < TWO64 && Unmixed(x) == x0
  {
    MixBijection(x0);
    x := x0;
    x := Xor(x, Shr(x, 30));
    x := U64(x * FACTOR1);
    x := Xor(x, Shr(x, 27));
    x := U64(x * FACTOR2);
    x := Xor(x, Shr(x, 31));
  }

  // ----- the slices

  /** The offset from the start seed that thread t of n looks at in round i. */
  function Offset(t: nat, i: nat, n: nat): nat {
    t + i * n
  }

  /** Rounds per thread: max_seeds divided by the number of threads, rounded up. The sum wraps. */
  function PerThread(maxSeeds: nat, n: nat): nat
    requires n > 0
  {
    U64(maxSeeds + n - 1) / n
  }

  /** The seed of a round, in wrapping arithmetic. */
  function SeedOf(start: nat, t: nat, i: nat, n: nat): nat {
    Mixed(U64(start + Offset(t, i, n)))
  }

  /** No two rounds of any two threads have the same offset. */
  lemma OffsetsDisjoint(t: nat, i: nat, t': nat, i': nat, n: nat)
    requires t < n && t' < n && Offset(t, i, n) == Offset(t', i', n)
    ensures t == t' && i == i'
  {
    QuotientUnique(i, t, i', t', n);
  }

  lemma Quotient(k: nat, n: nat, p: nat)
    requires n > 0 && k < p * n
    ensures k / n < p
  {
    if k / n >= p {
      Monotone(p, k / n, n);
    }
  }

  /** Offset k belongs to a round of some thread. */
  ghost predicate Covered(maxSeeds: nat, n: nat, k: nat)
    requires n > 0
  {
    exists t: nat, i: nat :: t < n && i < PerThread(maxSeeds, n) && Offset(t, i, n) == k
  }

  /** When the sum wraps, no thread has any round. */
  lemma WrappedRounds(maxSeeds: nat, n: nat)
    requires 0 < n < TWO64 && maxSeeds < TWO64
    ensures PerThread(maxSeeds, n) == if maxSeeds + n <= TWO64 then (maxSeeds + n - 1) / n else 0
  {
    if maxSeeds + n > TWO64 {
      ModUnique(1, maxSeeds + n - 1 - TWO64, TWO64);
    }
  }

  /** Where offset k is to be found. */
  lemma RoundOf(maxSeeds: nat, n: nat, k: nat)
    requires 0 < n && maxSeeds + n <= TWO64 && k < maxSeeds
    ensures k / n < PerThread(maxSeeds, n) && k % n < n && Offset(k % n, k / n, n) == k
  {
    var p := PerThread(maxSeeds, n);
    assert p * n <= maxSeeds + n - 1 < p * n + n;
    assert k / n * n + k % n == k;
    Quotient(k, n, p);
  }

  /** The slices go past the first maxSeeds offsets by less than one round. */
  lemma Overshoot(maxSeeds: nat, n: nat, t: nat, i: nat)
    requires 0 < n < TWO64 && maxSeeds < TWO64 && t < n && i < PerThread(maxSeeds, n)
    ensures Offset(t, i, n) < maxSeeds + n
  {
    WrappedRounds(maxSeeds, n);
    var p := PerThread(maxSeeds, n);
    assert p * n <= maxSeeds + n - 1;
    Monotone(i + 1, p, n);
    assert (i + 1) * n == i * n + n;
  }

  lemma FirstCovered(maxSeeds: nat, n: nat, k: nat)
    requires 0 < n && maxSeeds + n <= TWO64 && k < maxSeeds
    ensures Covered(maxSeeds, n, k)
  {
    hide PerThread, Offset;
    RoundOf(maxSeeds, n, k);
  }

  lemma NoneCovered(maxSeeds: nat, n: nat, k: nat)
    requires n > 0 && PerThread(maxSeeds, n) == 0
    ensures !Covered(maxSeeds, n, k)
  {
    hide PerThread, Offset;
  }

  /** Together the slices cover the first maxSeeds offsets exactly if the sum does not wrap. */
  lemma OffsetsCover(maxSeeds: nat, n: nat)
    requires 0 < n < TWO64 && maxSeeds < TWO64
    ensures (forall k: nat :: k < maxSeeds ==> Covered(maxSeeds, n, k)) <==> maxSeeds + n <= TWO64
  {
    hide PerThread, Covered;
    if maxSeeds + n <= TWO64 {
      forall k: nat | k < maxSeeds
        ensures Covered(maxSeeds, n, k)
      {
        FirstCovered(maxSeeds, n, k);
      }
    } else {
      WrappedRounds(maxSeeds, n);
      NoneCovered(maxSeeds, n, 0);
    }
  }

  /** No seed is looked at twice. */
  lemma SeedsDistinct(start: nat, maxSeeds: nat, n: nat, t: nat, i: nat, t': nat, i': nat)
    requires 0 < n < TWO64 && maxSeeds < TWO64
    requires t < n && t' < n && i < PerThread(maxSeeds, n) && i' < PerThread(maxSeeds, n)
    requires SeedOf(start, t, i, n) == SeedOf(start, t', i', n)
    ensures t == t' && i == i'
  {
    hide Mixed, Unmixed, PerThread, Offset;
    var u, v := U64(start + Offset(t, i, n)), U64(start + Offset(t', i', n));
    MixBijection(u);
    MixBijection(v);
    WrappedRounds(maxSeeds, n);
    Overshoot(maxSeeds, n, t, i);
    Overshoot(maxSeeds, n, t', i');
    SameOffset(start, Offset(t, i, n), Offset(t', i', n));
    OffsetsDisjoint(t, i, t', i', n);
  }

  lemma SameOffset(start: nat, a: nat, b: nat)
    requires a < TWO64 && b < TWO64 && U64(start + a) == U64(start + b)
    ensures a == b
  {
    if a < b {
      NotBetween(start + a, start + b, TWO64);
    } else if b < a {
      NotBetween(start + b, start + a, TWO64);
    }
  }
}
