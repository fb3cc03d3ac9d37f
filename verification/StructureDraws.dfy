/** The draws of structure attempts, step by step as finders.h and rng.h make them from one running seed. */
module StructureDraws {
  import opened JavaRandom
  import opened Products
  import opened Remainders
  import opened StructurePositions
  import opened Words

  /** One more state of the generator, written into the running seed. */
  method NextState(seed0: nat) returns (seed: nat)
    ensures seed == Step(seed0) < TWO48
  {
    seed := (seed0 * 0x5_deec_e66d + 0xb) % 0x1_0000_0000_0000;
  }

  /** getFeatureChunkInRegion */
  method FeatureChunkInRegion(salt: int, range: nat, seed0: int, regX: int, regZ: int) returns (x: int, z: int)
    requires range > 0
    ensures Chunk(x, z) == GetFeatureChunkInRegion(salt, range, seed0, regX, regZ)
  {
    hide XorK, Step, PowerOfTwo;
    var seed := U64(seed0 + regX * 341873128712 + regZ * 132897987541 + salt);
    seed := XorK(seed);
    Next31Low(seed);
    seed := NextState(seed);
    Next31Low(seed);
    if !PowerOfTwo(range) {
      x := seed / 0x2_0000 % range;
      seed := NextState(seed);
      z := seed / 0x2_0000 % range;
    } else {
      x := range * (seed / 0x2_0000) / 0x8000_0000;
      seed := NextState(seed);
      z := range * (seed / 0x2_0000) / 0x8000_0000;
    }
  }

  /** getLargeStructureChunkInRegion: on each axis the mean of two draws. */
  method LargeStructureChunkInRegion(salt: int, range: nat, seed0: int, regX: int, regZ: int) returns (x: int, z: int)
    requires range > 0
    ensures Chunk(x, z) == GetLargeStructureChunkInRegion(salt, range, seed0, regX, regZ)
  {
    hide XorK, Step;
    var seed := U64(seed0 + regX * 341873128712 + regZ * 132897987541 + salt);
    seed := XorK(seed);
    Next31Low(seed);
    seed := NextState(seed);
    x := seed / 0x2_0000 % range;
    Next31Low(seed);
    seed := NextState(seed);
    x := x + seed / 0x2_0000 % range;
    Next31Low(seed);
    seed := NextState(seed);
    z := seed / 0x2_0000 % range;
    Next31Low(seed);
    seed := NextState(seed);
    z := z + seed / 0x2_0000 % range;
    x, z := x / 2, z / 2;
  }

  /** next with 32 bits: the upper bits of the next state as a signed number. */
  method NextSigned(seed0: nat) returns (seed: nat, v: int)
    ensures seed == Step(seed0)
    ensures -0x8000_0000 <= v < 0x8000_0000 && v % TWO32 == seed / 0x1_0000
  {
    hide Step;
    seed := NextState(seed0);
    v := seed / 0x1_0000;
    if v >= 0x8000_0000 {
      v := v - 0x1_0000_0000;
    }
  }

  /** nextLong: two of them, the first moved up by 32 bits, in wrapping arithmetic. */
  method NextLong(seed0: nat) returns (seed: nat, v: nat)
    ensures seed == Step(Step(seed0)) && v == LongFrom(seed0)
  {
    hide Step;
    var high, low;
    seed, high := NextSigned(seed0);
    ghost var upper := seed / 0x1_0000;
    seed, low := NextSigned(seed);
    v := U64(U64(U64(high) * 0x1_0000_0000) + U64(low));
    HighWord(high, upper, low);
    SignedLow(low, seed / 0x1_0000);
  }

  lemma HighWord(high: int, upper: nat, low: int)
    requires high % TWO32 == upper
    ensures U64(U64(U64(high) * 0x1_0000_0000) + U64(low)) == U64(upper * TWO32 + low)
  {
    var k := high / TWO32;
    assert high == k * TWO32 + upper;
    assert high * TWO32 == k * TWO64 + upper * TWO32;
    ModMulAdd(U64(high), high, TWO32, 0, TWO64);
    ModEqual(high * TWO32, upper * TWO32, k, TWO64);
    ModSum(U64(upper * TWO32), upper * TWO32, U64(low), TWO64);
    ModSum(U64(low), low, upper * TWO32, TWO64);
  }

  lemma SignedLow(low: int, word: nat)
    requires -0x8000_0000 <= low < 0x8000_0000 && low % TWO32 == word
    ensures low == if word < TWO31 then word else word - TWO32
  {
  }

  /** nextFloat below 0.01, in real numbers. */
  lemma TreasureChance(word: nat)
    ensures var bits := Step(XorK(word)) / 0x100_0000; TreasureDraw(word) <==> bits as real / 16777216.0 < 0.01
  {
    hide XorK, Step;
  }

  /** nextDouble below 0.004: 26 and 27 bits of two states. */
  lemma MineshaftChance(word: nat)
    ensures var s1 := Step(XorK(word));
            var bits := (s1 / 0x40_0000) * 0x800_0000 + Step(s1) / 0x20_0000;
            RareDouble(word) <==> bits as real / 9007199254740992.0 < 0.004
  {
    hide XorK, Step;
  }
}
