/** The zoom layers draw from a 32-bit generator of their own; it is the low half of the 64-bit one that all
    other layers use, and its draws are the same. */
module LayerDraws {
  import opened LayerRng
  import opened Products
  import opened Remainders
  import opened Words

  /** One step, of a word and of its low half. */
  lemma StepLow(s: int, cs: int, salt: int, add: int)
    requires s % TWO32 == cs % TWO32 && salt % TWO32 == add % TWO32
    ensures ZoomStep(cs, add) == McStepSeed(s, salt) % TWO32
  {
    var c, d := 6364136223846793005, 1442695040888963407;
    var c', d' := 1284865837, 4150755663;
    assert c % TWO32 == c' && d % TWO32 == d';
    var inner, inner' := s * c + d, cs * c' + d';
    FactorsLow(s, cs, c, c', d, d');
    FactorsLow(s, cs, inner, inner', salt, add);
    ModMod(s * inner + salt, TWO32, TWO32);
  }

  lemma FactorsLow(s: int, cs: int, c: int, c': int, d: int, d': int)
    requires s % TWO32 == cs % TWO32 && c % TWO32 == c' % TWO32 && d % TWO32 == d' % TWO32
    ensures (s * c + d) % TWO32 == (cs * c' + d') % TWO32
  {
    ModMulAdd(s, cs, c, d, TWO32);
    ModMulAdd(c, c', cs, d, TWO32);
    ModSum(d, d', cs * c', TWO32);
  }

  /** The seed of a zoomed block is the low half of the chunk seed there. */
  lemma ZoomSeedIsLow(seed: Seed, x: int, z: int)
    ensures ZoomSeed(seed, x, z) == GetChunkSeed(seed.startSeed, x, z) % TWO32
  {
    hide ZoomStep, McStepSeed;
    var s0, c0 := U64(seed.startSeed + x), U32(seed.startSeed + x);
    ModMod(seed.startSeed + x, TWO32, TWO32);
    LowOfLow(s0);
    var s1, c1 := McStepSeed(s0, z), ZoomStep(c0, z);
    StepLow(s0, c0, z, z);
    LowOfLow(s1);
    var s2, c2 := McStepSeed(s1, x), ZoomStep(c1, x);
    StepLow(s1, c1, x, x);
    LowOfLow(s2);
    StepLow(s2, c2, z, z);
  }

  lemma LowOfLow(s: int)
    ensures s % TWO32 % TWO32 == s % TWO32
  {
  }

  /** Draws among two and four are mcFirstInt of any word with the same low half. */
  lemma DrawsAgree(s: nat, cs: nat)
    requires s < TWO64 && cs == s % TWO32
    ensures Draw2(cs) == McFirstInt(s, 2) && Draw4(cs) == McFirstInt(s, 4)
    ensures Bit24(s) <==> McFirstInt(s, 2) == 1
  {
    Halves(s);
    var q, low := s / TWO32, cs / 0x100_0000;
    var k := if s < TWO63 then q else q - TWO32;
    hide Signed64;
    ModEqual(k * 256 + low, low, k * 128, 2);
    ModEqual(k * 256 + low, low, k * 64, 4);
    ModEqual(q * 256 + low, low, q * 128, 2);
  }

  /** Shifting a word down by 24 bits, signed or not, shifts its low half. */
  lemma Halves(s: nat)
    requires s < TWO64
    ensures var q, low := s / TWO32, s % TWO32 / 0x100_0000;
            s / 0x100_0000 == q * 256 + low && Signed64(s) / 0x100_0000 == (if s < TWO63 then q else q - TWO32) * 256 + low
  {
    var q, cs := s / TWO32, s % TWO32;
    ShiftDown(q, cs);
    ShiftDown(q - TWO32, cs);
    assert s == q * TWO32 + cs;
  }

  lemma ShiftDown(q: int, cs: nat)
    ensures (q * TWO32 + cs) / 0x100_0000 == q * 256 + cs / 0x100_0000
  {
  }

  /** All the draws of a zoomed block are those that mcFirstInt makes from the chunk seed and the two seeds after it. */
  lemma ZoomDraws(seed: Seed, x: int, z: int)
    ensures var c0 := ZoomSeed(seed, x, z);
            var c1 := ZoomStep(c0, seed.startSalt);
            var c2 := ZoomStep(c1, seed.startSalt);
            var s0 := GetChunkSeed(seed.startSeed, x, z);
            var s1 := McStepSeed(s0, seed.startSalt);
            var s2 := McStepSeed(s1, seed.startSalt);
            && Draw2(c0) == McFirstInt(s0, 2) && Draw2(c1) == McFirstInt(s1, 2)
            && Draw4(c1) == McFirstInt(s1, 4) && Draw4(c2) == McFirstInt(s2, 4)
  {
    var st := seed.startSalt;
    var s0 := GetChunkSeed(seed.startSeed, x, z);
    var s1 := McStepSeed(s0, st);
    var s2 := McStepSeed(s1, st);
    assert s0 < TWO64 && s1 < TWO64 && s2 < TWO64;
    hide ZoomStep, McStepSeed, GetChunkSeed, ZoomSeed, McFirstInt, Draw2, Draw4;
    ZoomSeedIsLow(seed, x, z);
    LowOfLow(s0);
    StepLow(s0, ZoomSeed(seed, x, z), st, st);
    LowOfLow(s1);
    StepLow(s1, s1 % TWO32, st, st);
    DrawsAgree(s0, s0 % TWO32);
    DrawsAgree(s1, s1 % TWO32);
    DrawsAgree(s2, s2 % TWO32);
  }

  /** mcFirstIsZero asks whether mcFirstInt is zero. */
  lemma ZeroAgrees(s: nat, mod: nat)
    requires mod > 0
    ensures McFirstIsZero(s, mod) <==> McFirstInt(s, mod) == 0
  {
  }
}
