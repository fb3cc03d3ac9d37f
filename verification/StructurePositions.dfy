/** Where structures are placed (finders.h): the generation attempt of a region, and the
    transposition of a seed that moves all attempts by a region vector. */
module StructurePositions {
  import opened Bits
  import opened Points
  import opened Products
  import opened Wrappers
  import opened Words
  import opened Remainders
  import opened JavaRandom

  const A: int := 341873128712
  const B: int := 132897987541

  datatype Chunk = Chunk(x: int, z: int)

  /** `seed ^ 0x5deece66d` */
  function XorK(seed: nat): nat {
    Xor(seed, MULTIPLIER)
  }

  predicate PowerOfTwo(r: nat)
    decreases r
  {
    if r <= 1 then true else r % 2 == 0 && PowerOfTwo(r / 2)
  }

  /** The two draws of a generation attempt, from the word the region's seed was put in.
      Powers of two take the branch that Java reserves for them. */
  function Attempt(word: nat, range: nat): Chunk
    requires range > 0
  {
    var (s1, bits1) := Next31(XorK(word));
    var (s2, bits2) := Next31(s1);
    if PowerOfTwo(range) then Chunk(range * bits1 / TWO31, range * bits2 / TWO31)
    else Chunk(bits1 % range, bits2 % range)
  }

  /** An attempt from the states of its two draws. */
  lemma AttemptIs(word: nat, mixed: nat, s1: nat, s2: nat, range: nat)
    requires range > 0 && !PowerOfTwo(range) && XorK(word) == mixed && Step(mixed) == s1 && Step(s1) == s2
    ensures Attempt(word, range) == Chunk(s1 / 0x2_0000 % range, s2 / 0x2_0000 % range)
  {
    hide XorK, Step;
    Next31Low(mixed);
    Next31Low(s1);
  }

  /** getFeatureChunkInRegion */
  function GetFeatureChunkInRegion(salt: int, range: nat, seed: int, regX: int, regZ: int): Chunk
    requires range > 0
  {
    Attempt(U64(seed + regX * A + regZ * B + salt), range)
  }

  function MoveStructure(baseSeed: int, regX: int, regZ: int): nat {
    U64(baseSeed - regX * A - regZ * B) % TWO48
  }

  /** An attempt only depends on the low 48 bits of its word. */
  lemma AttemptLow(u: nat, v: nat, range: nat)
    requires range > 0 && u % TWO48 == v % TWO48
    ensures Attempt(u, range) == Attempt(v, range)
  {
    hide XorK;
    XorLow(u);
    XorLow(v);
    ModMulAdd(XorK(u), XorK(v), MULTIPLIER, INCREMENT, TWO48);
    assert Next31(XorK(u)) == Next31(XorK(v)) by {
      Next31Low(XorK(u));
      Next31Low(XorK(v));
    }
  }

  lemma XorLow(u: nat)
    ensures XorK(u) % TWO48 == XorK(u % TWO48) % TWO48
  {
    hide Xor, Pow2;
    Pow2Word();
    XorMod(u, MULTIPLIER, 48);
    XorMod(u % TWO48, MULTIPLIER, 48);
  }

  lemma Next31Low(s: int)
    ensures Next31(s) == (Step(s), Step(s) / 0x2_0000)
  {
  }

  /** Moving a seed by (-i, -j) brings the attempts around region (i, j) to the origin. */
  lemma MovedAttempts(salt: int, range: nat, seed: int, i: int, j: int, a: int, b: int)
    requires range > 0
    ensures GetFeatureChunkInRegion(salt, range, MoveStructure(seed, -i, -j), a, b)
            == GetFeatureChunkInRegion(salt, range, seed, i + a, j + b)
  {
    hide Attempt;
    var moved := seed + i * A + j * B;
    var rest := a * A + b * B + salt;
    LowBits(moved);
    ModSum(U64(moved) % TWO48, moved, rest, TWO48);
    LowBits(U64(moved) % TWO48 + rest);
    LowBits(moved + rest);
    assert (i + a) * A == i * A + a * A && (j + b) * B == j * B + b * B;
    AttemptLow(U64(U64(moved) % TWO48 + rest), U64(moved + rest), range);
  }

  /** The draws of an attempt stay below the range. */
  lemma AttemptBelow(word: nat, range: nat)
    requires range > 0
    ensures 0 <= Attempt(word, range).x < range && 0 <= Attempt(word, range).z < range
  {
    hide XorK, Step;
    var (s1, bits1) := Next31(XorK(word));
    var (s2, bits2) := Next31(s1);
    Scaled(range, bits1);
    Scaled(range, bits2);
  }

  lemma Scaled(range: nat, bits: nat)
    requires range > 0 && bits < TWO31
    ensures 0 <= range * bits / TWO31 < range
  {
    Monotone(0, range, bits);
    Monotone(bits + 1, TWO31, range);
    ModUnique(range * bits / TWO31, range * bits % TWO31, TWO31);
    if range * bits / TWO31 >= range {
      Monotone(range, range * bits / TWO31, TWO31);
    }
  }

  // ----- the structures of the catalogue, for Minecraft 1.18 to 1.21

  const MC_1_18 := 22
  const MC_1_19_2 := 23
  const MC_1_19 := 24
  const MC_1_20 := 25
  const MC_1_21_1 := 26
  const MC_1_21 := 28

  /** The versions that a search can be asked for. */
  predicate Offered(mc: int) {
    mc == MC_1_18 || mc == MC_1_19 || mc == MC_1_20 || mc == MC_1_21
  }

  /** Where the attempt of a region lies: a draw for each axis, the mean of two, or a fixed block. */
  datatype Spread = Single | Mean | Fixed(offset: nat)

  /** Whether a region has an attempt at all: it always has, or by a further draw. That of outposts,
      nextInt with its repetitions, stays open. */
  datatype Luck = Sure | Treasure | Mineshaft | Open

  datatype StructureConfig = StructureConfig(salt: nat, regionSize: nat, chunkRange: nat, spread: Spread, luck: Luck)

  /** getStructureConfig, and how getStructurePos uses it. */
  function GetStructureConfig(kind: int, mc: int): Option<StructureConfig> {
    match kind
    case 1 => Some(StructureConfig(14357617, 32, 24, Single, Sure))
    case 2 => Some(StructureConfig(14357619, 32, 24, Single, Sure))
    case 3 => Some(StructureConfig(14357620, 32, 24, Single, Sure))
    case 4 => Some(StructureConfig(14357618, 32, 24, Single, Sure))
    case 5 => Some(StructureConfig(10387312, 34, 26, Single, Sure))
    case 6 => Some(StructureConfig(14357621, 20, 12, Single, Sure))
    case 7 => Some(StructureConfig(165745295, 24, 20, Single, Sure))
    case 8 => Some(StructureConfig(10387313, 32, 27, Mean, Sure))
    case 9 => Some(StructureConfig(10387319, 80, 60, Mean, Sure))
    case 10 => Some(StructureConfig(165745296, 32, 24, Single, Open))
    case 11 => Some(StructureConfig(34222645, 40, 25, Single, Sure))
    case 13 => if mc >= MC_1_19_2 then Some(StructureConfig(20083232, 24, 16, Single, Sure)) else None
    case 14 => Some(StructureConfig(10387320, 1, 1, Fixed(9), Treasure))
    case 15 => Some(StructureConfig(0, 1, 1, Fixed(0), Mineshaft))
    case 23 => if mc >= MC_1_20 then Some(StructureConfig(83469867, 34, 26, Single, Sure)) else None
    case 24 => if mc >= MC_1_21_1 then Some(StructureConfig(94251327, 34, 22, Single, Sure)) else None
    case _ => None
  }

  /** The draw for a buried treasure: nextFloat is below 0.01. */
  predicate TreasureDraw(word: nat) {
    Step(XorK(word)) / 0x100_0000 < 167773
  }

  /** nextLong, from the state before its two draws: the lower half is added as a signed number. */
  function LongFrom(s: nat): nat {
    var s1 := Step(s);
    var low := Step(s1) / 0x1_0000;
    U64(s1 / 0x1_0000 * TWO32 + (if low < TWO31 then low else low - TWO32))
  }

  /** The draw for a mineshaft: nextDouble is below 0.004. */
  predicate RareDouble(word: nat) {
    var s1 := Step(XorK(word));
    s1 / 0x40_0000 * 0x800_0000 + Step(s1) / 0x20_0000 < 36028797018964
  }

  predicate MineshaftDraw(seed: nat, regX: int, regZ: int) {
    var s := XorK(seed);
    var a, b := LongFrom(s), LongFrom(Step(Step(s)));
    RareDouble(Xor(Xor(U64(regX * a), seed), U64(regZ * b)))
  }

  /** Whether the region certainly has its attempt. */
  predicate Happens(c: StructureConfig, seed: int, regX: int, regZ: int) {
    match c.luck
    case Sure => true
    case Treasure => TreasureDraw(U64(seed + regX * A + regZ * B + c.salt))
    case Mineshaft => MineshaftDraw(U64(seed), regX, regZ)
    case Open => false
  }

  /** getLargeStructureChunkInRegion */
  function GetLargeStructureChunkInRegion(salt: int, range: nat, seed: int, regX: int, regZ: int): Chunk
    requires range > 0
  {
    var (s1, b1) := Next31(XorK(U64(seed + regX * A + regZ * B + salt)));
    var (s2, b2) := Next31(s1);
    var (s3, b3) := Next31(s2);
    var (s4, b4) := Next31(s3);
    Chunk((b1 % range + b2 % range) / 2, (b3 % range + b4 % range) / 2)
  }

  /** The block of a region's attempt. */
  function AttemptPos(c: StructureConfig, seed: int, regX: int, regZ: int): Pos
    requires c.chunkRange > 0
  {
    match c.spread
    case Single =>
      var p := GetFeatureChunkInRegion(c.salt, c.chunkRange, seed, regX, regZ);
      Pos((regX * c.regionSize + p.x) * 16, (regZ * c.regionSize + p.z) * 16)
    case Mean =>
      var p := GetLargeStructureChunkInRegion(c.salt, c.chunkRange, seed, regX, regZ);
      Pos((regX * c.regionSize + p.x) * 16, (regZ * c.regionSize + p.z) * 16)
    case Fixed(offset) => Pos(regX * 16 + offset, regZ * 16 + offset)
  }

  /** A position belongs to the region it was drawn for. */
  predicate InRegionOf(c: StructureConfig, p: Pos, regX: int, regZ: int) {
    c.regionSize > 0 && p.x / (16 * c.regionSize) == regX && p.z / (16 * c.regionSize) == regZ
  }

  lemma AttemptInRegion(kind: int, mc: int, seed: int, regX: int, regZ: int)
    requires GetStructureConfig(kind, mc).Some?
    ensures var c := GetStructureConfig(kind, mc).value;
            c.chunkRange > 0 && c.regionSize > 0 && InRegionOf(c, AttemptPos(c, seed, regX, regZ), regX, regZ)
  {
    hide Attempt, XorK, Next31;
    var c := GetStructureConfig(kind, mc).value;
    assert 0 < c.chunkRange <= c.regionSize && (c.spread.Fixed? ==> c.regionSize == 1 && c.spread.offset < 16) by { ConfigFits(kind, mc); }
    hide GetStructureConfig;
    match c.spread
    case Fixed(_) =>
    case Single =>
      AttemptBelow(U64(seed + regX * A + regZ * B + c.salt), c.chunkRange);
      var p := GetFeatureChunkInRegion(c.salt, c.chunkRange, seed, regX, regZ);
      BlockInRegion(regX, c.regionSize, p.x);
      BlockInRegion(regZ, c.regionSize, p.z);
    case Mean =>
      var p := GetLargeStructureChunkInRegion(c.salt, c.chunkRange, seed, regX, regZ);
      BlockInRegion(regX, c.regionSize, p.x);
      BlockInRegion(regZ, c.regionSize, p.z);
  }

  lemma ConfigFits(kind: int, mc: int)
    requires GetStructureConfig(kind, mc).Some?
    ensures var c := GetStructureConfig(kind, mc).value;
            0 < c.chunkRange <= c.regionSize && (c.spread.Fixed? ==> c.regionSize == 1 && c.spread.offset < 16)
  {
  }

  lemma BlockInRegion(reg: int, size: nat, offset: int)
    requires 0 <= offset < size
    ensures (reg * size + offset) * 16 / (16 * size) == reg
  {
    assert (reg * size + offset) * 16 == reg * (16 * size) + 16 * offset;
    ModUnique(reg, 16 * offset, 16 * size);
  }
}
