/** The cell rules of the layers that read one cell of their parent, or the nine around it. */
module LayerRules {
  import opened Biomes
  import opened Bits
  import opened LayerRng

  /** A cell and its eight neighbours. */
  datatype Nine = Nine(nw: int, n: int, ne: int, w: int, c: int, e: int, sw: int, s: int, se: int)

  type PointRule = (int, int, int) -> int
  type AroundRule = (int, int, Nine) -> int

  /** The biomes that mapShore cannot digest, whatever a special bit is set. */
  predicate Frozen(v: int) {
    v % 256 == FROZEN_OCEAN
  }

  /** A rule makes no frozen ocean of cells without one. */
  ghost predicate ThawsPoint(rule: PointRule) {
    forall x, z, v :: !Frozen(v) ==> !Frozen(rule(x, z, v))
  }

  predicate NoneFrozen(n: Nine) {
    && !Frozen(n.nw) && !Frozen(n.n) && !Frozen(n.ne) && !Frozen(n.w) && !Frozen(n.c) && !Frozen(n.e)
    && !Frozen(n.sw) && !Frozen(n.s) && !Frozen(n.se)
  }

  ghost predicate ThawsAround(rule: AroundRule) {
    forall x, z, n :: NoneFrozen(n) ==> !Frozen(rule(x, z, n))
  }

  predicate Cross4(n: Nine, a: int) {
    n.n == a || n.e == a || n.w == a || n.s == a
  }

  // ----- temperature categories, before biomes are assigned

  const WARM := 1
  const LUSH := 2
  const COLD := 3
  const FREEZING := 4

  function LandB18Rule(seed: Seed): AroundRule {
    (x: int, z: int, n: Nine) =>
      var cs := GetChunkSeed(seed.startSeed, x, z);
      if n.c == 0 && (n.nw != 0 || n.sw != 0 || n.ne != 0 || n.se != 0) then McFirstInt(cs, 3) / 2
      else if n.c == 1 && (n.nw != 1 || n.sw != 1 || n.ne != 1 || n.se != 1) then 1 - McFirstInt(cs, 5) / 4
      else n.c
  }

  /** One corner of mapLand16: the chosen value, how many corners counted, and the next seed. */
  function Land16Corner(corner: int, inc: nat, v: int, cs: nat, st: nat): (int, nat, nat) {
    if corner == OCEAN then (v, inc, cs)
    else
      (if inc == 0 || McFirstIsZero(cs, inc + 1) then corner else v, inc + 1, McStepSeed(cs, st))
  }

  function Land16Rule(seed: Seed): AroundRule {
    (x: int, z: int, n: Nine) =>
      var cs := GetChunkSeed(seed.startSeed, x, z);
      if n.c != 0 || (n.nw == 0 && n.ne == 0 && n.sw == 0 && n.se == 0) then
        if n.c != 0 && (n.nw == 0 || n.ne == 0 || n.sw == 0 || n.se == 0) && McFirstIsZero(cs, 5) then
          Sink16(n.c)
        else n.c
      else
        var a := Land16Corner(n.nw, 0, 1, cs, seed.startSalt);
        var b := Land16Corner(n.ne, a.1, a.0, a.2, seed.startSalt);
        var c := Land16Corner(n.sw, b.1, b.0, b.2, seed.startSalt);
        var d := Land16Corner(n.se, c.1, c.0, c.2, seed.startSalt);
        if McFirstIsZero(d.2, 3) then d.0 else Sink16(d.0)
  }

  function Sink16(v: int): int {
    if v == SNOWY_TUNDRA then FROZEN_OCEAN else OCEAN
  }

  function Snow16Rule(seed: Seed): AroundRule {
    (x: int, z: int, n: Nine) =>
      if n.c == OCEAN then n.c
      else if McFirstIsZero(GetChunkSeed(seed.startSeed, x, z), 5) then SNOWY_TUNDRA else PLAINS
  }

  function SnowRule(seed: Seed): AroundRule {
    (x: int, z: int, n: Nine) =>
      if IsShallowOcean(n.c) then n.c
      else
        var r := McFirstInt(GetChunkSeed(seed.startSeed, x, z), 6);
        if r == 0 then FREEZING else if r <= 1 then COLD else WARM
  }

  function CoolRule(): AroundRule {
    (x: int, z: int, n: Nine) => if n.c == WARM && (Cross4(n, COLD) || Cross4(n, FREEZING)) then LUSH else n.c
  }

  function HeatRule(): AroundRule {
    (x: int, z: int, n: Nine) => if n.c == FREEZING && (Cross4(n, WARM) || Cross4(n, LUSH)) then COLD else n.c
  }

  /** Bits 8 to 11. */
  function HighBits(v: int): nat {
    (v / 256) % 16
  }

  function SpecialRule(seed: Seed): PointRule {
    (x: int, z: int, v: int) =>
      var cs := GetChunkSeed(seed.startSeed, x, z);
      if v == OCEAN || !McFirstIsZero(cs, 13) then v
      else
        var k := 1 + McFirstInt(McStepSeed(cs, seed.startSalt), 15);
        v + (Or(HighBits(v), k) - HighBits(v)) * 256
  }

  function MushroomRule(seed: Seed): AroundRule {
    (x: int, z: int, n: Nine) =>
      if n.c == 0 && n.nw == 0 && n.ne == 0 && n.sw == 0 && n.se == 0
         && McFirstIsZero(GetChunkSeed(seed.startSeed, x, z), 100) then MUSHROOM_FIELDS
      else n.c
  }

  function DeepOceanRule(): AroundRule {
    (x: int, z: int, n: Nine) =>
      if !IsShallowOcean(n.c) || !IsShallowOcean(n.n) || !IsShallowOcean(n.e) || !IsShallowOcean(n.w) || !IsShallowOcean(n.s) then n.c
      else if n.c == WARM_OCEAN then DEEP_WARM_OCEAN
      else if n.c == LUKEWARM_OCEAN then DEEP_LUKEWARM_OCEAN
      else if n.c == COLD_OCEAN then DEEP_COLD_OCEAN
      else if n.c == FROZEN_OCEAN then DEEP_FROZEN_OCEAN
      else DEEP_OCEAN
  }

  // ----- biomes

  const WARM_BIOMES := [DESERT, DESERT, DESERT, SAVANNA, SAVANNA, PLAINS]
  const LUSH_BIOMES := [FOREST, DARK_FOREST, MOUNTAINS, PLAINS, BIRCH_FOREST, SWAMP]
  const COLD_BIOMES := [FOREST, MOUNTAINS, TAIGA, PLAINS]
  const SNOW_BIOMES := [SNOWY_TUNDRA, SNOWY_TUNDRA, SNOWY_TUNDRA, SNOWY_TAIGA]
  const OLD_BIOMES := [DESERT, FOREST, MOUNTAINS, SWAMP, PLAINS, TAIGA, JUNGLE]

  function BiomeRule(mc: int, seed: Seed): PointRule {
    (x: int, z: int, v: int) =>
      var id := v - HighBits(v) * 256;
      var cs := GetChunkSeed(seed.startSeed, x, z);
      if mc <= MC_1_6 then
        if id == OCEAN || id == MUSHROOM_FIELDS then id
        else
          var b := OLD_BIOMES[McFirstInt(cs, if mc <= MC_1_1 then 6 else 7)];
          if id != PLAINS && (b != TAIGA || mc <= MC_1_2) then SNOWY_TUNDRA else b
      else if IsOceanic(id) || id == MUSHROOM_FIELDS then id
      else if id == WARM then
        if HighBits(v) != 0 then (if McFirstIsZero(cs, 3) then BADLANDS_PLATEAU else WOODED_BADLANDS_PLATEAU)
        else WARM_BIOMES[McFirstInt(cs, 6)]
      else if id == LUSH then (if HighBits(v) != 0 then JUNGLE else LUSH_BIOMES[McFirstInt(cs, 6)])
      else if id == COLD then (if HighBits(v) != 0 then GIANT_TREE_TAIGA else COLD_BIOMES[McFirstInt(cs, 4)])
      else if id == FREEZING then SNOW_BIOMES[McFirstInt(cs, 4)]
      else MUSHROOM_FIELDS
  }

  function BambooRule(seed: Seed): PointRule {
    (x: int, z: int, v: int) =>
      if v == JUNGLE && McFirstIsZero(GetChunkSeed(seed.startSeed, x, z), 10) then BAMBOO_JUNGLE else v
  }

  /** Whether two biomes are alike in a version; a parameter of the layers that ask. */
  type Similar = (int, int, int) -> bool

  function BiomeEdgeRule(mc: int, similar: Similar): AroundRule {
    (x: int, z: int, n: Nine) =>
      var within := similar(mc, n.n, n.c) && similar(mc, n.e, n.c) && similar(mc, n.w, n.c) && similar(mc, n.s, n.c);
      if n.c == WOODED_BADLANDS_PLATEAU || n.c == BADLANDS_PLATEAU then (if within then n.c else BADLANDS)
      else if n.c == GIANT_TREE_TAIGA then (if within then n.c else TAIGA)
      else if n.c == DESERT then (if Cross4(n, SNOWY_TUNDRA) then WOODED_MOUNTAINS else n.c)
      else if n.c == SWAMP then
        if Cross4(n, DESERT) || Cross4(n, SNOWY_TAIGA) || Cross4(n, SNOWY_TUNDRA) then PLAINS
        else if Cross4(n, JUNGLE) || Cross4(n, BAMBOO_JUNGLE) then JUNGLE_EDGE
        else n.c
      else n.c
  }

  function SunflowerRule(seed: Seed): PointRule {
    (x: int, z: int, v: int) =>
      if v == PLAINS && McFirstIsZero(GetChunkSeed(seed.startSeed, x, z), 57) then SUNFLOWER_PLAINS else v
  }

  function SwampRiverRule(seed: Seed): PointRule {
    (x: int, z: int, v: int) =>
      if v != SWAMP && v != JUNGLE && v != JUNGLE_HILLS then v
      else if McFirstIsZero(GetChunkSeed(seed.startSeed, x, z), if v == SWAMP then 6 else 8) then RIVER else v
  }

  // ----- rivers

  function NoiseRule(mc: int, seed: Seed): PointRule {
    (x: int, z: int, v: int) =>
      if v > 0 then McFirstInt(GetChunkSeed(seed.startSeed, x, z), if mc <= MC_1_6 then 2 else 299999) + 2 else 0
  }

  function ReduceID(id: int): int {
    if id >= 2 then 2 + id % 2 else id
  }

  function RiverRule(mc: int): AroundRule {
    (x: int, z: int, n: Nine) =>
      var id := (v: int) => if mc >= MC_1_7 then ReduceID(v) else v;
      if mc < MC_1_7 && n.c == 0 then RIVER
      else if id(n.c) == id(n.w) && id(n.c) == id(n.n) && id(n.c) == id(n.s) && id(n.c) == id(n.e) then -1
      else RIVER
  }

  // ----- the rules of the biome branch bring no frozen ocean

  lemma SpecialThaws(seed: Seed)
    ensures ThawsPoint(SpecialRule(seed))
  {
    hide Or, GetChunkSeed, McFirstIsZero, McFirstInt, McStepSeed;
    forall x, z, v | !Frozen(v)
      ensures !Frozen(SpecialRule(seed)(x, z, v))
    {
      var k := SpecialRule(seed)(x, z, v) - v;
      assert k % 256 == 0;
    }
  }

  lemma BiomeLists()
    ensures forall k :: 0 <= k < |WARM_BIOMES| ==> 0 <= WARM_BIOMES[k] < 256 && WARM_BIOMES[k] != FROZEN_OCEAN
    ensures forall k :: 0 <= k < |LUSH_BIOMES| ==> 0 <= LUSH_BIOMES[k] < 256 && LUSH_BIOMES[k] != FROZEN_OCEAN
    ensures forall k :: 0 <= k < |COLD_BIOMES| ==> 0 <= COLD_BIOMES[k] < 256 && COLD_BIOMES[k] != FROZEN_OCEAN
    ensures forall k :: 0 <= k < |SNOW_BIOMES| ==> 0 <= SNOW_BIOMES[k] < 256 && SNOW_BIOMES[k] != FROZEN_OCEAN
  {
  }

  lemma BiomeThaws(mc: int, seed: Seed)
    requires mc > MC_1_6
    ensures ThawsPoint(BiomeRule(mc, seed))
  {
    hide GetChunkSeed, McFirstIsZero, HighBits;
    forall x, z, v | !Frozen(v)
      ensures !Frozen(BiomeRule(mc, seed)(x, z, v))
    {
      var id := v - HighBits(v) * 256;
      LowByte(v, HighBits(v));
      BiomeLists();
      if IsOceanic(id) {
        assert BiomeRule(mc, seed)(x, z, v) == id;
      } else {
        var cs := GetChunkSeed(seed.startSeed, x, z);
        var a, b, c, d := WARM_BIOMES[McFirstInt(cs, 6)], LUSH_BIOMES[McFirstInt(cs, 6)], COLD_BIOMES[McFirstInt(cs, 4)], SNOW_BIOMES[McFirstInt(cs, 4)];
        assert !Frozen(a) && !Frozen(b) && !Frozen(c) && !Frozen(d);
      }
    }
  }

  lemma LowByte(v: int, k: nat)
    ensures (v - k * 256) % 256 == v % 256
  {
  }

  lemma PointThaws(seed: Seed)
    ensures ThawsPoint(BambooRule(seed)) && ThawsPoint(SunflowerRule(seed))
  {
    hide GetChunkSeed, McFirstIsZero;
  }

  lemma AroundThaws(seed: Seed, mc: int, similar: Similar)
    ensures ThawsAround(SnowRule(seed)) && ThawsAround(MushroomRule(seed))
    ensures ThawsAround(CoolRule()) && ThawsAround(HeatRule()) && ThawsAround(DeepOceanRule())
    ensures ThawsAround(BiomeEdgeRule(mc, similar))
  {
    hide GetChunkSeed, McFirstIsZero, McFirstInt;
  }
}
