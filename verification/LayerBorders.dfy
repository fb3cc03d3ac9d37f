/** What the rules of the layers make of neighbouring cells: which climates and biomes can meet, what a
    river separates, and where coasts move. */
module LayerBorders {
  import opened Biomes
  import opened Bits
  import opened LayerRng
  import opened LayerRules
  import opened LayerTree
  import opened Remainders

  /** (x', z') is one of the four cells beside (x, z). */
  predicate Beside(x: int, z: int, x': int, z': int) {
    (x' == x && (z' == z - 1 || z' == z + 1)) || (z' == z && (x' == x - 1 || x' == x + 1))
  }

  lemma BesideBack(x: int, z: int, x': int, z': int)
    requires Beside(x, z, x', z')
    ensures Beside(x', z', x, z)
  {
  }

  function NineOf(p: Layer, x: int, z: int): Nine {
    Nine(F(p, x - 1, z - 1), F(p, x, z - 1), F(p, x + 1, z - 1), F(p, x - 1, z), F(p, x, z),
         F(p, x + 1, z), F(p, x - 1, z + 1), F(p, x, z + 1), F(p, x + 1, z + 1))
  }

  /** A layer with a rule applies it to the nine cells around, and the cells beside are among its cross. */
  lemma Ruled(rule: AroundRule, p: Layer, x: int, z: int)
    ensures F(Around(rule, p), x, z) == rule(x, z, NineOf(p, x, z)) && NineOf(p, x, z).c == F(p, x, z)
    ensures forall x', z' :: Beside(x, z, x', z') ==> Cross4(NineOf(p, x, z), F(p, x', z'))
  {
  }

  // ----- climates

  /** The cool layer leaves nothing warm beside cold or freezing land. */
  lemma CoolApart(p: Layer, x: int, z: int, x': int, z': int)
    requires Beside(x, z, x', z') && F(Around(CoolRule(), p), x, z) == WARM
    ensures F(Around(CoolRule(), p), x', z') != COLD && F(Around(CoolRule(), p), x', z') != FREEZING
  {
    hide F, Beside;
    Ruled(CoolRule(), p, x, z);
    Ruled(CoolRule(), p, x', z');
    assert Cross4(NineOf(p, x, z), F(p, x', z'));
  }

  /** Nor does the heat layer after it, and it leaves nothing freezing beside warm or lush land: neighbouring
      climates are at most one step apart. */
  lemma ClimatesApart(p: Layer, x: int, z: int, x': int, z': int)
    requires Beside(x, z, x', z')
    ensures var l := Around(HeatRule(), Around(CoolRule(), p));
            && (F(l, x, z) == WARM ==> F(l, x', z') != COLD && F(l, x', z') != FREEZING)
            && (F(l, x, z) == LUSH ==> F(l, x', z') != FREEZING)
  {
    hide CoolRule, HeatRule, F;
    var c := Around(CoolRule(), p);
    var l := Around(HeatRule(), c);
    BesideBack(x, z, x', z');
    if F(c, x, z) == WARM {
      CoolApart(p, x, z, x', z');
    }
    HeatKeeps(c, x, z);
    HeatKeeps(c, x', z');
    if F(l, x', z') == FREEZING {
      HeatApart(c, x', z', x, z);
    }
  }

  lemma HeatKeeps(c: Layer, x: int, z: int)
    ensures var l := Around(HeatRule(), c); F(l, x, z) == F(c, x, z) || (F(c, x, z) == FREEZING && F(l, x, z) == COLD)
  {
    hide F;
    Ruled(HeatRule(), c, x, z);
  }

  lemma HeatApart(c: Layer, x: int, z: int, x': int, z': int)
    requires Beside(x, z, x', z') && F(Around(HeatRule(), c), x, z) == FREEZING
    ensures F(c, x', z') != WARM && F(c, x', z') != LUSH
  {
    hide F, Beside;
    Ruled(HeatRule(), c, x, z);
    assert Cross4(NineOf(c, x, z), F(c, x', z'));
  }

  // ----- biomes

  /** Biomes that the edge layer keeps apart. */
  predicate Clash(a: int, b: int) {
    || (a == DESERT && b == SNOWY_TUNDRA)
    || (a == SWAMP && (b == DESERT || b == SNOWY_TAIGA || b == SNOWY_TUNDRA || b == JUNGLE || b == BAMBOO_JUNGLE))
  }

  /** In no version does a desert touch snowy tundra, or a swamp desert, snow or jungle, above the edge layer. */
  lemma BiomesApart(mc: int, similar: Similar, p: Layer, x: int, z: int, x': int, z': int)
    requires Beside(x, z, x', z')
    ensures var l := Around(BiomeEdgeRule(mc, similar), p); !Clash(F(l, x, z), F(l, x', z'))
  {
    EdgeKeeps(mc, similar, p, x, z);
    EdgeKeeps(mc, similar, p, x', z');
    EdgeApart(mc, similar, p, x, z, x', z');
  }

  /** The edge layer makes none of the biomes that it keeps apart. */
  lemma EdgeKeeps(mc: int, similar: Similar, p: Layer, x: int, z: int)
    ensures var v := F(Around(BiomeEdgeRule(mc, similar), p), x, z);
            v == F(p, x, z) || v in [BADLANDS, TAIGA, WOODED_MOUNTAINS, PLAINS, JUNGLE_EDGE]
  {
    hide F;
    Ruled(BiomeEdgeRule(mc, similar), p, x, z);
  }

  lemma EdgeApart(mc: int, similar: Similar, p: Layer, x: int, z: int, x': int, z': int)
    requires Beside(x, z, x', z')
    ensures !Clash(F(Around(BiomeEdgeRule(mc, similar), p), x, z), F(p, x', z'))
  {
    hide F, Beside, BiomeEdgeRule, Clash;
    Ruled(BiomeEdgeRule(mc, similar), p, x, z);
    EdgeRuleApart(mc, similar, x, z, NineOf(p, x, z), F(p, x', z'));
  }

  lemma EdgeRuleApart(mc: int, similar: Similar, x: int, z: int, n: Nine, v: int)
    requires Cross4(n, v)
    ensures !Clash(BiomeEdgeRule(mc, similar)(x, z, n), v)
  {
  }

  /** Plateaus and giant taigas that are left border on nothing that is not alike. */
  lemma EdgeAlike(mc: int, similar: Similar, p: Layer, x: int, z: int, x': int, z': int)
    requires Beside(x, z, x', z')
    requires F(Around(BiomeEdgeRule(mc, similar), p), x, z) in [WOODED_BADLANDS_PLATEAU, BADLANDS_PLATEAU, GIANT_TREE_TAIGA]
    ensures similar(mc, F(p, x', z'), F(p, x, z))
  {
    hide F, Beside, BiomeEdgeRule;
    Ruled(BiomeEdgeRule(mc, similar), p, x, z);
    EdgeRuleAlike(mc, similar, x, z, NineOf(p, x, z), F(p, x', z'));
  }

  lemma EdgeRuleAlike(mc: int, similar: Similar, x: int, z: int, n: Nine, v: int)
    requires Cross4(n, v)
    requires BiomeEdgeRule(mc, similar)(x, z, n) in [WOODED_BADLANDS_PLATEAU, BADLANDS_PLATEAU, GIANT_TREE_TAIGA]
    ensures similar(mc, v, n.c)
  {
  }

  /** A deep ocean that was none before has ocean on all sides. */
  lemma DeepInside(p: Layer, x: int, z: int, x': int, z': int)
    requires Beside(x, z, x', z') && F(Around(DeepOceanRule(), p), x, z) != F(p, x, z)
    ensures IsDeepOcean(F(Around(DeepOceanRule(), p), x, z))
    ensures IsShallowOcean(F(p, x, z)) && IsShallowOcean(F(p, x', z')) && IsOceanic(F(Around(DeepOceanRule(), p), x', z'))
  {
  }

  // ----- rivers

  function Category(mc: int, v: int): int {
    if mc >= MC_1_7 then ReduceID(v) else v
  }

  /** Two neighbouring cells without a river come from noise of one category, and every cell where two
      categories meet is a river: rivers are exactly the borders, and up to 1.6 the sea besides. */
  lemma RiversSeparate(mc: int, p: Layer, x: int, z: int)
    ensures var l := Around(RiverRule(mc), p);
            F(l, x, z) != RIVER
            <==> !(mc < MC_1_7 && F(p, x, z) == 0)
                 && forall x', z' :: Beside(x, z, x', z') ==> Category(mc, F(p, x', z')) == Category(mc, F(p, x, z))
  {
    hide F, RiverRule, Category;
    var n := NineOf(p, x, z);
    Ruled(RiverRule(mc), p, x, z);
    RiverRuleMeans(mc, x, z, n);
    assert Beside(x, z, x - 1, z) && Beside(x, z, x, z - 1) && Beside(x, z, x, z + 1) && Beside(x, z, x + 1, z);
  }

  lemma RiverRuleMeans(mc: int, x: int, z: int, n: Nine)
    ensures RiverRule(mc)(x, z, n) != RIVER
            <==> !(mc < MC_1_7 && n.c == 0)
                 && Category(mc, n.w) == Category(mc, n.c) && Category(mc, n.n) == Category(mc, n.c)
                 && Category(mc, n.s) == Category(mc, n.c) && Category(mc, n.e) == Category(mc, n.c)
  {
  }

  // ----- coasts

  predicate Corner(dx: int, dz: int) {
    (dx == -1 || dx == 1) && (dz == -1 || dz == 1)
  }

  /** Mushroom islands come up in the open sea only. */
  lemma MushroomsAtSea(seed: Seed, p: Layer, x: int, z: int)
    requires F(Around(MushroomRule(seed), p), x, z) != F(p, x, z)
    ensures F(Around(MushroomRule(seed), p), x, z) == MUSHROOM_FIELDS && F(p, x, z) == OCEAN
    ensures forall dx, dz :: Corner(dx, dz) ==> F(p, x + dx, z + dz) == OCEAN
  {
  }

  /** The land layers of all versions change coasts only: a cell of whose diagonal neighbours none differs from it in
      being sea stays as it is. */
  lemma CoastsMove(seed: Seed, p: Layer, x: int, z: int)
    requires forall dx, dz :: Corner(dx, dz) ==> (F(p, x + dx, z + dz) == OCEAN <==> F(p, x, z) == OCEAN)
    ensures F(Land(seed, p), x, z) == F(p, x, z) && F(Around(Land16Rule(seed), p), x, z) == F(p, x, z)
  {
    CornersOf(p, x, z);
    LandIs(seed, p, x, z);
    hide F, Corner, LandCell, Land16Rule;
    var n := NineOf(p, x, z);
    Ruled(Land16Rule(seed), p, x, z);
    LandKeeps(seed, x, z, n);
    Land16Keeps(seed, x, z, n);
  }

  /** All corners are sea if the middle is, and land if it is land. */
  predicate SeaKept(n: Nine) {
    && (n.nw == OCEAN <==> n.c == OCEAN) && (n.ne == OCEAN <==> n.c == OCEAN)
    && (n.sw == OCEAN <==> n.c == OCEAN) && (n.se == OCEAN <==> n.c == OCEAN)
  }

  lemma CornersOf(p: Layer, x: int, z: int)
    requires forall dx, dz :: Corner(dx, dz) ==> (F(p, x + dx, z + dz) == OCEAN <==> F(p, x, z) == OCEAN)
    ensures SeaKept(NineOf(p, x, z))
  {
    hide F;
    assert Corner(-1, -1) && Corner(-1, 1) && Corner(1, -1) && Corner(1, 1);
  }

  lemma LandIs(seed: Seed, p: Layer, x: int, z: int)
    ensures var n := NineOf(p, x, z); F(Land(seed, p), x, z) == LandCell(seed, x, z, n.c, n.nw, n.ne, n.sw, n.se)
  {
    hide LandCell;
  }

  lemma LandKeeps(seed: Seed, x: int, z: int, n: Nine)
    requires SeaKept(n)
    ensures LandCell(seed, x, z, n.c, n.nw, n.ne, n.sw, n.se) == n.c
  {
    hide GetChunkSeed, McFirstIsZero, LandCorner;
  }

  lemma Land16Keeps(seed: Seed, x: int, z: int, n: Nine)
    requires SeaKept(n)
    ensures Land16Rule(seed)(x, z, n) == n.c
  {
    hide GetChunkSeed, McFirstIsZero, Land16Corner;
  }

  /** The same for Beta 1.8, whose land is all 1. */
  lemma CoastsMoveB18(seed: Seed, p: Layer, x: int, z: int)
    requires F(p, x, z) == 0 || F(p, x, z) == 1
    requires forall dx, dz :: Corner(dx, dz) ==> F(p, x + dx, z + dz) == F(p, x, z)
    ensures F(Around(LandB18Rule(seed), p), x, z) == F(p, x, z)
  {
    hide F, GetChunkSeed, McFirstInt;
    Ruled(LandB18Rule(seed), p, x, z);
    assert Corner(-1, -1) && Corner(-1, 1) && Corner(1, -1) && Corner(1, 1);
  }

  /** Snow falls on land: the sea stays, and land gets a climate, or in old versions snow or plains. */
  lemma SnowOnLand(seed: Seed, p: Layer, x: int, z: int)
    ensures IsShallowOcean(F(p, x, z)) ==> F(Around(SnowRule(seed), p), x, z) == F(p, x, z)
    ensures !IsShallowOcean(F(p, x, z)) ==> F(Around(SnowRule(seed), p), x, z) in [WARM, COLD, FREEZING]
    ensures F(p, x, z) == OCEAN <==> F(Around(Snow16Rule(seed), p), x, z) == OCEAN
  {
    hide GetChunkSeed, McFirstInt, McFirstIsZero;
  }

  /** Marked land keeps all else that it is, and its mark is a number from 1 to 15. */
  lemma SpecialMarks(seed: Seed, x: int, z: int, v: int)
    requires HighBits(v) == 0
    ensures var u := SpecialRule(seed)(x, z, v); u == v || (v != OCEAN && 1 <= HighBits(u) <= 15 && u == v + 256 * HighBits(u))
  {
    hide GetChunkSeed, McFirstIsZero, McStepSeed;
    var cs := GetChunkSeed(seed.startSeed, x, z);
    var k := 1 + McFirstInt(McStepSeed(cs, seed.startSalt), 15);
    OrNothing(k);
    MarkedBits(v, k);
  }

  lemma {:induction false} OrNothing(k: nat)
    ensures Or(0, k) == k
  {
    if k > 0 {
      OrNothing(k / 2);
    }
  }

  lemma MarkedBits(v: int, k: nat)
    requires HighBits(v) == 0 && k < 16
    ensures HighBits(v + 256 * k) == k
  {
    var q, r := v / 256, v % 256;
    ModUnique(q + k, r, 256);
    ModUnique(q / 16, k, 16);
  }

  /** The biomes of each climate after 1.6, marked or not; the sea and mushroom fields stay. */
  lemma BiomesByClimate(mc: int, seed: Seed, x: int, z: int, v: int)
    requires mc > MC_1_6 && 0 <= v
    ensures var b, id, marked := BiomeRule(mc, seed)(x, z, v), v - HighBits(v) * 256, HighBits(v) != 0;
            && (IsOceanic(id) || id == MUSHROOM_FIELDS ==> b == id)
            && (id == WARM ==> b in if marked then [BADLANDS_PLATEAU, WOODED_BADLANDS_PLATEAU] else [DESERT, SAVANNA, PLAINS])
            && (id == LUSH ==> b in if marked then [JUNGLE] else [FOREST, DARK_FOREST, MOUNTAINS, PLAINS, BIRCH_FOREST, SWAMP])
            && (id == COLD ==> b in if marked then [GIANT_TREE_TAIGA] else [FOREST, MOUNTAINS, TAIGA, PLAINS])
            && (id == FREEZING ==> b in [SNOWY_TUNDRA, SNOWY_TAIGA])
  {
    hide GetChunkSeed, McFirstIsZero, HighBits, McFirstInt;
    var cs := GetChunkSeed(seed.startSeed, x, z);
    var r4, r6 := McFirstInt(cs, 4), McFirstInt(cs, 6);
    assert WARM_BIOMES[r6] in [DESERT, SAVANNA, PLAINS];
    assert LUSH_BIOMES[r6] in [FOREST, DARK_FOREST, MOUNTAINS, PLAINS, BIRCH_FOREST, SWAMP];
    assert COLD_BIOMES[r4] in [FOREST, MOUNTAINS, TAIGA, PLAINS];
    assert SNOW_BIOMES[r4] in [SNOWY_TUNDRA, SNOWY_TAIGA];
  }

  /** mapBamboo, mapSunflower and mapSwampRiver change jungle, plains, and swamps and jungles only. */
  lemma FewChanges(seed: Seed, x: int, z: int, v: int)
    ensures BambooRule(seed)(x, z, v) != v ==> v == JUNGLE && BambooRule(seed)(x, z, v) == BAMBOO_JUNGLE
    ensures SunflowerRule(seed)(x, z, v) != v ==> v == PLAINS && SunflowerRule(seed)(x, z, v) == SUNFLOWER_PLAINS
    ensures SwampRiverRule(seed)(x, z, v) != v ==> v in [SWAMP, JUNGLE, JUNGLE_HILLS] && SwampRiverRule(seed)(x, z, v) == RIVER
  {
    hide GetChunkSeed, McFirstIsZero;
  }

  /** The noise of rivers and hills is positive exactly on land. */
  lemma NoiseOnLand(mc: int, seed: Seed, p: Layer, x: int, z: int)
    ensures F(Point(0, NoiseRule(mc, seed), p), x, z) > 0 <==> F(p, x, z) > 0
  {
    hide GetChunkSeed, McFirstInt;
    var r := McFirstInt(GetChunkSeed(seed.startSeed, x, z), if mc <= MC_1_6 then 2 else 299999);
    assert F(Point(0, NoiseRule(mc, seed), p), x, z) == NoiseRule(mc, seed)(x, z, F(p, x, z));
  }
}
