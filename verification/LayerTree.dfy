/** The layered biome generator as what it means: every layer is a plain function `F` of
    world coordinates, defined from its parents' functions. */
module LayerTree {
  import opened Biomes
  import opened LayerRng
  import opened LayerRules

  datatype Layer =
    | Continent(seed: Seed)
    | OceanTemp(noise: (int, int) -> real)
    | ZoomFuzzy(seed: Seed, p: Layer)
    | Zoom(seed: Seed, p: Layer)
    | Land(seed: Seed, p: Layer)
    | Island(seed: Seed, p: Layer)
    | Smooth(seed: Seed, p: Layer)
    | Shore(mc: int, p: Layer)
    | Point(edge: nat, point: PointRule, p: Layer)
    | Around(around: AroundRule, p: Layer)
    | Hills(mc: int, seed: Seed, similar: Similar, p: Layer, p2: Layer)
    | RiverMix(mc: int, p: Layer, p2: Layer)
    | OceanMix(p: Layer, p2: Layer)

  // ----- one cell of each layer, from the parent cells it depends on

  function ContinentCell(seed: Seed, x: int, z: int): int {
    if x == 0 && z == 0 then 1
    else if McFirstIsZero(GetChunkSeed(seed.startSeed, x, z), 10) then 1 else 0
  }

  function OceanTempCell(t: real): int {
    if t > 0.4 then WARM_OCEAN
    else if t > 0.2 then LUKEWARM_OCEAN
    else if t < -0.4 then FROZEN_OCEAN
    else if t < -0.2 then COLD_OCEAN
    else OCEAN
  }

  function Pick4(r: nat, v00: int, v01: int, v10: int, v11: int): int {
    if r == 0 then v00 else if r == 1 then v10 else if r == 2 then v01 else v11
  }

  function Same(a: int, b: int): nat {
    if a == b then 1 else 0
  }

  function Select4(cs: nat, st: nat, v00: int, v01: int, v10: int, v11: int): int {
    var cv00 := Same(v00, v10) + Same(v00, v01) + Same(v00, v11);
    var cv10 := Same(v10, v01) + Same(v10, v11);
    var cv01 := Same(v01, v11);
    if cv00 > cv10 && cv00 > cv01 then v00
    else if cv10 > cv00 then v10
    else if cv01 > cv00 then v01
    else Pick4(Draw4(ZoomStep(cs, st)), v00, v01, v10, v11)
  }

  /** The bottom-right cell of a zoomed block: any of the four in the fuzzy zoom, the
      most frequent one otherwise. */
  function ZoomCorner(fuzzy: bool, cs: nat, st: nat, v00: int, v01: int, v10: int, v11: int): int {
    if fuzzy then Pick4(Draw4(ZoomStep(cs, st)), v00, v01, v10, v11)
    else Select4(cs, st, v00, v01, v10, v11)
  }

  function ZoomLeft(seed: Seed, bx: int, bz: int, v00: int, v01: int): int {
    if Draw2(ZoomSeed(seed, bx, bz)) == 1 then v01 else v00
  }

  function ZoomTop(seed: Seed, bx: int, bz: int, v00: int, v10: int): int {
    if Draw2(ZoomStep(ZoomSeed(seed, bx, bz), seed.startSalt)) == 1 then v10 else v00
  }

  function ZoomInner(fuzzy: bool, seed: Seed, bx: int, bz: int, v00: int, v01: int, v10: int, v11: int): int {
    ZoomCorner(fuzzy, ZoomStep(ZoomSeed(seed, bx, bz), seed.startSalt), seed.startSalt, v00, v01, v10, v11)
  }

  /** The corner that survives of those that are not ocean: the n-th non-ocean corner
      replaces the earlier choice with probability 1/n. Returns the choice and the seed. */
  function LandCorner(corners: seq<int>, inc: nat, v: int, cs: nat, st: nat): (int, nat)
    decreases |corners|
  {
    if corners == [] then (v, cs)
    else if corners[0] == OCEAN then LandCorner(corners[1..], inc, v, cs, st)
    else
      LandCorner(corners[1..], inc + 1, if McFirstIsZero(cs, inc + 1) then corners[0] else v, McStepSeed(cs, st), st)
  }

  function LandCell(seed: Seed, x: int, z: int, v11: int, v00: int, v20: int, v02: int, v22: int): int {
    var cs := GetChunkSeed(seed.startSeed, x, z);
    var corners := [v00, v20, v02, v22];
    if v11 == OCEAN then
      if forall c | c in corners :: c == OCEAN then OCEAN
      else
        var (v, cs') := LandCorner(corners, 0, 1, cs, seed.startSalt);
        if v == FOREST || McFirstIsZero(cs', 3) then v else OCEAN
    else if v11 == FOREST then FOREST
    else if (exists c | c in corners :: c == OCEAN) && McFirstIsZero(cs, 5) then OCEAN
    else v11
  }

  function IslandCell(seed: Seed, x: int, z: int, v11: int, v10: int, v21: int, v01: int, v12: int): int {
    if v11 == v10 == v21 == v01 == v12 == OCEAN && McFirstIsZero(GetChunkSeed(seed.startSeed, x, z), 2) then 1
    else v11
  }

  function SmoothCell(seed: Seed, x: int, z: int, v11: int, v10: int, v21: int, v01: int, v12: int): int {
    if v01 == v21 && v10 == v12 then
      if v01 == v10 then v01
      else if Bit24(GetChunkSeed(seed.startSeed, x, z)) then v10 else v01
    else if v10 == v12 then v10
    else if v01 == v21 then v01
    else v11
  }

  function ShoreCell(mc: int, v11: int, v10: int, v21: int, v01: int, v12: int): int {
    var around := [v10, v21, v01, v12];
    var byOcean := exists v | v in around :: v == OCEAN;
    var bySea := exists v | v in around :: IsOceanic(v);
    if v11 == MUSHROOM_FIELDS then
      if byOcean then MUSHROOM_FIELD_SHORE else v11
    else if mc <= MC_1_0 then v11
    else if mc <= MC_1_6 then
      if v11 == MOUNTAINS then
        if exists v | v in around :: v != MOUNTAINS then MOUNTAIN_EDGE else v11
      else if v11 != OCEAN && v11 != RIVER && v11 != SWAMP && byOcean then BEACH
      else v11
    else if IsJungle(v11) then
      if forall v | v in around :: IsJungle(v) || v == FOREST || v == TAIGA || IsOceanic(v) then
        if bySea then BEACH else v11
      else JUNGLE_EDGE
    else if v11 == MOUNTAINS || v11 == WOODED_MOUNTAINS then
      if bySea then STONE_SHORE else v11
    else if IsSnowy(v11) then
      if bySea then SNOWY_BEACH else v11
    else if v11 == BADLANDS || v11 == WOODED_BADLANDS_PLATEAU then
      if !bySea && exists v | v in around :: !IsMesa(v) then DESERT else v11
    else if v11 != OCEAN && v11 != DEEP_OCEAN && v11 != RIVER && v11 != SWAMP && bySea then BEACH
    else v11
  }

  /** The one cell that mapShore does not write. */
  predicate ShoreSkips(mc: int, v11: int) {
    mc > MC_1_6 && v11 == FROZEN_OCEAN
  }

  /** The hill that a biome may turn into, before mutation. */
  function HillOf(similar: Similar, mc: int, cs: nat, st: nat, v: int): int {
    if v == DESERT then DESERT_HILLS
    else if v == FOREST then WOODED_HILLS
    else if v == BIRCH_FOREST then BIRCH_FOREST_HILLS
    else if v == DARK_FOREST then PLAINS
    else if v == TAIGA then TAIGA_HILLS
    else if v == GIANT_TREE_TAIGA then GIANT_TREE_TAIGA_HILLS
    else if v == SNOWY_TAIGA then SNOWY_TAIGA_HILLS
    else if v == PLAINS then
      if mc > MC_1_6 && McFirstIsZero(McStepSeed(cs, st), 3) then WOODED_HILLS else FOREST
    else if v == SNOWY_TUNDRA then SNOWY_MOUNTAINS
    else if v == JUNGLE then JUNGLE_HILLS
    else if v == BAMBOO_JUNGLE then BAMBOO_JUNGLE_HILLS
    else if v == OCEAN then (if mc >= MC_1_7 then DEEP_OCEAN else v)
    else if v == MOUNTAINS then (if mc >= MC_1_7 then WOODED_MOUNTAINS else v)
    else if v == SAVANNA then SAVANNA_PLATEAU
    else if similar(mc, v, WOODED_BADLANDS_PLATEAU) then BADLANDS
    else if IsDeepOcean(v) && McFirstIsZero(McStepSeed(cs, st), 3) then
      if McFirstIsZero(McStepSeed(McStepSeed(cs, st), st), 2) then PLAINS else FOREST
    else v
  }

  function SimilarCount(similar: Similar, mc: int, v: int, around: seq<int>): nat {
    if around == [] then 0
    else (if similar(mc, around[0], v) then 1 else 0) + SimilarCount(similar, mc, v, around[1..])
  }

  /** A cell of the hills layer, from the biome branch around it and the river branch at it. */
  function HillsCell(similar: Similar, mc: int, seed: Seed, x: int, z: int, v11: int, v10: int, v21: int, v01: int, v12: int, r: int): int {
    var variant := mc >= MC_1_7 && r >= 2 && (r - 2) % 29 == 1;
    var hilly := mc >= MC_1_7 && (r - 2) % 29 == 0;
    if variant && !IsShallowOcean(v11) then
      if GetMutated(mc, v11) > 0 then GetMutated(mc, v11) else v11
    else
      var cs := GetChunkSeed(seed.startSeed, x, z);
      if !hilly && !McFirstIsZero(cs, 3) then v11
      else
        var hill := HillOf(similar, mc, cs, seed.startSalt, v11);
        var final := if hilly && hill != v11 then
                       (if GetMutated(mc, hill) < 0 then v11 else GetMutated(mc, hill))
                     else hill;
        var needed := if mc <= MC_1_6 then 4 else 3;
        if SimilarCount(similar, mc, v11, [v10, v21, v01, v12]) >= needed then final else v11
  }

  function RiverMixCell(mc: int, v: int, river: int): int {
    if river == RIVER && v != OCEAN && (mc <= MC_1_6 || !IsOceanic(v)) then
      if v == SNOWY_TUNDRA then FROZEN_RIVER
      else if v == MUSHROOM_FIELDS || v == MUSHROOM_FIELD_SHORE then MUSHROOM_FIELD_SHORE
      else RIVER
    else v
  }

  predicate Extreme(ocean: int) {
    ocean == WARM_OCEAN || ocean == FROZEN_OCEAN
  }

  function DeepVariant(land: int, ocean: int): int {
    if land != DEEP_OCEAN then ocean
    else if ocean == LUKEWARM_OCEAN then DEEP_LUKEWARM_OCEAN
    else if ocean == OCEAN then DEEP_OCEAN
    else if ocean == COLD_OCEAN then DEEP_COLD_OCEAN
    else if ocean == FROZEN_OCEAN then DEEP_FROZEN_OCEAN
    else ocean
  }

  /** Some land cell of the five by five grid of step 4 around (x, z) is not oceanic. */
  predicate LandNear(p: Layer, x: int, z: int)
    decreases p, 1
  {
    exists a, b | 0 <= a < 5 && 0 <= b < 5 :: !IsOceanic(Near(p, x, z, a, b))
  }

  function Near(p: Layer, x: int, z: int, a: int, b: int): int
    decreases p, 0, 1
  {
    F(p, x - 8 + 4 * a, z - 8 + 4 * b)
  }

  /** What a layer means at a world cell. */
  function F(l: Layer, x: int, z: int): int
    decreases l, 0, 0
  {
    match l
    case Continent(seed) => ContinentCell(seed, x, z)
    case OceanTemp(noise) => OceanTempCell(noise(x, z))
    case ZoomFuzzy(seed, p) => ZoomAt(true, seed, p, x, z)
    case Zoom(seed, p) => ZoomAt(false, seed, p, x, z)
    case Land(seed, p) =>
      LandCell(seed, x, z, F(p, x, z), F(p, x - 1, z - 1), F(p, x + 1, z - 1), F(p, x - 1, z + 1), F(p, x + 1, z + 1))
    case Island(seed, p) =>
      IslandCell(seed, x, z, F(p, x, z), F(p, x, z - 1), F(p, x + 1, z), F(p, x - 1, z), F(p, x, z + 1))
    case Smooth(seed, p) =>
      SmoothCell(seed, x, z, F(p, x, z), F(p, x, z - 1), F(p, x + 1, z), F(p, x - 1, z), F(p, x, z + 1))
    case Shore(mc, p) =>
      ShoreCell(mc, F(p, x, z), F(p, x, z - 1), F(p, x + 1, z), F(p, x - 1, z), F(p, x, z + 1))
    case Point(_, point, p) => point(x, z, F(p, x, z))
    case Around(around, p) => around(x, z, Nine(F(p, x - 1, z - 1), F(p, x, z - 1), F(p, x + 1, z - 1), F(p, x - 1, z), F(p, x, z),
                                                  F(p, x + 1, z), F(p, x - 1, z + 1), F(p, x, z + 1), F(p, x + 1, z + 1)))
    case Hills(mc, seed, similar, p, p2) =>
      HillsCell(similar, mc, seed, x, z, F(p, x, z), F(p, x, z - 1), F(p, x + 1, z), F(p, x - 1, z), F(p, x, z + 1), F(p2, x, z))
    case RiverMix(mc, p, p2) => RiverMixCell(mc, F(p, x, z), F(p2, x, z))
    case OceanMix(p, p2) =>
      var land, ocean := F(p, x, z), F(p2, x, z);
      if !IsOceanic(land) then land
      else if Extreme(ocean) && LandNear(p, x, z) then
        if ocean == WARM_OCEAN then LUKEWARM_OCEAN else COLD_OCEAN
      else DeepVariant(land, ocean)
  }

  /** The cell of a zoomed block: top-left is kept, the others are drawn. */
  function ZoomAt(fuzzy: bool, seed: Seed, p: Layer, x: int, z: int): int
    decreases p, 1
  {
    var px, pz := x / 2, z / 2;
    var bx, bz := 2 * px, 2 * pz;
    var v00, v10 := F(p, px, pz), F(p, px + 1, pz);
    var v01, v11 := F(p, px, pz + 1), F(p, px + 1, pz + 1);
    if x == bx && z == bz then v00
    else if x == bx then ZoomLeft(seed, bx, bz, v00, v01)
    else if z == bz then ZoomTop(seed, bx, bz, v00, v10)
    else ZoomInner(fuzzy, seed, bx, bz, v00, v01, v10, v11)
  }

  function Meaning(l: Layer): (int, int) -> int {
    (x: int, z: int) => F(l, x, z)
  }

  /** No mapShore in the tree ever meets the cell it leaves unwritten. */
  ghost predicate ShoreSafe(l: Layer) {
    match l
    case Continent(_) => true
    case OceanTemp(_) => true
    case Shore(mc, p) => ShoreSafe(p) && forall x, z :: !ShoreSkips(mc, F(p, x, z))
    case Hills(_, _, _, p, p2) => ShoreSafe(p) && ShoreSafe(p2)
    case RiverMix(_, p, p2) => ShoreSafe(p) && ShoreSafe(p2)
    case OceanMix(p, p2) => ShoreSafe(p) && ShoreSafe(p2)
    case _ => ShoreSafe(l.p)
  }

  /** No frozen ocean can come out of the layer: there is no ocean type under it, and its rules make none. */
  ghost predicate Thawed(l: Layer) {
    match l
    case Continent(_) => true
    case OceanTemp(_) => false
    case Point(_, point, p) => ThawsPoint(point) && Thawed(p)
    case Around(around, p) => ThawsAround(around) && Thawed(p)
    case RiverMix(_, p, _) => Thawed(p)
    case OceanMix(_, _) => false
    case _ => Thawed(l.p)
  }

  lemma {:induction false} ThawedNeverFrozen(l: Layer, x: int, z: int)
    requires Thawed(l)
    ensures !Frozen(F(l, x, z))
    decreases l
  {
    hide ThawsPoint, ThawsAround, LandCell, IslandCell, SmoothCell, ShoreCell, HillsCell, Frozen, ZoomAt, RiverMixCell;
    if l.Continent? {
      ContinentThaws(l.seed, x, z);
    } else if l.ZoomFuzzy? || l.Zoom? {
      ZoomThaws(l, l.ZoomFuzzy?, l.seed, x, z);
    } else if l.Point? {
      ThawedNeverFrozen(l.p, x, z);
      PointThaw(l.point, x, z, F(l.p, x, z));
    } else if l.RiverMix? {
      ThawedNeverFrozen(l.p, x, z);
      RiverMixThaws(l.mc, F(l.p, x, z), F(l.p2, x, z));
    } else if l.Land? || l.Island? || l.Smooth? || l.Shore? || l.Around? || l.Hills? {
      ThawedNeverFrozen(l.p, x - 1, z - 1);
      ThawedNeverFrozen(l.p, x, z - 1);
      ThawedNeverFrozen(l.p, x + 1, z - 1);
      ThawedNeverFrozen(l.p, x - 1, z);
      ThawedNeverFrozen(l.p, x, z);
      ThawedNeverFrozen(l.p, x + 1, z);
      ThawedNeverFrozen(l.p, x - 1, z + 1);
      ThawedNeverFrozen(l.p, x, z + 1);
      ThawedNeverFrozen(l.p, x + 1, z + 1);
      NineThaws(l, x, z);
    }
  }

  lemma ContinentThaws(seed: Seed, x: int, z: int)
    ensures !Frozen(ContinentCell(seed, x, z))
  {
  }

  lemma PointThaw(point: PointRule, x: int, z: int, v: int)
    requires ThawsPoint(point) && !Frozen(v)
    ensures !Frozen(point(x, z, v))
  {
    hide Frozen;
  }

  lemma RiverMixThaws(mc: int, v: int, river: int)
    requires !Frozen(v)
    ensures !Frozen(RiverMixCell(mc, v, river))
  {
  }

  lemma ZoomThaws(l: Layer, fuzzy: bool, seed: Seed, x: int, z: int)
    requires (l.ZoomFuzzy? || l.Zoom?) && Thawed(l)
    ensures !Frozen(ZoomAt(fuzzy, seed, l.p, x, z))
    decreases l, 0
  {
    hide Frozen, ZoomSeed, ZoomStep, Draw2, Draw4;
    var px, pz := x / 2, z / 2;
    ThawedNeverFrozen(l.p, px, pz);
    ThawedNeverFrozen(l.p, px + 1, pz);
    ThawedNeverFrozen(l.p, px, pz + 1);
    ThawedNeverFrozen(l.p, px + 1, pz + 1);
  }

  /** Of nine cells without frozen ocean no layer makes one. */
  lemma NineThaws(l: Layer, x: int, z: int)
    requires (l.Land? || l.Island? || l.Smooth? || l.Shore? || l.Around? || l.Hills?) && Thawed(l)
    requires NoneFrozen(Nine(F(l.p, x - 1, z - 1), F(l.p, x, z - 1), F(l.p, x + 1, z - 1), F(l.p, x - 1, z), F(l.p, x, z),
                             F(l.p, x + 1, z), F(l.p, x - 1, z + 1), F(l.p, x, z + 1), F(l.p, x + 1, z + 1)))
    ensures !Frozen(F(l, x, z))
  {
    hide GetChunkSeed, McFirstIsZero, McStepSeed, Bit24;
    match l
    case Land(seed, p) =>
      LandThaws(seed, x, z, F(p, x, z), F(p, x - 1, z - 1), F(p, x + 1, z - 1), F(p, x - 1, z + 1), F(p, x + 1, z + 1));
    case Island(_, _) =>
    case Smooth(_, _) =>
    case Shore(mc, p) => ShoreThaws(mc, F(p, x, z), F(p, x, z - 1), F(p, x + 1, z), F(p, x - 1, z), F(p, x, z + 1));
    case Around(_, _) =>
    case Hills(mc, seed, similar, p, p2) =>
      HillsThaws(similar, mc, seed, x, z, F(p, x, z), F(p, x, z - 1), F(p, x + 1, z), F(p, x - 1, z), F(p, x, z + 1), F(p2, x, z));
  }

  lemma {:induction false} CornersThaw(corners: seq<int>, inc: nat, v: int, cs: nat, st: nat)
    requires !Frozen(v) && forall c :: c in corners ==> !Frozen(c)
    ensures !Frozen(LandCorner(corners, inc, v, cs, st).0)
    decreases |corners|
  {
    hide Frozen, McFirstIsZero, McStepSeed;
    if corners != [] {
      CornersThaw(corners[1..], inc, v, cs, st);
      CornersThaw(corners[1..], inc + 1, v, McStepSeed(cs, st), st);
      CornersThaw(corners[1..], inc + 1, corners[0], McStepSeed(cs, st), st);
    }
  }

  lemma LandThaws(seed: Seed, x: int, z: int, v11: int, v00: int, v20: int, v02: int, v22: int)
    requires !Frozen(v11) && !Frozen(v00) && !Frozen(v20) && !Frozen(v02) && !Frozen(v22)
    ensures !Frozen(LandCell(seed, x, z, v11, v00, v20, v02, v22))
  {
    hide GetChunkSeed, McFirstIsZero, McStepSeed, LandCorner;
    CornersThaw([v00, v20, v02, v22], 0, 1, GetChunkSeed(seed.startSeed, x, z), seed.startSalt);
  }

  lemma ShoreThaws(mc: int, v11: int, v10: int, v21: int, v01: int, v12: int)
    requires !Frozen(v11)
    ensures !Frozen(ShoreCell(mc, v11, v10, v21, v01, v12))
  {
  }

  lemma HillsThaws(similar: Similar, mc: int, seed: Seed, x: int, z: int, v11: int, v10: int, v21: int, v01: int, v12: int, r: int)
    requires !Frozen(v11)
    ensures !Frozen(HillsCell(similar, mc, seed, x, z, v11, v10, v21, v01, v12, r))
  {
    hide GetChunkSeed, McFirstIsZero, McStepSeed, SimilarCount;
  }

  /** Every mapShore after 1.6 works on a parent that no frozen ocean can come out of. */
  ghost predicate ShoreTame(l: Layer) {
    match l
    case Continent(_) => true
    case OceanTemp(_) => true
    case Shore(mc, p) => ShoreTame(p) && (mc <= MC_1_6 || Thawed(p))
    case Hills(_, _, _, p, p2) => ShoreTame(p) && ShoreTame(p2)
    case RiverMix(_, p, p2) => ShoreTame(p) && ShoreTame(p2)
    case OceanMix(p, p2) => ShoreTame(p) && ShoreTame(p2)
    case _ => ShoreTame(l.p)
  }

  /** What can be seen from the tree suffices for the layers to be functions of the world cell. */
  lemma {:induction false} TameIsSafe(l: Layer)
    requires ShoreTame(l)
    ensures ShoreSafe(l)
  {
    match l
    case Continent(_) =>
    case OceanTemp(_) =>
    case Shore(mc, p) =>
      TameIsSafe(p);
      if mc > MC_1_6 {
        forall x, z
          ensures !ShoreSkips(mc, F(p, x, z))
        {
          ThawedNeverFrozen(p, x, z);
        }
      }
    case Hills(_, _, _, p, p2) =>
      TameIsSafe(p);
      TameIsSafe(p2);
    case RiverMix(_, p, p2) =>
      TameIsSafe(p);
      TameIsSafe(p2);
    case OceanMix(p, p2) =>
      TameIsSafe(p);
      TameIsSafe(p2);
    case _ => TameIsSafe(l.p);
  }

  /** select4 returns one of the four cells, and none of them is more frequent. */
  lemma Select4IsMode(cs: nat, st: nat, v00: int, v01: int, v10: int, v11: int)
    ensures
      var all := [v00, v01, v10, v11];
      var v := Select4(cs, st, v00, v01, v10, v11);
      v in all && forall u :: multiset(all)[u] <= multiset(all)[v]
  {
    var all := [v00, v01, v10, v11];
    assert multiset(all) == multiset{v00, v01, v10, v11};
  }
}
