/** Biome numbers, Minecraft versions and the biome classes the layers test (biomes.h, biomes.c). */
module Biomes {
  const OCEAN := 0
  const PLAINS := 1
  const DESERT := 2
  const MOUNTAINS := 3
  const FOREST := 4
  const TAIGA := 5
  const SWAMP := 6
  const RIVER := 7
  const FROZEN_OCEAN := 10
  const FROZEN_RIVER := 11
  const SNOWY_TUNDRA := 12
  const SNOWY_MOUNTAINS := 13
  const MUSHROOM_FIELDS := 14
  const MUSHROOM_FIELD_SHORE := 15
  const BEACH := 16
  const DESERT_HILLS := 17
  const WOODED_HILLS := 18
  const TAIGA_HILLS := 19
  const MOUNTAIN_EDGE := 20
  const JUNGLE := 21
  const JUNGLE_HILLS := 22
  const JUNGLE_EDGE := 23
  const DEEP_OCEAN := 24
  const STONE_SHORE := 25
  const SNOWY_BEACH := 26
  const BIRCH_FOREST := 27
  const BIRCH_FOREST_HILLS := 28
  const DARK_FOREST := 29
  const SNOWY_TAIGA := 30
  const SNOWY_TAIGA_HILLS := 31
  const GIANT_TREE_TAIGA := 32
  const GIANT_TREE_TAIGA_HILLS := 33
  const WOODED_MOUNTAINS := 34
  const SAVANNA := 35
  const SAVANNA_PLATEAU := 36
  const BADLANDS := 37
  const WOODED_BADLANDS_PLATEAU := 38
  const BADLANDS_PLATEAU := 39
  const WARM_OCEAN := 44
  const LUKEWARM_OCEAN := 45
  const COLD_OCEAN := 46
  const DEEP_WARM_OCEAN := 47
  const DEEP_LUKEWARM_OCEAN := 48
  const DEEP_COLD_OCEAN := 49
  const DEEP_FROZEN_OCEAN := 50
  const SUNFLOWER_PLAINS := PLAINS + 128
  const ICE_SPIKES := SNOWY_TUNDRA + 128
  const MODIFIED_JUNGLE := JUNGLE + 128
  const MODIFIED_JUNGLE_EDGE := JUNGLE_EDGE + 128
  const SNOWY_TAIGA_MOUNTAINS := SNOWY_TAIGA + 128
  const ERODED_BADLANDS := BADLANDS + 128
  const MODIFIED_WOODED_BADLANDS_PLATEAU := WOODED_BADLANDS_PLATEAU + 128
  const MODIFIED_BADLANDS_PLATEAU := BADLANDS_PLATEAU + 128
  const BAMBOO_JUNGLE := 168
  const BAMBOO_JUNGLE_HILLS := 169

  const MC_B1_8 := 2
  const MC_1_0 := 3
  const MC_1_1 := 4
  const MC_1_2 := 5
  const MC_1_3 := 6
  const MC_1_6 := 9
  const MC_1_7 := 10
  const MC_1_9 := 12
  const MC_1_10 := 13
  const MC_1_12 := 15
  const MC_1_13 := 16
  const MC_1_14 := 17
  const MC_1_17 := 21

  const NONE := -1

  /** getMutated: the rare variant of a biome. */
  function GetMutated(mc: int, id: int): int {
    match id
    case 1 => SUNFLOWER_PLAINS
    case 2 => id + 128
    case 3 => id + 128
    case 4 => id + 128
    case 5 => id + 128
    case 6 => id + 128
    case 12 => ICE_SPIKES
    case 21 => MODIFIED_JUNGLE
    case 23 => MODIFIED_JUNGLE_EDGE
    case 27 => if MC_1_9 <= mc <= MC_1_10 then BIRCH_FOREST_HILLS + 128 else BIRCH_FOREST + 128
    case 28 => if MC_1_9 <= mc <= MC_1_10 then NONE else BIRCH_FOREST_HILLS + 128
    case 29 => id + 128
    case 30 => SNOWY_TAIGA_MOUNTAINS
    case 32 => id + 128
    case 33 => id + 128
    case 34 => id + 128
    case 35 => id + 128
    case 36 => id + 128
    case 37 => ERODED_BADLANDS
    case 38 => MODIFIED_WOODED_BADLANDS_PLATEAU
    case 39 => MODIFIED_BADLANDS_PLATEAU
    case _ => NONE
  }

  predicate IsOceanic(id: int) {
    || id == OCEAN || id == FROZEN_OCEAN || id == WARM_OCEAN || id == LUKEWARM_OCEAN || id == COLD_OCEAN
    || id == DEEP_OCEAN || id == DEEP_WARM_OCEAN || id == DEEP_LUKEWARM_OCEAN || id == DEEP_COLD_OCEAN
    || id == DEEP_FROZEN_OCEAN
  }

  predicate IsShallowOcean(id: int) {
    id == OCEAN || id == FROZEN_OCEAN || id == WARM_OCEAN || id == LUKEWARM_OCEAN || id == COLD_OCEAN
  }

  predicate IsDeepOcean(id: int) {
    || id == DEEP_OCEAN || id == DEEP_WARM_OCEAN || id == DEEP_LUKEWARM_OCEAN || id == DEEP_COLD_OCEAN
    || id == DEEP_FROZEN_OCEAN
  }

  predicate IsMesa(id: int) {
    || id == BADLANDS || id == ERODED_BADLANDS || id == MODIFIED_WOODED_BADLANDS_PLATEAU
    || id == MODIFIED_BADLANDS_PLATEAU || id == WOODED_BADLANDS_PLATEAU || id == BADLANDS_PLATEAU
  }

  predicate IsSnowy(id: int) {
    || id == FROZEN_OCEAN || id == FROZEN_RIVER || id == SNOWY_TUNDRA || id == SNOWY_MOUNTAINS
    || id == SNOWY_BEACH || id == SNOWY_TAIGA || id == SNOWY_TAIGA_HILLS || id == ICE_SPIKES
    || id == SNOWY_TAIGA_MOUNTAINS
  }

  /** `getCategory(mc, id) == jungle`, which is the same for every version. */
  predicate IsJungle(id: int) {
    || id == JUNGLE || id == JUNGLE_HILLS || id == JUNGLE_EDGE || id == MODIFIED_JUNGLE
    || id == MODIFIED_JUNGLE_EDGE || id == BAMBOO_JUNGLE || id == BAMBOO_JUNGLE_HILLS
  }
}
