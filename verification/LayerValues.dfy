/** The loop bodies of the layers with a rule, step by step as layers.c has them: what they write is what
    the rule says. */
module LayerValues {
  import opened Biomes
  import opened Bits
  import opened LayerRng
  import opened LayerRules

  /** isAny4 */
  method IsAny4(id: int, n: Nine) returns (any: bool)
    ensures any == Cross4(n, id)
  {
    any := id == n.n || id == n.e || id == n.w || id == n.s;
  }

  // ----- land

  method LandB18Value(ss: nat, x: int, z: int, n: Nine, ghost seed: Seed) returns (v: int)
    requires seed.startSeed == ss
    ensures v == LandB18Rule(seed)(x, z, n)
  {
    hide GetChunkSeed, McFirstInt;
    v := n.c;
    if n.c == 0 && (n.nw != 0 || n.sw != 0 || n.ne != 0 || n.se != 0) {
      var cs := GetChunkSeed(ss, x, z);
      v := McFirstInt(cs, 3) / 2;
    } else if n.c == 1 && (n.nw != 1 || n.sw != 1 || n.ne != 1 || n.se != 1) {
      var cs := GetChunkSeed(ss, x, z);
      v := 1 - McFirstInt(cs, 5) / 4;
    }
  }

  method Land16Value(st: nat, ss: nat, x: int, z: int, n: Nine, ghost seed: Seed) returns (v: int)
    requires seed == Seed(st, ss)
    ensures v == Land16Rule(seed)(x, z, n)
  {
    hide GetChunkSeed, McFirstIsZero, McStepSeed, Land16Corner;
    v := n.c;
    if n.c != 0 || (n.nw == 0 && n.ne == 0 && n.sw == 0 && n.se == 0) {
      if n.c != 0 && (n.nw == 0 || n.ne == 0 || n.sw == 0 || n.se == 0) {
        var cs := GetChunkSeed(ss, x, z);
        if McFirstIsZero(cs, 5) {
          v := if v == SNOWY_TUNDRA then FROZEN_OCEAN else OCEAN;
          assert v == Sink16(n.c);
        }
      }
    } else {
      var cs := GetChunkSeed(ss, x, z);
      v := Land16Corners(st, cs, n);
      ghost var a := Land16Corner(n.nw, 0, 1, cs, st);
      ghost var b := Land16Corner(n.ne, a.1, a.0, a.2, st);
      ghost var c := Land16Corner(n.sw, b.1, b.0, b.2, st);
      ghost var d := Land16Corner(n.se, c.1, c.0, c.2, st);
      assert v == if McFirstIsZero(d.2, 3) then d.0 else Sink16(d.0);
    }
  }

  method Land16Corners(st: nat, cs0: nat, n: Nine) returns (v: int)
    ensures var a := Land16Corner(n.nw, 0, 1, cs0, st);
            var b := Land16Corner(n.ne, a.1, a.0, a.2, st);
            var c := Land16Corner(n.sw, b.1, b.0, b.2, st);
            var d := Land16Corner(n.se, c.1, c.0, c.2, st);
            v == if McFirstIsZero(d.2, 3) then d.0 else Sink16(d.0)
  {
    hide McFirstIsZero, McStepSeed;
    var cs, inc := cs0, 0;
    v := 1;
    if n.nw != OCEAN {
      inc := inc + 1;
      v := n.nw;
      cs := McStepSeed(cs, st);
    }
    assert Land16Corner(n.nw, 0, 1, cs0, st) == (v, inc, cs);
    if n.ne != OCEAN {
      inc := inc + 1;
      if inc == 1 || McFirstIsZero(cs, 2) {
        v := n.ne;
      }
      cs := McStepSeed(cs, st);
    }
    if n.sw != OCEAN {
      inc := inc + 1;
      if inc == 1 {
        v := n.sw;
      } else if inc == 2 {
        if McFirstIsZero(cs, 2) { v := n.sw; }
      } else {
        if McFirstIsZero(cs, 3) { v := n.sw; }
      }
      cs := McStepSeed(cs, st);
    }
    if n.se != OCEAN {
      inc := inc + 1;
      if inc == 1 {
        v := n.se;
      } else if inc == 2 {
        if McFirstIsZero(cs, 2) { v := n.se; }
      } else if inc == 3 {
        if McFirstIsZero(cs, 3) { v := n.se; }
      } else {
        if McFirstIsZero(cs, 4) { v := n.se; }
      }
      cs := McStepSeed(cs, st);
    }
    if !McFirstIsZero(cs, 3) {
      v := if v == SNOWY_TUNDRA then FROZEN_OCEAN else OCEAN;
    }
  }

  // ----- climates

  method Snow16Value(ss: nat, x: int, z: int, n: Nine, ghost seed: Seed) returns (v11: int)
    requires seed.startSeed == ss
    ensures v11 == Snow16Rule(seed)(x, z, n)
  {
    v11 := n.c;
    if v11 != OCEAN {
      var cs := GetChunkSeed(ss, x, z);
      v11 := if McFirstIsZero(cs, 5) then SNOWY_TUNDRA else PLAINS;
    }
  }

  method SnowValue(ss: nat, x: int, z: int, n: Nine, ghost seed: Seed) returns (v11: int)
    requires seed.startSeed == ss
    ensures v11 == SnowRule(seed)(x, z, n)
  {
    hide GetChunkSeed, McFirstInt;
    v11 := n.c;
    if !IsShallowOcean(v11) {
      var cs := GetChunkSeed(ss, x, z);
      var r := McFirstInt(cs, 6);
      if r == 0 {
        v11 := FREEZING;
      } else if r <= 1 {
        v11 := COLD;
      } else {
        v11 := WARM;
      }
    }
  }

  method CoolValue(x: int, z: int, n: Nine) returns (v11: int)
    ensures v11 == CoolRule()(x, z, n)
  {
    v11 := n.c;
    if v11 == WARM {
      var cold := IsAny4(COLD, n);
      var freezing := IsAny4(FREEZING, n);
      if cold || freezing {
        v11 := LUSH;
      }
    }
  }

  method HeatValue(x: int, z: int, n: Nine) returns (v11: int)
    ensures v11 == HeatRule()(x, z, n)
  {
    v11 := n.c;
    if v11 == FREEZING {
      var warm := IsAny4(WARM, n);
      var lush := IsAny4(LUSH, n);
      if warm || lush {
        v11 := COLD;
      }
    }
  }

  method SpecialValue(st: nat, ss: nat, x: int, z: int, v0: int, ghost seed: Seed) returns (v: int)
    requires seed == Seed(st, ss)
    ensures v == SpecialRule(seed)(x, z, v0)
  {
    hide GetChunkSeed, McFirstIsZero, McStepSeed, McFirstInt, Or;
    v := v0;
    if v == OCEAN {
      return;
    }
    var cs := GetChunkSeed(ss, x, z);
    if McFirstIsZero(cs, 13) {
      cs := McStepSeed(cs, st);
      // the bits 8 to 11, with those of the draw
      v := v - 256 * HighBits(v) + 256 * Or(HighBits(v), 1 + McFirstInt(cs, 15));
    }
  }

  method MushroomValue(ss: nat, x: int, z: int, n: Nine, ghost seed: Seed) returns (v11: int)
    requires seed.startSeed == ss
    ensures v11 == MushroomRule(seed)(x, z, n)
  {
    v11 := n.c;
    if v11 == 0 && n.nw == 0 && n.ne == 0 && n.sw == 0 && n.se == 0 {
      var cs := GetChunkSeed(ss, x, z);
      if McFirstIsZero(cs, 100) {
        v11 := MUSHROOM_FIELDS;
      }
    }
  }

  method DeepOceanValue(x: int, z: int, n: Nine) returns (v11: int)
    ensures v11 == DeepOceanRule()(x, z, n)
  {
    hide IsShallowOcean;
    v11 := n.c;
    if IsShallowOcean(v11) {
      var oceans := 0;
      if IsShallowOcean(n.n) { oceans := oceans + 1; }
      if IsShallowOcean(n.e) { oceans := oceans + 1; }
      if IsShallowOcean(n.w) { oceans := oceans + 1; }
      if IsShallowOcean(n.s) { oceans := oceans + 1; }
      if oceans >= 4 {
        if v11 == WARM_OCEAN {
          v11 := DEEP_WARM_OCEAN;
        } else if v11 == LUKEWARM_OCEAN {
          v11 := DEEP_LUKEWARM_OCEAN;
        } else if v11 == OCEAN {
          v11 := DEEP_OCEAN;
        } else if v11 == COLD_OCEAN {
          v11 := DEEP_COLD_OCEAN;
        } else if v11 == FROZEN_OCEAN {
          v11 := DEEP_FROZEN_OCEAN;
        } else {
          v11 := DEEP_OCEAN;
        }
      }
    }
  }

  // ----- biomes

  method BiomeValue(mc: int, ss: nat, x: int, z: int, v0: int, ghost seed: Seed) returns (v: int)
    requires seed.startSeed == ss
    ensures v == BiomeRule(mc, seed)(x, z, v0)
  {
    hide GetChunkSeed, McFirstIsZero, McFirstInt, HighBits;
    var hasHighBit := HighBits(v0) != 0;
    var id := v0 - HighBits(v0) * 256;
    if mc <= MC_1_6 {
      if id == OCEAN || id == MUSHROOM_FIELDS {
        return id;
      }
      var cs := GetChunkSeed(ss, x, z);
      if mc <= MC_1_1 {
        v := [DESERT, FOREST, MOUNTAINS, SWAMP, PLAINS, TAIGA][McFirstInt(cs, 6)];
      } else {
        v := [DESERT, FOREST, MOUNTAINS, SWAMP, PLAINS, TAIGA, JUNGLE][McFirstInt(cs, 7)];
      }
      if id != PLAINS && (v != TAIGA || mc <= MC_1_2) {
        v := SNOWY_TUNDRA;
      }
    } else {
      if IsOceanic(id) || id == MUSHROOM_FIELDS {
        return id;
      }
      var cs := GetChunkSeed(ss, x, z);
      if id == WARM {
        if hasHighBit {
          v := if McFirstIsZero(cs, 3) then BADLANDS_PLATEAU else WOODED_BADLANDS_PLATEAU;
        } else {
          v := [DESERT, DESERT, DESERT, SAVANNA, SAVANNA, PLAINS][McFirstInt(cs, 6)];
        }
      } else if id == LUSH {
        v := if hasHighBit then JUNGLE else [FOREST, DARK_FOREST, MOUNTAINS, PLAINS, BIRCH_FOREST, SWAMP][McFirstInt(cs, 6)];
      } else if id == COLD {
        v := if hasHighBit then GIANT_TREE_TAIGA else [FOREST, MOUNTAINS, TAIGA, PLAINS][McFirstInt(cs, 4)];
      } else if id == FREEZING {
        v := [SNOWY_TUNDRA, SNOWY_TUNDRA, SNOWY_TUNDRA, SNOWY_TAIGA][McFirstInt(cs, 4)];
      } else {
        v := MUSHROOM_FIELDS;
      }
    }
  }

  method NoiseValue(mc: int, ss: nat, x: int, z: int, v0: int, ghost seed: Seed) returns (v: int)
    requires seed.startSeed == ss
    ensures v == NoiseRule(mc, seed)(x, z, v0)
  {
    var mod := if mc <= MC_1_6 then 2 else 299999;
    if v0 > 0 {
      var cs := GetChunkSeed(ss, x, z);
      v := McFirstInt(cs, mod) + 2;
    } else {
      v := 0;
    }
  }

  method BambooValue(ss: nat, x: int, z: int, v0: int, ghost seed: Seed) returns (v: int)
    requires seed.startSeed == ss
    ensures v == BambooRule(seed)(x, z, v0)
  {
    v := v0;
    if v != JUNGLE {
      return;
    }
    var cs := GetChunkSeed(ss, x, z);
    if McFirstIsZero(cs, 10) {
      v := BAMBOO_JUNGLE;
    }
  }

  /** replaceEdge */
  method ReplaceEdge(mc: int, similar: Similar, n: Nine, baseID: int, edgeID: int) returns (replaced: bool, v: int)
    ensures replaced <==> n.c == baseID
    ensures replaced ==>
      v == if similar(mc, n.n, n.c) && similar(mc, n.e, n.c) && similar(mc, n.w, n.c) && similar(mc, n.s, n.c) then n.c else edgeID
  {
    v := n.c;
    if n.c != baseID {
      return false, v;
    }
    if !(similar(mc, n.n, baseID) && similar(mc, n.e, baseID) && similar(mc, n.w, baseID) && similar(mc, n.s, baseID)) {
      v := edgeID;
    }
    return true, v;
  }

  method BiomeEdgeValue(mc: int, similar: Similar, x: int, z: int, n: Nine) returns (v: int)
    ensures v == BiomeEdgeRule(mc, similar)(x, z, n)
  {
    var replaced;
    replaced, v := ReplaceEdge(mc, similar, n, WOODED_BADLANDS_PLATEAU, BADLANDS);
    if replaced {
      return;
    }
    replaced, v := ReplaceEdge(mc, similar, n, BADLANDS_PLATEAU, BADLANDS);
    if replaced {
      return;
    }
    replaced, v := ReplaceEdge(mc, similar, n, GIANT_TREE_TAIGA, TAIGA);
    if replaced {
      return;
    }
    v := n.c;
    if n.c == DESERT {
      var tundra := IsAny4(SNOWY_TUNDRA, n);
      if tundra {
        v := WOODED_MOUNTAINS;
      }
    } else if n.c == SWAMP {
      var desert := IsAny4(DESERT, n);
      var taiga := IsAny4(SNOWY_TAIGA, n);
      var tundra := IsAny4(SNOWY_TUNDRA, n);
      if !desert && !taiga && !tundra {
        var jungle := IsAny4(JUNGLE, n);
        var bamboo := IsAny4(BAMBOO_JUNGLE, n);
        if jungle || bamboo {
          v := JUNGLE_EDGE;
        }
      } else {
        v := PLAINS;
      }
    }
  }

  method SunflowerValue(ss: nat, x: int, z: int, v0: int, ghost seed: Seed) returns (v: int)
    requires seed.startSeed == ss
    ensures v == SunflowerRule(seed)(x, z, v0)
  {
    v := v0;
    if v == PLAINS {
      var cs := GetChunkSeed(ss, x, z);
      if McFirstIsZero(cs, 57) {
        v := SUNFLOWER_PLAINS;
      }
    }
  }

  method SwampRiverValue(ss: nat, x: int, z: int, v0: int, ghost seed: Seed) returns (v: int)
    requires seed.startSeed == ss
    ensures v == SwampRiverRule(seed)(x, z, v0)
  {
    v := v0;
    if v != SWAMP && v != JUNGLE && v != JUNGLE_HILLS {
      return;
    }
    var cs := GetChunkSeed(ss, x, z);
    if McFirstIsZero(cs, if v == SWAMP then 6 else 8) {
      v := RIVER;
    }
  }

  // ----- rivers

  /** reduceID: the numbers from 2 on become 2 and 3 by their last bit. */
  method Reduce(id: int) returns (r: int)
    ensures r == ReduceID(id)
  {
    r := id;
    if id >= 2 {
      r := if id % 2 == 0 then 2 else 3;
    }
  }

  method RiverValue(mc: int, x: int, z: int, n: Nine) returns (v: int)
    ensures v == RiverRule(mc)(x, z, n)
  {
    var v01, v11, v21, v10, v12 := n.w, n.c, n.e, n.n, n.s;
    if mc >= MC_1_7 {
      v01 := Reduce(v01);
      v11 := Reduce(v11);
      v21 := Reduce(v21);
      v10 := Reduce(v10);
      v12 := Reduce(v12);
    } else if v11 == 0 {
      return RIVER;
    }
    v := if v11 == v01 && v11 == v10 && v11 == v12 && v11 == v21 then -1 else RIVER;
  }
}
