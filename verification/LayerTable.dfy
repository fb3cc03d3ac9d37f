/** setupLayerStack (generator.c) row by row: zoom, edge, salt and parents of every layer as the
    table lists them. The one function of the source is cut where its blocks meet. */
module LayerTable {
  import opened Biomes
  import opened LayerBuffers
  import opened LayerRng
  import opened LayerRules
  import opened LayerStack
  import opened LayerTree

  /** A layer as it is set up: what its map computes, and what getMaxArea sees of it. */
  datatype Row = Row(layer: Layer, node: Node)

  /** The row has the zoom and edge that its map needs, and so have those above it. */
  ghost predicate Fitted(r: Row) {
    r.node == Shape(r.layer)
  }

  ghost predicate Is(r: Row, l: Layer) {
    r.layer == l && Fitted(r)
  }

  /** setupLayer for a map with one parent. */
  method SetupLayer(l: Layer, zoom: nat, edge: nat, p: Row) returns (r: Row)
    requires HasParent(l) && !HasSecondParent(l) && p.layer == l.p && Fitted(p)
    requires zoom == ZoomFactor(l) && edge == Edge(l)
    ensures r.layer == l && Fitted(r)
  {
    r := Row(l, Node(zoom, edge, p.node, Absent));
  }

  method SetupZoom(seed: Seed, p: Row) returns (r: Row)
    requires Fitted(p)
    ensures r.layer == Zoom(seed, p.layer) && Fitted(r)
  {
    hide Fitted;
    r := SetupLayer(Zoom(seed, p.layer), 2, 3, p);
  }

  method SetupAround(rule: AroundRule, p: Row) returns (r: Row)
    requires Fitted(p)
    ensures r.layer == Around(rule, p.layer) && Fitted(r)
  {
    hide Fitted;
    r := SetupLayer(Around(rule, p.layer), 1, 2, p);
  }

  method SetupPoint(edge: nat, rule: PointRule, p: Row) returns (r: Row)
    requires Fitted(p)
    ensures r.layer == Point(edge, rule, p.layer) && Fitted(r)
  {
    hide Fitted;
    r := SetupLayer(Point(edge, rule, p.layer), 1, edge, p);
  }

  method SetupLandLayer(seed: Seed, p: Row) returns (r: Row)
    requires Fitted(p)
    ensures r.layer == Land(seed, p.layer) && Fitted(r)
  {
    hide Fitted;
    r := SetupLayer(Land(seed, p.layer), 1, 2, p);
  }

  /** setupLayer for a map without a parent. */
  method SetupFirst(l: Layer, zoom: nat, edge: nat) returns (r: Row)
    requires !HasParent(l) && !HasSecondParent(l) && zoom == ZoomFactor(l) && edge == Edge(l)
    ensures r.layer == l && Fitted(r)
  {
    r := Row(l, Node(zoom, edge, Absent, Absent));
  }

  /** setupLayer for a map with two parents. */
  method SetupMixed(l: Layer, zoom: nat, edge: nat, p: Row, p2: Row) returns (r: Row)
    requires HasSecondParent(l) && p.layer == l.p && p2.layer == l.p2 && Fitted(p) && Fitted(p2)
    requires zoom == ZoomFactor(l) && edge == Edge(l)
    ensures r.layer == l && Fitted(r)
  {
    r := Row(l, Node(zoom, edge, p.node, p2.node));
  }

  method SetupContinents(w: World) returns (r: Row)
    ensures r.layer == ZoomFuzzy(w.S(2000), Continent(w.S(1))) && Fitted(r)
  {
    hide Fitted;
    var p := SetupFirst(Continent(w.S(1)), 1, 0);
    r := SetupLayer(ZoomFuzzy(w.S(2000), p.layer), 2, 3, p);
  }

  // ----- from the continents to scale 1:256

  method SetupGroundB18(w: World) returns (ground: Row)
    requires w.mc == MC_B1_8
    ensures Is(ground, w.Ground256())
  {
    hide Fitted, LandB18Rule, World.S;
    var p := SetupContinents(w);
    p := SetupAround(LandB18Rule(w.S(1)), p);
    p := SetupZoom(w.S(2001), p);
    p := SetupAround(LandB18Rule(w.S(2)), p);
    p := SetupZoom(w.S(2002), p);
    p := SetupAround(LandB18Rule(w.S(3)), p);
    p := SetupZoom(w.S(2003), p);
    p := SetupAround(LandB18Rule(w.S(3)), p);
    p := SetupZoom(w.S(2004), p);
    p := SetupAround(LandB18Rule(w.S(3)), p);
    ground := p;
  }

  method SetupGround16(w: World) returns (ground: Row)
    requires w.mc <= MC_1_6 && w.mc != MC_B1_8
    ensures Is(ground, w.Ground256())
  {
    hide Fitted, Land16Rule, Snow16Rule, MushroomRule, World.S;
    var p := SetupContinents(w);
    p := SetupAround(Land16Rule(w.S(1)), p);
    p := SetupZoom(w.S(2001), p);
    p := SetupAround(Land16Rule(w.S(2)), p);
    p := SetupAround(Snow16Rule(w.S(2)), p);
    p := SetupZoom(w.S(2002), p);
    p := SetupAround(Land16Rule(w.S(3)), p);
    p := SetupZoom(w.S(2003), p);
    p := SetupAround(Land16Rule(w.S(4)), p);
    p := SetupAround(MushroomRule(w.S(5)), p);
    ground := p;
  }

  method SetupGround17(w: World) returns (ground: Row)
    requires w.mc > MC_1_6 && w.mc != MC_B1_8
    ensures Is(ground, w.Ground256())
  {
    hide Fitted, SnowRule, CoolRule, HeatRule, SpecialRule, MushroomRule, DeepOceanRule, World.S;
    var p := SetupContinents(w);
    p := SetupLandLayer(w.S(1), p);
    p := SetupZoom(w.S(2001), p);
    p := SetupLandLayer(w.S(2), p);
    p := SetupLandLayer(w.S(50), p);
    p := SetupLandLayer(w.S(70), p);
    p := SetupLayer(Island(w.S(2), p.layer), 1, 2, p);
    p := SetupAround(SnowRule(w.S(2)), p);
    p := SetupLandLayer(w.S(3), p);
    p := SetupAround(CoolRule(), p);
    p := SetupAround(HeatRule(), p);
    p := SetupPoint(2, SpecialRule(w.S(3)), p);
    p := SetupZoom(w.S(2002), p);
    p := SetupZoom(w.S(2003), p);
    p := SetupLandLayer(w.S(4), p);
    p := SetupAround(MushroomRule(w.S(5)), p);
    p := SetupAround(DeepOceanRule(), p);
    ground := p;
  }

  // ----- biomes, hills and the noise below rivers and hills

  datatype Middle = Middle(biome: Row, bamboo: Row, zoom64: Row, hills: Row, noise: Row)

  /** The rows from the ground down to the hills, or to 1:64 where there are none. */
  ghost predicate MiddleIs(w: World, m: Middle) {
    && Is(m.biome, w.Biome256()) && Is(m.bamboo, w.Bamboo256()) && Is(m.zoom64, w.Zoom64()) && Is(m.noise, w.Noise256())
    && Is(m.hills, if w.mc <= MC_1_0 then w.Zoom64() else if w.mc <= MC_1_6 then w.Hills64() else w.Sunflower64())
  }

  method SetupMiddle(w: World, ground: Row) returns (m: Middle)
    requires Is(ground, w.Ground256())
    ensures MiddleIs(w, m)
  {
    hide Fitted, World.S, World.Ground256, BiomeRule, BambooRule, NoiseRule, BiomeEdgeRule, SunflowerRule;
    var biome := SetupPoint(0, BiomeRule(w.mc, w.S(200)), ground);
    var p := biome;
    if w.mc >= MC_1_14 {
      p := SetupPoint(0, BambooRule(w.S(1001)), p);
    }
    var bamboo := p;
    p := SetupZoom(w.S(1000), p);
    p := SetupZoom(w.S(1001), p);
    var zoom64 := p;
    if w.mc > MC_1_6 {
      p := SetupAround(BiomeEdgeRule(w.mc, w.similar), p);
    }
    var edge64 := p;
    var noise := SetupPoint(0, NoiseRule(w.mc, w.S(100)), ground);
    if w.mc > MC_1_0 {
      var salts := if w.mc <= MC_1_12 then (0, 0) else (1000, 1001);
      p := SetupZoom(w.S(salts.0), noise);
      p := SetupZoom(w.S(salts.1), p);
      p := SetupMixed(Hills(w.mc, w.S(1000), w.similar, edge64.layer, p.layer), 1, 2, edge64, p);
      if w.mc > MC_1_6 {
        p := SetupPoint(0, SunflowerRule(w.S(1001)), p);
      }
    }
    m := Middle(biome, bamboo, zoom64, p, noise);
  }

  // ----- coasts and rivers

  datatype Lower = Lower(land16: Row, zoom4: Row, smooth4: Row)

  ghost predicate LowerIs(w: World, low: Lower) {
    Is(low.land16, w.Land16()) && Is(low.zoom4, w.Zoom4()) && Is(low.smooth4, w.Smooth4())
  }

  /** map_land: the land layer of the version. */
  method SetupLand(w: World, salt: nat, p: Row, ghost l: Layer) returns (r: Row)
    requires Is(p, l)
    ensures Is(r, w.LandLayer(salt, l))
  {
    hide Fitted, LandB18Rule, Land16Rule;
    if w.mc == MC_B1_8 {
      r := SetupAround(LandB18Rule(w.S(salt)), p);
    } else if w.mc <= MC_1_6 {
      r := SetupAround(Land16Rule(w.S(salt)), p);
    } else {
      r := SetupLandLayer(w.S(salt), p);
    }
  }

  method SetupCoast(w: World, m: Middle) returns (low: Lower)
    requires MiddleIs(w, m)
    ensures LowerIs(w, low)
  {
    hide Fitted, World.S, World.Zoom64, World.Hills64, World.Sunflower64, World.Biome256, World.Bamboo256, World.Noise256, World.LandLayer, SwampRiverRule;
    var p := SetupZoom(w.S(1000), m.hills);
    p := SetupLand(w, 3, p, p.layer);
    if w.mc <= MC_1_0 {
      p := SetupLayer(Shore(w.mc, p.layer), 1, 2, p);
      p := SetupZoom(w.S(1001), p);
    } else {
      p := SetupZoom(w.S(1001), p);
      p := SetupLayer(Shore(w.mc, p.layer), 1, 2, p);
      if w.mc <= MC_1_6 {
        p := SetupPoint(0, SwampRiverRule(w.S(1000)), p);
      }
    }
    var land16 := p;
    p := SetupZoom(w.S(1002), p);
    p := SetupZoom(w.S(1003), p);
    var zoom4 := p;
    if w.Large() {
      p := SetupZoom(w.S(1004), p);
      p := SetupZoom(w.S(1005), p);
    }
    p := SetupLayer(Smooth(w.S(1000), p.layer), 1, 2, p);
    low := Lower(land16, zoom4, p);
  }

  method SetupRivers(w: World, noise: Row) returns (rivers: Row)
    requires Is(noise, w.Noise256())
    ensures Is(rivers, w.River4())
  {
    hide Fitted, World.S, World.Noise256, RiverRule;
    var p := noise;
    p := SetupZoom(w.S(1000), p);
    p := SetupZoom(w.S(1001), p);
    if w.mc <= MC_1_6 {
      p := SetupZoom(w.S(1002), p);
      p := SetupZoom(w.S(1003), p);
      p := SetupZoom(w.S(1004), p);
      p := SetupZoom(w.S(1005), p);
      if w.Large() {
        p := SetupZoom(w.S(1006), p);
        p := SetupZoom(w.S(1007), p);
      }
    } else {
      p := SetupZoom(w.S(1000), p);
      p := SetupZoom(w.S(1001), p);
      p := SetupZoom(w.S(1002), p);
      p := SetupZoom(w.S(1003), p);
      if w.Large() && w.mc == MC_1_7 {
        p := SetupZoom(w.S(1004), p);
        p := SetupZoom(w.S(1005), p);
      }
    }
    p := SetupAround(RiverRule(w.mc), p);
    p := SetupLayer(Smooth(w.S(1000), p.layer), 1, 2, p);
    rivers := p;
  }

  method SetupOceans(w: World) returns (oceans: Row)
    ensures Is(oceans, w.Ocean4())
  {
    hide Fitted, World.S;
    var p := SetupFirst(OceanTemp(w.oceanNoise), 1, 0);
    p := SetupZoom(w.S(2001), p);
    p := SetupZoom(w.S(2002), p);
    p := SetupZoom(w.S(2003), p);
    p := SetupZoom(w.S(2004), p);
    p := SetupZoom(w.S(2005), p);
    p := SetupZoom(w.S(2006), p);
    oceans := p;
  }

  // ----- the entry points

  datatype Entries = Entries(entry4: Row, entry16: Row, entry64: Row, entry256: Row)

  /** The rows of the table, for every version with or without large biomes, are the layers of
      LayerStack, each with the zoom and edge its map needs. */
  method SetupLayerStack(w: World) returns (e: Entries)
    ensures Is(e.entry4, w.Entry(4)) && Is(e.entry16, w.Entry(16)) && Is(e.entry64, w.Entry(64)) && Is(e.entry256, w.Entry(256))
  {
    hide Fitted, World.Ground256, World.Biome256, World.Bamboo256, World.Zoom64, World.Noise256, World.Hills64, World.Sunflower64,
         World.Land16, World.Zoom4, World.Smooth4, World.River4, World.Ocean4;
    var ground: Row;
    if w.mc == MC_B1_8 {
      ground := SetupGroundB18(w);
    } else if w.mc <= MC_1_6 {
      ground := SetupGround16(w);
    } else {
      ground := SetupGround17(w);
    }
    var m := SetupMiddle(w, ground);
    var low := SetupCoast(w, m);
    var rivers := SetupRivers(w, m.noise);
    var p := SetupMixed(RiverMix(w.mc, low.smooth4.layer, rivers.layer), 1, 0, low.smooth4, rivers);
    if w.mc > MC_1_12 {
      var oceans := SetupOceans(w);
      p := SetupMixed(OceanMix(p.layer, oceans.layer), 1, 17, p, oceans);
    }
    if w.Large() {
      e := Entries(p, low.zoom4, low.land16, m.hills);
    } else if w.mc >= MC_1_1 {
      e := Entries(p, low.land16, m.hills, if w.mc <= MC_1_14 then m.biome else m.bamboo);
    } else {
      e := Entries(p, low.land16, m.zoom64, m.biome);
    }
  }
}
