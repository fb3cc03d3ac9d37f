/** The layer stacks of setupLayerStack (generator.c), version by version, and what genArea makes
    of them. Stages of the table that several versions share are functions of their own. */
module LayerStack {
  import opened Biomes
  import opened LayerBuffers
  import opened LayerMaps
  import opened LayerRng
  import opened LayerRules
  import opened LayerTree
  import opened Products

  /** A version, its world seed as the layer seeds it yields for the salts of the table, and the
      two tables that stay parameters. */
  datatype World = World(mc: int, largeFlag: bool, seedOf: nat -> Seed, oceanNoise: (int, int) -> real, similar: Similar) {
    predicate Large() {
      largeFlag && mc >= MC_1_3
    }

    /** A layer without a salt stays at zero. */
    function S(salt: nat): Seed {
      if salt == 0 then Seed(0, 0) else seedOf(salt)
    }

    function LandLayer(salt: nat, p: Layer): Layer {
      if mc == MC_B1_8 then Around(LandB18Rule(S(salt)), p)
      else if mc <= MC_1_6 then Around(Land16Rule(S(salt)), p)
      else Land(S(salt), p)
    }

    function Zoom1(a: nat, p: Layer): Layer {
      Zoom(S(a), p)
    }

    function Zoom2(a: nat, b: nat, p: Layer): Layer {
      Zoom(S(b), Zoom(S(a), p))
    }

    // ----- from the continents to scale 1:256

    function GroundB18(): Layer {
      var a := LandLayer(1, ZoomFuzzy(S(2000), Continent(S(1))));
      var b := LandLayer(2, Zoom1(2001, a));
      var c := LandLayer(3, Zoom1(2002, b));
      var d := LandLayer(3, Zoom1(2003, c));
      LandLayer(3, Zoom1(2004, d))
    }

    function Ground16(): Layer {
      var a := LandLayer(1, ZoomFuzzy(S(2000), Continent(S(1))));
      var b := LandLayer(2, Zoom1(2001, a));
      var c := Around(Snow16Rule(S(2)), b);
      var d := LandLayer(3, Zoom1(2002, c));
      var e := LandLayer(4, Zoom1(2003, d));
      Around(MushroomRule(S(5)), e)
    }

    function Continents(): Layer {
      var a := Land(S(1), ZoomFuzzy(S(2000), Continent(S(1))));
      var b := Land(S(2), Zoom1(2001, a));
      Land(S(70), Land(S(50), b))
    }

    function Climates(p: Layer): Layer {
      var a := Around(SnowRule(S(2)), Island(S(2), p));
      var b := Around(CoolRule(), Land(S(3), a));
      Point(2, SpecialRule(S(3)), Around(HeatRule(), b))
    }

    function Ground17(): Layer {
      var a := Land(S(4), Zoom2(2002, 2003, Climates(Continents())));
      Around(DeepOceanRule(), Around(MushroomRule(S(5)), a))
    }

    function Ground256(): Layer {
      if mc == MC_B1_8 then GroundB18() else if mc <= MC_1_6 then Ground16() else Ground17()
    }

    // ----- biomes and hills

    function Biome256(): Layer {
      Point(0, BiomeRule(mc, S(200)), Ground256())
    }

    function Bamboo256(): Layer {
      if mc >= MC_1_14 then Point(0, BambooRule(S(1001)), Biome256()) else Biome256()
    }

    function Zoom64(): Layer {
      Zoom2(1000, 1001, Bamboo256())
    }

    function Biome64(): Layer {
      if mc <= MC_1_6 then Zoom64() else Around(BiomeEdgeRule(mc, similar), Zoom64())
    }

    function Noise256(): Layer {
      Point(0, NoiseRule(mc, S(100)), Ground256())
    }

    function HillsNoise64(): Layer {
      if mc <= MC_1_12 then Zoom2(0, 0, Noise256()) else Zoom2(1000, 1001, Noise256())
    }

    function Hills64(): Layer {
      Hills(mc, S(1000), similar, Biome64(), HillsNoise64())
    }

    function Sunflower64(): Layer {
      Point(0, SunflowerRule(S(1001)), Hills64())
    }

    // ----- coasts, down to scale 1:4

    /** The layers below the shore. */
    function Coast(): Layer {
      if mc <= MC_1_0 then LandLayer(3, Zoom1(1000, Zoom64()))
      else
        var p := if mc <= MC_1_6 then Hills64() else Sunflower64();
        Zoom1(1001, LandLayer(3, Zoom1(1000, p)))
    }

    function Shore16(): Layer {
      Shore(mc, Coast())
    }

    /** Scale 1:16; the shore of 1.0 and before is at 1:32. */
    function Land16(): Layer {
      if mc <= MC_1_0 then Zoom1(1001, Shore16())
      else if mc <= MC_1_6 then Point(0, SwampRiverRule(S(1000)), Shore16())
      else Shore16()
    }

    function Zoom4(): Layer {
      Zoom2(1002, 1003, Land16())
    }

    function Smooth4(): Layer {
      Smooth(S(1000), if Large() then Zoom2(1004, 1005, Zoom4()) else Zoom4())
    }

    // ----- rivers and oceans

    function River4(): Layer {
      var a := Zoom2(1000, 1001, Noise256());
      var p :=
        if mc <= MC_1_6 then
          var b := Zoom2(1004, 1005, Zoom2(1002, 1003, a));
          if Large() then Zoom2(1006, 1007, b) else b
        else
          var b := Zoom2(1002, 1003, Zoom2(1000, 1001, a));
          if Large() && mc == MC_1_7 then Zoom2(1004, 1005, b) else b;
      Smooth(S(1000), Around(RiverRule(mc), p))
    }

    function RiverMix4(): Layer {
      RiverMix(mc, Smooth4(), River4())
    }

    function Ocean4(): Layer {
      Zoom2(2005, 2006, Zoom2(2003, 2004, Zoom2(2001, 2002, OceanTemp(oceanNoise))))
    }

    function Entry4(): Layer {
      if mc <= MC_1_12 then RiverMix4() else OceanMix(RiverMix4(), Ocean4())
    }

    /** getLayerForScale: the entry point of a scale, if it has one apart from the voronoi layer. */
    predicate HasScale(scale: int) {
      scale == 4 || scale == 16 || scale == 64 || scale == 256
    }

    function Entry(scale: int): Layer
      requires HasScale(scale)
    {
      if scale == 4 then Entry4()
      else if scale == 16 then (if Large() then Zoom4() else Land16())
      else if Large() then
        if scale == 64 then Land16() else if mc <= MC_1_6 then Hills64() else Sunflower64()
      else if scale == 64 then
        if mc >= MC_1_1 then (if mc <= MC_1_6 then Hills64() else Sunflower64()) else Zoom64()
      else if mc <= MC_1_14 then Biome256()
      else Bamboo256()
    }
  }

  // ----- no frozen ocean below the shore

  lemma ZoomTwice(w: World, a: nat, b: nat, p: Layer)
    ensures ShoreTame(p) ==> ShoreTame(w.Zoom2(a, b, p)) && ShoreTame(w.Zoom1(a, p))
    ensures Thawed(p) ==> Thawed(w.Zoom2(a, b, p)) && Thawed(w.Zoom1(a, p))
  {
    assert Thawed(p) ==> Thawed(Zoom(w.S(a), p));
    assert ShoreTame(p) ==> ShoreTame(Zoom(w.S(a), p));
  }

  lemma LandTame(w: World, salt: nat, p: Layer)
    ensures ShoreTame(p) ==> ShoreTame(w.LandLayer(salt, p))
    ensures w.mc > MC_1_6 && Thawed(p) ==> Thawed(w.LandLayer(salt, p))
  {
  }

  lemma FirstLand(w: World)
    ensures var l := ZoomFuzzy(w.S(2000), Continent(w.S(1))); ShoreTame(l) && Thawed(l)
  {
    var c := Continent(w.S(1));
    assert ShoreTame(c) && Thawed(c);
  }

  lemma OldGroundTame(w: World)
    ensures ShoreTame(w.GroundB18()) && ShoreTame(w.Ground16())
  {
    hide LandB18Rule, Land16Rule, Snow16Rule, MushroomRule, World.LandLayer, World.Zoom1, Thawed;
    var start := ZoomFuzzy(w.S(2000), Continent(w.S(1)));
    FirstLand(w);
    var a := w.LandLayer(1, start);
    LandTame(w, 1, start);
    ZoomTwice(w, 2001, 0, a);
    var b := w.LandLayer(2, w.Zoom1(2001, a));
    LandTame(w, 2, w.Zoom1(2001, a));
    ZoomTwice(w, 2002, 0, b);
    var c := w.LandLayer(3, w.Zoom1(2002, b));
    LandTame(w, 3, w.Zoom1(2002, b));
    ZoomTwice(w, 2003, 0, c);
    var d := w.LandLayer(3, w.Zoom1(2003, c));
    LandTame(w, 3, w.Zoom1(2003, c));
    ZoomTwice(w, 2004, 0, d);
    LandTame(w, 3, w.Zoom1(2004, d));
    var c' := Around(Snow16Rule(w.S(2)), b);
    assert ShoreTame(c');
    ZoomTwice(w, 2002, 0, c');
    var d' := w.LandLayer(3, w.Zoom1(2002, c'));
    LandTame(w, 3, w.Zoom1(2002, c'));
    ZoomTwice(w, 2003, 0, d');
    var e' := w.LandLayer(4, w.Zoom1(2003, d'));
    LandTame(w, 4, w.Zoom1(2003, d'));
    assert ShoreTame(Around(MushroomRule(w.S(5)), e'));
  }

  lemma ContinentsTame(w: World)
    ensures ShoreTame(w.Continents()) && Thawed(w.Continents())
  {
    hide World.Zoom1;
    FirstLand(w);
    var a := Land(w.S(1), ZoomFuzzy(w.S(2000), Continent(w.S(1))));
    assert ShoreTame(a) && Thawed(a);
    ZoomTwice(w, 2001, 0, a);
    var b := Land(w.S(2), w.Zoom1(2001, a));
    assert ShoreTame(b) && Thawed(b);
    var c := Land(w.S(50), b);
    assert ShoreTame(c) && Thawed(c);
  }

  lemma ClimatesTame(w: World, p: Layer)
    requires ShoreTame(p) && Thawed(p)
    ensures ShoreTame(w.Climates(p)) && Thawed(w.Climates(p))
  {
    hide SnowRule, CoolRule, HeatRule, SpecialRule, ThawsAround, ThawsPoint;
    AroundThaws(w.S(2), w.mc, w.similar);
    SpecialThaws(w.S(3));
    var i := Island(w.S(2), p);
    assert ShoreTame(i) && Thawed(i);
    var a := Around(SnowRule(w.S(2)), i);
    assert ShoreTame(a) && Thawed(a);
    var l := Land(w.S(3), a);
    assert ShoreTame(l) && Thawed(l);
    var b := Around(CoolRule(), l);
    assert ShoreTame(b) && Thawed(b);
    var h := Around(HeatRule(), b);
    assert ShoreTame(h) && Thawed(h);
  }

  lemma Ground17Tame(w: World)
    ensures ShoreTame(w.Ground17()) && Thawed(w.Ground17())
  {
    hide MushroomRule, DeepOceanRule, ThawsAround, World.Zoom2, World.Climates, World.Continents;
    ContinentsTame(w);
    ClimatesTame(w, w.Continents());
    ZoomTwice(w, 2002, 2003, w.Climates(w.Continents()));
    AroundThaws(w.S(5), w.mc, w.similar);
    var a := Land(w.S(4), w.Zoom2(2002, 2003, w.Climates(w.Continents())));
    assert ShoreTame(a) && Thawed(a);
    var m := Around(MushroomRule(w.S(5)), a);
    assert ShoreTame(m) && Thawed(m);
  }

  lemma GroundTame(w: World)
    ensures ShoreTame(w.Ground256()) && (w.mc > MC_1_6 ==> Thawed(w.Ground256()))
  {
    hide World.GroundB18, World.Ground16, World.Ground17;
    OldGroundTame(w);
    Ground17Tame(w);
  }

  lemma BiomeTame(w: World)
    ensures ShoreTame(w.Biome256()) && ShoreTame(w.Bamboo256())
    ensures w.mc > MC_1_6 ==> Thawed(w.Bamboo256())
  {
    hide BiomeRule, BambooRule, ThawsPoint, World.Ground256;
    GroundTame(w);
    if w.mc > MC_1_6 {
      BiomeThaws(w.mc, w.S(200));
    }
    PointThaws(w.S(1001));
    assert ShoreTame(w.Biome256()) && (w.mc > MC_1_6 ==> Thawed(w.Biome256()));
  }

  lemma Biome64Tame(w: World)
    ensures ShoreTame(w.Zoom64()) && ShoreTame(w.Biome64())
    ensures w.mc > MC_1_6 ==> Thawed(w.Biome64())
  {
    hide BiomeEdgeRule, ThawsAround, World.Bamboo256, World.Zoom2;
    BiomeTame(w);
    ZoomTwice(w, 1000, 1001, w.Bamboo256());
    AroundThaws(w.S(0), w.mc, w.similar);
  }

  lemma NoiseTame(w: World)
    ensures ShoreTame(w.Noise256()) && ShoreTame(w.HillsNoise64())
  {
    hide NoiseRule, World.Ground256, World.Zoom2;
    GroundTame(w);
    ZoomTwice(w, 0, 0, w.Noise256());
    ZoomTwice(w, 1000, 1001, w.Noise256());
  }

  lemma HillsTame(w: World)
    ensures ShoreTame(w.Hills64()) && ShoreTame(w.Sunflower64())
    ensures w.mc > MC_1_6 ==> Thawed(w.Sunflower64())
  {
    hide SunflowerRule, ThawsPoint, World.Biome64, World.HillsNoise64;
    Biome64Tame(w);
    NoiseTame(w);
    PointThaws(w.S(1001));
    assert ShoreTame(w.Hills64()) && (w.mc > MC_1_6 ==> Thawed(w.Hills64()));
  }

  lemma CoastTame(w: World)
    ensures ShoreTame(w.Coast()) && (w.mc > MC_1_6 ==> Thawed(w.Coast()))
  {
    hide World.Zoom64, World.Hills64, World.Sunflower64, World.Zoom1, World.LandLayer;
    if w.mc <= MC_1_0 {
      Biome64Tame(w);
      ZoomTwice(w, 1000, 0, w.Zoom64());
      LandTame(w, 3, w.Zoom1(1000, w.Zoom64()));
    } else {
      HillsTame(w);
      var p := if w.mc <= MC_1_6 then w.Hills64() else w.Sunflower64();
      ZoomTwice(w, 1000, 0, p);
      LandTame(w, 3, w.Zoom1(1000, p));
      ZoomTwice(w, 1001, 0, w.LandLayer(3, w.Zoom1(1000, p)));
    }
  }

  lemma ShoreStageTame(w: World)
    ensures ShoreTame(w.Land16()) && ShoreTame(w.Zoom4()) && ShoreTame(w.Smooth4())
  {
    hide SwampRiverRule, World.Coast, World.Zoom1, World.Zoom2;
    CoastTame(w);
    assert ShoreTame(w.Shore16());
    ZoomTwice(w, 1001, 0, w.Shore16());
    ZoomTwice(w, 1002, 1003, w.Land16());
    ZoomTwice(w, 1004, 1005, w.Zoom4());
  }

  lemma RiverTame(w: World)
    ensures ShoreTame(w.River4())
  {
    hide RiverRule, World.Noise256, World.Zoom2;
    NoiseTame(w);
    var a := w.Zoom2(1000, 1001, w.Noise256());
    ZoomTwice(w, 1000, 1001, w.Noise256());
    ZoomTwice(w, 1002, 1003, a);
    ZoomTwice(w, 1004, 1005, w.Zoom2(1002, 1003, a));
    ZoomTwice(w, 1006, 1007, w.Zoom2(1004, 1005, w.Zoom2(1002, 1003, a)));
    ZoomTwice(w, 1000, 1001, a);
    ZoomTwice(w, 1002, 1003, w.Zoom2(1000, 1001, a));
    ZoomTwice(w, 1004, 1005, w.Zoom2(1002, 1003, w.Zoom2(1000, 1001, a)));
    var r := w.River4();
    assert ShoreTame(r.p.p) && ShoreTame(r.p);
  }

  lemma OceanTame(w: World)
    ensures ShoreTame(w.Ocean4())
  {
    hide World.Zoom2;
    var o := OceanTemp(w.oceanNoise);
    assert ShoreTame(o);
    ZoomTwice(w, 2001, 2002, o);
    ZoomTwice(w, 2003, 2004, w.Zoom2(2001, 2002, o));
    ZoomTwice(w, 2005, 2006, w.Zoom2(2003, 2004, w.Zoom2(2001, 2002, o)));
  }

  /** In no version can a frozen ocean reach mapShore, so that every entry point of the stack is
      a function of the world cell. */
  lemma EntrySafe(w: World, scale: int)
    requires w.HasScale(scale)
    ensures ShoreTame(w.Entry(scale)) && ShoreSafe(w.Entry(scale))
  {
    hide ShoreSafe, World.Smooth4, World.River4, World.Ocean4, World.Zoom4, World.Land16, World.Hills64, World.Sunflower64,
         World.Zoom64, World.Biome256, World.Bamboo256;
    ShoreStageTame(w);
    RiverTame(w);
    OceanTame(w);
    HillsTame(w);
    Biome64Tame(w);
    BiomeTame(w);
    assert ShoreTame(w.RiverMix4());
    TameIsSafe(w.Entry(scale));
  }

  /** genArea on the entry point of a scale: for every version, seed and window the cells of one
      plane, inside the reported buffer size. */
  method GenStackArea(w: World, scale: int, out: array<int>, x: int, z: int, sx: nat, sz: nat)
    requires w.HasScale(scale)
    requires CacheSize(w.Entry(scale), sx, sz) <= out.Length
    modifies out
    ensures forall i: nat, j: nat :: i < sx && j < sz ==>
      Index(sx, i, j) < out.Length && out[Index(sx, i, j)] == F(w.Entry(scale), x + i, z + j)
    ensures forall k :: CacheSize(w.Entry(scale), sx, sz) <= k < out.Length ==> out[k] == old(out[k])
  {
    hide *;
    EntrySafe(w, scale);
    ghost var s := GenArea(w.Entry(scale), out, x, z, sx, sz);
  }
}
