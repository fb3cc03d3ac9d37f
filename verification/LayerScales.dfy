/** The scales that setupScale (generator.c) hands down a layer stack. They fit together only if
    every branch of a stack has the right number of zooms. */
module LayerScales {
  import opened Biomes
  import opened LayerRng
  import opened LayerRules
  import opened LayerStack
  import opened LayerTree

  /** Layer l is at scale s, and so is what is below it: a zoom is handed twice the scale of its
      block, both parents of a mixing layer get the same, and the walk comes down to continents at
      scale c and to ocean types at 256. */
  predicate AtScale(l: Layer, c: nat, s: nat) {
    match l
    case Continent(_) => s == c
    case OceanTemp(_) => s == 256
    case ZoomFuzzy(_, p) => AtScale(p, c, 2 * s)
    case Zoom(_, p) => AtScale(p, c, 2 * s)
    case Hills(_, _, _, p, p2) => AtScale(p, c, s) && AtScale(p2, c, s)
    case RiverMix(_, p, p2) => AtScale(p, c, s) && AtScale(p2, c, s)
    case OceanMix(p, p2) => AtScale(p, c, s) && AtScale(p2, c, s)
    case _ => AtScale(l.p, c, s)
  }

  /** The scale of the continents below ground at scale s. */
  function Base(w: World, s: nat): nat {
    if w.mc == MC_B1_8 then 32 * s else 16 * s
  }

  lemma ZoomScale(w: World, a: nat, b: nat, p: Layer, c: nat, s: nat)
    ensures AtScale(w.Zoom1(a, p), c, s) <==> AtScale(p, c, 2 * s)
    ensures AtScale(w.Zoom2(a, b, p), c, s) <==> AtScale(p, c, 4 * s)
  {
    assert AtScale(Zoom(w.S(a), p), c, 2 * s) <==> AtScale(p, c, 2 * (2 * s));
  }

  lemma LandScale(w: World, salt: nat, p: Layer, c: nat, s: nat)
    ensures AtScale(w.LandLayer(salt, p), c, s) <==> AtScale(p, c, s)
  {
  }

  lemma FirstScale(w: World, c: nat, s: nat)
    ensures AtScale(ZoomFuzzy(w.S(2000), Continent(w.S(1))), c, s) <==> c == 2 * s
  {
    assert AtScale(Continent(w.S(1)), c, 2 * s) <==> c == 2 * s;
  }

  lemma B18Scale(w: World, c: nat, s: nat)
    ensures AtScale(w.GroundB18(), c, s) <==> c == 32 * s
  {
    hide World.LandLayer, World.Zoom1;
    var start := ZoomFuzzy(w.S(2000), Continent(w.S(1)));
    var a := w.LandLayer(1, start);
    var b := w.LandLayer(2, w.Zoom1(2001, a));
    var c' := w.LandLayer(3, w.Zoom1(2002, b));
    var d := w.LandLayer(3, w.Zoom1(2003, c'));
    LandScale(w, 3, w.Zoom1(2004, d), c, s);
    ZoomScale(w, 2004, 0, d, c, s);
    LandScale(w, 3, w.Zoom1(2003, c'), c, 2 * s);
    ZoomScale(w, 2003, 0, c', c, 2 * s);
    LandScale(w, 3, w.Zoom1(2002, b), c, 4 * s);
    ZoomScale(w, 2002, 0, b, c, 4 * s);
    LandScale(w, 2, w.Zoom1(2001, a), c, 8 * s);
    ZoomScale(w, 2001, 0, a, c, 8 * s);
    LandScale(w, 1, start, c, 16 * s);
    FirstScale(w, c, 16 * s);
  }

  lemma OldScale(w: World, c: nat, s: nat)
    ensures AtScale(w.Ground16(), c, s) <==> c == 16 * s
  {
    hide World.LandLayer, World.Zoom1, Snow16Rule, MushroomRule;
    var start := ZoomFuzzy(w.S(2000), Continent(w.S(1)));
    var a := w.LandLayer(1, start);
    var b := w.LandLayer(2, w.Zoom1(2001, a));
    var c' := Around(Snow16Rule(w.S(2)), b);
    var d := w.LandLayer(3, w.Zoom1(2002, c'));
    var e := w.LandLayer(4, w.Zoom1(2003, d));
    assert AtScale(Around(MushroomRule(w.S(5)), e), c, s) <==> AtScale(e, c, s);
    LandScale(w, 4, w.Zoom1(2003, d), c, s);
    ZoomScale(w, 2003, 0, d, c, s);
    LandScale(w, 3, w.Zoom1(2002, c'), c, 2 * s);
    ZoomScale(w, 2002, 0, c', c, 2 * s);
    assert AtScale(c', c, 4 * s) <==> AtScale(b, c, 4 * s);
    LandScale(w, 2, w.Zoom1(2001, a), c, 4 * s);
    ZoomScale(w, 2001, 0, a, c, 4 * s);
    LandScale(w, 1, start, c, 8 * s);
    FirstScale(w, c, 8 * s);
  }

  lemma ContinentsScale(w: World, c: nat, s: nat)
    ensures AtScale(w.Continents(), c, s) <==> c == 4 * s
  {
    hide World.Zoom1;
    var a := Land(w.S(1), ZoomFuzzy(w.S(2000), Continent(w.S(1))));
    var b := Land(w.S(2), w.Zoom1(2001, a));
    assert AtScale(Land(w.S(50), b), c, s) <==> AtScale(b, c, s);
    assert AtScale(b, c, s) <==> AtScale(w.Zoom1(2001, a), c, s);
    ZoomScale(w, 2001, 0, a, c, s);
    FirstScale(w, c, 2 * s);
  }

  lemma ClimatesScale(w: World, p: Layer, c: nat, s: nat)
    ensures AtScale(w.Climates(p), c, s) <==> AtScale(p, c, s)
  {
    hide SnowRule, CoolRule, HeatRule, SpecialRule;
    var a := Around(SnowRule(w.S(2)), Island(w.S(2), p));
    var b := Around(CoolRule(), Land(w.S(3), a));
    assert AtScale(a.p, c, s) <==> AtScale(p, c, s);
    assert AtScale(b.p, c, s) <==> AtScale(a, c, s);
    assert AtScale(Around(HeatRule(), b), c, s) <==> AtScale(b, c, s);
  }

  lemma NewScale(w: World, c: nat, s: nat)
    ensures AtScale(w.Ground17(), c, s) <==> c == 16 * s
  {
    hide MushroomRule, DeepOceanRule, World.Climates, World.Continents, World.Zoom2;
    var p := w.Climates(w.Continents());
    var a := Land(w.S(4), w.Zoom2(2002, 2003, p));
    assert AtScale(Around(MushroomRule(w.S(5)), a), c, s) <==> AtScale(a, c, s);
    ZoomScale(w, 2002, 2003, p, c, s);
    ClimatesScale(w, w.Continents(), c, 4 * s);
    ContinentsScale(w, c, 4 * s);
  }

  lemma GroundScale(w: World, c: nat, s: nat)
    ensures AtScale(w.Ground256(), c, s) <==> c == Base(w, s)
    ensures AtScale(w.Biome256(), c, s) <==> c == Base(w, s)
    ensures AtScale(w.Bamboo256(), c, s) <==> c == Base(w, s)
    ensures AtScale(w.Noise256(), c, s) <==> c == Base(w, s)
  {
    hide World.GroundB18, World.Ground16, World.Ground17, BiomeRule, BambooRule, NoiseRule;
    B18Scale(w, c, s);
    OldScale(w, c, s);
    NewScale(w, c, s);
    assert AtScale(w.Biome256(), c, s) <==> AtScale(w.Ground256(), c, s);
  }

  lemma HillsScale(w: World, c: nat, s: nat)
    ensures AtScale(w.Zoom64(), c, s) <==> c == Base(w, 4 * s)
    ensures AtScale(w.Hills64(), c, s) <==> c == Base(w, 4 * s)
    ensures AtScale(w.Sunflower64(), c, s) <==> c == Base(w, 4 * s)
  {
    hide World.Bamboo256, World.Noise256, World.Zoom2, BiomeEdgeRule, SunflowerRule, Base;
    GroundScale(w, c, 4 * s);
    ZoomScale(w, 1000, 1001, w.Bamboo256(), c, s);
    ZoomScale(w, 0, 0, w.Noise256(), c, s);
    ZoomScale(w, 1000, 1001, w.Noise256(), c, s);
    assert AtScale(w.Biome64(), c, s) <==> AtScale(w.Zoom64(), c, s);
    assert AtScale(w.HillsNoise64(), c, s) <==> c == Base(w, 4 * s);
    assert AtScale(w.Sunflower64(), c, s) <==> AtScale(w.Hills64(), c, s);
  }

  /** The coast is two zooms below the hills; up to 1.0 it is one, and the shore is made at 1:32. */
  lemma CoastScale(w: World, c: nat, s: nat)
    ensures AtScale(w.Land16(), c, s) <==> c == Base(w, 16 * s)
    ensures AtScale(w.Shore16(), c, if w.mc <= MC_1_0 then 2 * s else s) <==> c == Base(w, 16 * s)
  {
    hide World.Zoom64, World.Hills64, World.Sunflower64, World.Zoom1, World.LandLayer, SwampRiverRule, Base;
    HillsScale(w, c, 4 * s);
    var p := if w.mc <= MC_1_0 then w.Zoom64() else if w.mc <= MC_1_6 then w.Hills64() else w.Sunflower64();
    var z := w.Zoom1(1000, p);
    ZoomScale(w, 1000, 0, p, c, 2 * s);
    LandScale(w, 3, z, c, 2 * s);
    ZoomScale(w, 1001, 0, w.LandLayer(3, z), c, s);
    ZoomScale(w, 1001, 0, w.Shore16(), c, s);
    var t := if w.mc <= MC_1_0 then 2 * s else s;
    assert AtScale(w.Shore16(), c, t) <==> AtScale(w.Coast(), c, t);
  }

  /** The land of large biomes is four times as wide. */
  function Wider(w: World, s: nat): nat {
    if w.Large() then 4 * s else s
  }

  lemma Land4Scale(w: World, c: nat, s: nat)
    ensures AtScale(w.Zoom4(), c, s) <==> c == Base(w, 64 * s)
    ensures AtScale(w.Smooth4(), c, s) <==> c == Base(w, 64 * Wider(w, s))
  {
    hide World.Land16, World.Zoom2, Base, AtScale;
    CoastScale(w, c, 4 * s);
    ZoomScale(w, 1002, 1003, w.Land16(), c, s);
    CoastScale(w, c, 16 * s);
    ZoomScale(w, 1002, 1003, w.Land16(), c, 4 * s);
    ZoomScale(w, 1004, 1005, w.Zoom4(), c, s);
    var p := if w.Large() then w.Zoom2(1004, 1005, w.Zoom4()) else w.Zoom4();
    SmoothScale(w.S(1000), p, c, s);
  }

  lemma SmoothScale(seed: Seed, p: Layer, c: nat, s: nat)
    ensures AtScale(Smooth(seed, p), c, s) <==> AtScale(p, c, s)
  {
  }

  /** The rivers are as wide as the land up to 1.7 only. */
  function WiderRivers(w: World, s: nat): nat {
    if w.mc <= MC_1_7 then Wider(w, s) else s
  }

  lemma RiverScale(w: World, c: nat, s: nat)
    ensures AtScale(w.River4(), c, s) <==> c == Base(w, 64 * WiderRivers(w, s))
  {
    hide World.Noise256, World.Zoom2, RiverRule, Base;
    var n := w.Noise256();
    var a := w.Zoom2(1000, 1001, n);
    var early := w.Zoom2(1002, 1003, a);
    var late := w.Zoom2(1000, 1001, a);
    var t := WiderRivers(w, s);
    RiverBranch(w, n, if w.mc <= MC_1_6 then 1002 else 1000, c, t);
    var b := if w.mc <= MC_1_6 then w.Zoom2(1004, 1005, early) else w.Zoom2(1002, 1003, late);
    assert AtScale(b, c, t) <==> c == Base(w, 64 * t);
    ZoomScale(w, 1006, 1007, b, c, s);
    ZoomScale(w, 1004, 1005, b, c, s);
    var r := w.River4();
    assert AtScale(r, c, s) <==> AtScale(r.p, c, s);
    assert AtScale(r.p, c, s) <==> AtScale(r.p.p, c, s);
  }

  /** Six zooms below the river noise. */
  lemma RiverBranch(w: World, n: Layer, salt: nat, c: nat, s: nat)
    requires n == w.Noise256()
    ensures var a := w.Zoom2(1000, 1001, n);
            AtScale(w.Zoom2(salt + 2, salt + 3, w.Zoom2(salt, salt + 1, a)), c, s) <==> c == Base(w, 64 * s)
  {
    hide World.Noise256, World.Zoom2, Base, AtScale;
    var a := w.Zoom2(1000, 1001, n);
    var b := w.Zoom2(salt, salt + 1, a);
    ZoomScale(w, salt + 2, salt + 3, b, c, s);
    ZoomScale(w, salt, salt + 1, a, c, 4 * s);
    ZoomScale(w, 1000, 1001, n, c, 16 * s);
    GroundScale(w, c, 64 * s);
  }

  lemma OceanScale(w: World, c: nat, s: nat)
    ensures AtScale(w.Ocean4(), c, s) <==> s == 4
  {
    hide World.Zoom2;
    var o := OceanTemp(w.oceanNoise);
    var a := w.Zoom2(2001, 2002, o);
    ZoomScale(w, 2005, 2006, w.Zoom2(2003, 2004, a), c, s);
    ZoomScale(w, 2003, 2004, a, c, 4 * s);
    ZoomScale(w, 2001, 2002, o, c, 16 * s);
    assert AtScale(o, c, 64 * s) <==> 64 * s == 256;
  }

  /** The continents under every entry point: 1:8192 in Beta 1.8 and 1:4096 later, four times that
      for large biomes. */
  function ContinentScale(w: World): nat {
    Wider(w, if w.mc == MC_B1_8 then 8192 else 4096)
  }

  /** The entry point of a scale is at that scale, in all its branches and for no other scale of the
      continents, with one exception: the rivers of large biomes after 1.7. */
  lemma EntryScale(w: World, scale: int, c: nat)
    requires w.HasScale(scale)
    ensures AtScale(w.Entry(scale), c, scale)
            <==> c == ContinentScale(w) && !(scale == 4 && w.Large() && w.mc > MC_1_7)
  {
    if scale == 4 {
      EntryScale4(w, c);
    } else {
      EntryScaleAbove(w, scale, c);
    }
  }

  lemma EntryScale4(w: World, c: nat)
    ensures AtScale(w.Entry(4), c, 4) <==> c == ContinentScale(w) && !(w.Large() && w.mc > MC_1_7)
  {
    hide World.Smooth4, World.River4, World.Ocean4;
    Land4Scale(w, c, 4);
    RiverScale(w, c, 4);
    OceanScale(w, c, 4);
    assert AtScale(w.RiverMix4(), c, 4) <==> AtScale(w.Smooth4(), c, 4) && AtScale(w.River4(), c, 4);
    assert AtScale(OceanMix(w.RiverMix4(), w.Ocean4()), c, 4) <==> AtScale(w.RiverMix4(), c, 4);
  }

  lemma EntryScaleAbove(w: World, scale: int, c: nat)
    requires w.HasScale(scale) && scale != 4
    ensures AtScale(w.Entry(scale), c, scale) <==> c == ContinentScale(w)
  {
    hide AtScale, World.Zoom4, World.Land16, World.Hills64, World.Sunflower64, World.Zoom64, World.Biome256, World.Bamboo256;
    GroundScale(w, c, scale);
    HillsScale(w, c, scale);
    CoastScale(w, c, scale);
    Land4Scale(w, c, scale);
  }

  /** There the rivers come from continents a quarter as wide as those of the land. */
  lemma LargeRivers(w: World)
    requires w.Large() && w.mc > MC_1_7
    ensures AtScale(w.Smooth4(), 4 * 4096, 4) && AtScale(w.River4(), 4096, 4)
  {
    hide World.Smooth4, World.River4;
    Land4Scale(w, 4 * 4096, 4);
    RiverScale(w, 4096, 4);
  }
}
