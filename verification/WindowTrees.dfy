/** What a `getMap` call leaves in its window, for every tree of layers. A layer only ever sees the
    window that its parent left, so its own is that of a tree in which the parent is replaced by
    what the window shows. If no cell is left stale, it is the window of the layer's plane. */
module WindowTrees {
  import opened Biomes
  import opened LayerBuffers
  import opened LayerRng
  import opened LayerTree
  import opened Products
  import opened Windows

  // ----- a window as a layer

  /** The plane with the elements of a window at its cells. */
  function PlaneAt(s: seq<int>, x: int, z: int, w: nat): Plane {
    (a: int, b: int) => if x <= a < x + w && z <= b && Area(w, b - z) + (a - x) < |s| then s[Area(w, b - z) + (a - x)] else 0
  }

  lemma PlaneShows(s: seq<int>, x: int, z: int, w: nat, h: nat)
    requires |s| == Area(w, h)
    ensures Window(PlaneAt(s, x, z, w), x, z, w, h) == s
  {
    hide Area, Window;
    var win := Window(PlaneAt(s, x, z, w), x, z, w, h);
    forall k | 0 <= k < |s|
      ensures win[k] == s[k]
    {
      var i, j := Unindex(w, h, k);
      WindowAt(PlaneAt(s, x, z, w), x, z, w, h, i, j);
    }
  }

  /** The column and the row of an element. */
  lemma {:induction false} Unindex(w: nat, h: nat, k: nat) returns (i: nat, j: nat)
    requires k < Area(w, h)
    ensures i < w && j < h && k == Area(w, j) + i
    decreases h
  {
    hide Area;
    AreaNext(w, 0);
    AreaNext(w, h - 1);
    if k < Area(w, h - 1) {
      i, j := Unindex(w, h - 1, k);
    } else {
      i, j := k - Area(w, h - 1), h - 1;
    }
  }

  /** A layer that means a given plane. */
  function Given(g: Plane): Layer {
    Point(0, (x: int, z: int, v: int) => g(x, z), Continent(Seed(0, 0)))
  }

  /** The layer that means what a window shows. */
  function Left(s: seq<int>, x: int, z: int, w: nat): Layer {
    Given(PlaneAt(s, x, z, w))
  }

  lemma LeftShows(s: seq<int>, x: int, z: int, w: nat, h: nat)
    requires |s| == Area(w, h)
    ensures Window(Meaning(Left(s, x, z, w)), x, z, w, h) == s
  {
    hide Window, PlaneAt;
    WindowCongruent(PlaneAt(s, x, z, w), Meaning(Left(s, x, z, w)), x, z, w, h);
    PlaneShows(s, x, z, w, h);
  }

  // ----- what the layers leave

  /** What mapShore leaves behind: a skipped cell keeps what happened to be in its place, which
      is a parent cell that depends on the width and the position of the window. */
  ghost function ShoreResult(l: Layer, x: int, z: int, w: nat, h: nat): (r: seq<int>)
    requires l.Shore?
    ensures |r| == Area(w, h)
  {
    var centre, wide := Window(Meaning(l.p), x, z, w, h), Window(Meaning(l.p), x - 1, z - 1, w + 2, h + 2);
    AreaMonotone(w, h, w + 2, h + 2);
    seq(Area(w, h), k requires 0 <= k < Area(w, h) =>
      if ShoreSkips(l.mc, centre[k]) then wide[k] else Window(Meaning(l), x, z, w, h)[k])
  }

  /** mapShore fills its window with the layer's plane if no parent cell in it is skipped. */
  lemma ShoreSafeResult(l: Layer, x: int, z: int, w: nat, h: nat)
    requires l.Shore? && forall a, b | x <= a < x + w && z <= b < z + h :: !ShoreSkips(l.mc, F(l.p, a, b))
    ensures ShoreResult(l, x, z, w, h) == Window(Meaning(l), x, z, w, h)
  {
    hide Area, Window, F, ShoreSkips;
    var centre := Window(Meaning(l.p), x, z, w, h);
    forall k | 0 <= k < Area(w, h)
      ensures !ShoreSkips(l.mc, centre[k])
    {
      var i, j := Unindex(w, h, k);
      WindowAt(Meaning(l.p), x, z, w, h, i, j);
    }
  }

  /** A layer's content, computed from parents that are given. */
  ghost function Content(l: Layer, x: int, z: int, w: nat, h: nat): (r: seq<int>)
    ensures |r| == Area(w, h)
  {
    if l.Shore? then ShoreResult(l, x, z, w, h) else Window(Meaning(l), x, z, w, h)
  }

  ghost predicate ExtremeAt(p2: Layer, x: int, z: int, a: int, b: int) {
    Extreme(F(p2, x + a, z + b))
  }

  /** The box reaches eight cells past an extreme ocean cell at (a, b). */
  predicate Within(lx0: int, lx1: int, lz0: int, lz1: int, a: int, b: int) {
    lx0 <= a - 8 && a + 9 <= lx1 && lz0 <= b - 8 && b + 9 <= lz1
  }

  /** The land window reaches eight cells past each extreme ocean cell. */
  ghost predicate BorderAround(p2: Layer, x: int, z: int, w: nat, h: nat, lx0: int, lz0: int, lw: nat, lh: nat) {
    && -8 <= lx0 <= 0 && w <= lx0 + lw && -8 <= lz0 <= 0 && h <= lz0 + lh
    && forall a, b :: 0 <= a < w && 0 <= b < h && ExtremeAt(p2, x, z, a, b) ==> Within(lx0, lx0 + lw, lz0, lz0 + lh, a, b)
  }

  datatype Box = Box(x: int, z: int, w: nat, h: nat)

  /** The window that a layer asks its parents for; that of mapOceanMix for its land is another one. */
  function ParentBox(l: Layer, b: Box): Box {
    if l.Zoom? || l.ZoomFuzzy? then Box(b.x / 2, b.z / 2, (b.x + b.w) / 2 - b.x / 2 + 1, (b.z + b.h) / 2 - b.z / 2 + 1)
    else if l.Point? || l.RiverMix? || l.OceanMix? then b
    else Box(b.x - 1, b.z - 1, b.w + 2, b.h + 2)
  }

  function Shown(s: seq<int>, b: Box): Layer {
    Left(s, b.x, b.z, b.w)
  }

  /** The layer with other parents. */
  function Over(l: Layer, q: Layer, q2: Layer): Layer {
    match l
    case Continent(_) => l
    case OceanTemp(_) => l
    case ZoomFuzzy(seed, _) => ZoomFuzzy(seed, q)
    case Zoom(seed, _) => Zoom(seed, q)
    case Land(seed, _) => Land(seed, q)
    case Island(seed, _) => Island(seed, q)
    case Smooth(seed, _) => Smooth(seed, q)
    case Shore(mc, _) => Shore(mc, q)
    case Point(edge, point, _) => Point(edge, point, q)
    case Around(around, _) => Around(around, q)
    case Hills(mc, seed, similar, _, _) => Hills(mc, seed, similar, q, q2)
    case RiverMix(mc, _, _) => RiverMix(mc, q, q2)
    case OceanMix(_, _) => OceanMix(q, q2)
  }

  /** One of the contents that the layer's window can be left with. */
  ghost predicate Yields(l: Layer, b: Box, s: seq<int>)
    decreases l
  {
    match l
    case Continent(_) => s == Content(l, b.x, b.z, b.w, b.h)
    case OceanTemp(_) => s == Content(l, b.x, b.z, b.w, b.h)
    case Hills(_, _, _, p, p2) =>
      exists s0, s1 :: Yields(p, ParentBox(l, b), s0) && Yields(p2, ParentBox(l, b), s1)
        && s == Content(Over(l, Shown(s0, ParentBox(l, b)), Shown(s1, ParentBox(l, b))), b.x, b.z, b.w, b.h)
    case RiverMix(_, p, p2) =>
      exists s0, s1 :: Yields(p, ParentBox(l, b), s0) && Yields(p2, ParentBox(l, b), s1)
        && s == Content(Over(l, Shown(s0, ParentBox(l, b)), Shown(s1, ParentBox(l, b))), b.x, b.z, b.w, b.h)
    case OceanMix(p, p2) =>
      exists s0, s1, land: Box :: Yields(p, land, s0) && Yields(p2, b, s1)
        && BorderAround(Shown(s1, b), b.x, b.z, b.w, b.h, land.x - b.x, land.z - b.z, land.w, land.h)
        && s == Content(Over(l, Shown(s0, land), Shown(s1, b)), b.x, b.z, b.w, b.h)
    case _ =>
      exists s0 :: Yields(l.p, ParentBox(l, b), s0)
        && s == Content(Over(l, Shown(s0, ParentBox(l, b)), Shown(s0, ParentBox(l, b))), b.x, b.z, b.w, b.h)
  }

  lemma ShownWindow(s: seq<int>, b: Box)
    requires |s| == Area(b.w, b.h)
    ensures Window(Meaning(Shown(s, b)), b.x, b.z, b.w, b.h) == s
  {
    hide Window, Left;
    LeftShows(s, b.x, b.z, b.w, b.h);
  }

  lemma YieldsSize(l: Layer, b: Box, s: seq<int>)
    requires Yields(l, b, s)
    ensures |s| == Area(b.w, b.h)
  {
    hide Content, Over, Shown, BorderAround;
  }

  lemma YieldsLeaf(l: Layer, b: Box)
    requires !HasParent(l)
    ensures Yields(l, b, Window(Meaning(l), b.x, b.z, b.w, b.h))
  {
    hide Window;
  }

  /** What a layer makes of what its parent may have left. */
  lemma YieldsOne(l: Layer, b: Box, s0: seq<int>)
    requires HasParent(l) && !HasSecondParent(l) && Yields(l.p, ParentBox(l, b), s0)
    ensures
      var pb := ParentBox(l, b);
      var m := Over(l, Shown(s0, pb), Shown(s0, pb));
      && Yields(l, b, Content(m, b.x, b.z, b.w, b.h)) && Window(Meaning(Shown(s0, pb)), pb.x, pb.z, pb.w, pb.h) == s0
      && Content(m, b.x, b.z, b.w, b.h) == if l.Shore? then ShoreResult(m, b.x, b.z, b.w, b.h) else Window(Meaning(m), b.x, b.z, b.w, b.h)
  {
    hide Shown, ParentBox, Window, ShoreResult;
    YieldsSize(l.p, ParentBox(l, b), s0);
    ShownWindow(s0, ParentBox(l, b));
  }

  lemma YieldsTwo(l: Layer, b: Box, s0: seq<int>, s1: seq<int>)
    requires (l.Hills? || l.RiverMix?) && Yields(l.p, ParentBox(l, b), s0) && Yields(l.p2, ParentBox(l, b), s1)
    ensures
      var pb := ParentBox(l, b);
      var m := Over(l, Shown(s0, pb), Shown(s1, pb));
      && Yields(l, b, Window(Meaning(m), b.x, b.z, b.w, b.h))
      && Window(Meaning(Shown(s0, pb)), pb.x, pb.z, pb.w, pb.h) == s0
      && Window(Meaning(Shown(s1, pb)), pb.x, pb.z, pb.w, pb.h) == s1
  {
    hide Shown, ParentBox, Window;
    YieldsSize(l.p, ParentBox(l, b), s0);
    ShownWindow(s0, ParentBox(l, b));
    YieldsSize(l.p2, ParentBox(l, b), s1);
    ShownWindow(s1, ParentBox(l, b));
    assert Content(Over(l, Shown(s0, ParentBox(l, b)), Shown(s1, ParentBox(l, b))), b.x, b.z, b.w, b.h)
        == Window(Meaning(Over(l, Shown(s0, ParentBox(l, b)), Shown(s1, ParentBox(l, b)))), b.x, b.z, b.w, b.h);
  }

  lemma YieldsOcean(l: Layer, b: Box, land: Box, s0: seq<int>, s1: seq<int>)
    requires l.OceanMix? && Yields(l.p, land, s0) && Yields(l.p2, b, s1)
    requires BorderAround(Shown(s1, b), b.x, b.z, b.w, b.h, land.x - b.x, land.z - b.z, land.w, land.h)
    ensures Yields(l, b, Window(Meaning(Over(l, Shown(s0, land), Shown(s1, b))), b.x, b.z, b.w, b.h))
    ensures Window(Meaning(Shown(s0, land)), land.x, land.z, land.w, land.h) == s0
  {
    hide Shown, Window, BorderAround, Content, Over, Meaning, Yields;
    YieldsSize(l.p, land, s0);
    ShownWindow(s0, land);
    OceanKeepsKind(l, Shown(s0, land), Shown(s1, b), b);
    OceanYields(l, b, land, s0, s1);
  }

  lemma OceanKeepsKind(l: Layer, q: Layer, q2: Layer, b: Box)
    requires l.OceanMix?
    ensures Content(Over(l, q, q2), b.x, b.z, b.w, b.h) == Window(Meaning(Over(l, q, q2)), b.x, b.z, b.w, b.h)
  {
    hide Window, Meaning;
  }

  lemma OceanYields(l: Layer, b: Box, land: Box, s0: seq<int>, s1: seq<int>)
    requires l.OceanMix? && Yields(l.p, land, s0) && Yields(l.p2, b, s1)
    requires BorderAround(Shown(s1, b), b.x, b.z, b.w, b.h, land.x - b.x, land.z - b.z, land.w, land.h)
    ensures Yields(l, b, Content(Over(l, Shown(s0, land), Shown(s1, b)), b.x, b.z, b.w, b.h))
  {
    hide Shown, BorderAround, Content, Over;
  }

  lemma BorderIs(p2: Layer, x: int, z: int, w: nat, h: nat, lx0: int, lx1: int, lz0: int, lz1: int)
    requires -8 <= lx0 <= 0 && w <= lx1 <= w + 8 && -8 <= lz0 <= 0 && h <= lz1 <= h + 8
    requires forall a, b :: 0 <= a < w && 0 <= b < h && ExtremeAt(p2, x, z, a, b) ==> Within(lx0, lx1, lz0, lz1, a, b)
    ensures BorderAround(p2, x, z, w, h, lx0, lz0, lx1 - lx0, lz1 - lz0)
  {
    hide ExtremeAt, Within;
  }

  // ----- without stale cells

  predicate Inside(b: Box, x: int, z: int) {
    b.x <= x < b.x + b.w && b.z <= z < b.z + b.h
  }

  /** Two layers agree on a window. */
  ghost predicate Agree(p: Layer, q: Layer, b: Box) {
    forall x, z | Inside(b, x, z) :: F(q, x, z) == F(p, x, z)
  }

  lemma ShownCell(s: seq<int>, b: Box, x: int, z: int)
    requires Inside(b, x, z) && Area(b.w, z - b.z) + (x - b.x) < |s|
    ensures F(Shown(s, b), x, z) == s[Area(b.w, z - b.z) + (x - b.x)]
  {
    hide Area;
  }

  lemma ShownAgrees(p: Layer, b: Box, s: seq<int>)
    requires s == Window(Meaning(p), b.x, b.z, b.w, b.h)
    ensures Agree(p, Shown(s, b), b)
  {
    hide Area, Window, F, Shown;
    forall x, z | Inside(b, x, z)
      ensures F(Shown(s, b), x, z) == F(p, x, z)
    {
      WindowAt(Meaning(p), b.x, b.z, b.w, b.h, x - b.x, z - b.z);
      ShownCell(s, b, x, z);
    }
  }

  /** A cell in the window only depends on the parents' windows. */
  lemma SameCell(l: Layer, q: Layer, q2: Layer, b: Box, x: int, z: int)
    requires HasParent(l) && !l.OceanMix? && Inside(b, x, z)
    requires Agree(l.p, q, ParentBox(l, b)) && (HasSecondParent(l) ==> Agree(l.p2, q2, ParentBox(l, b)))
    ensures F(Over(l, q, q2), x, z) == F(l, x, z)
  {
    hide LandCell, IslandCell, SmoothCell, ShoreCell, HillsCell, RiverMixCell, ZoomAt, Agree;
    if l.ZoomFuzzy? || l.Zoom? {
      SameZoom(l.p, q, b, l.ZoomFuzzy?, l.seed, x, z);
    } else if l.Point? || l.RiverMix? {
      SamePoint(l, q, q2, b, x, z);
    } else {
      SameNine(l.p, q, b, x, z);
      if l.Hills? {
        SameNine(l.p2, q2, b, x, z);
      }
      SameStencil(l, q, q2, x, z);
    }
  }

  lemma SamePoint(l: Layer, q: Layer, q2: Layer, b: Box, x: int, z: int)
    requires (l.Point? || l.RiverMix?) && Inside(b, x, z) && Agree(l.p, q, b) && (l.RiverMix? ==> Agree(l.p2, q2, b))
    ensures F(Over(l, q, q2), x, z) == F(l, x, z)
  {
    hide RiverMixCell;
    assert F(q, x, z) == F(l.p, x, z);
  }

  lemma SameStencil(l: Layer, q: Layer, q2: Layer, x: int, z: int)
    requires l.Land? || l.Island? || l.Smooth? || l.Shore? || l.Around? || l.Hills?
    requires forall u, v | x - 1 <= u <= x + 1 && z - 1 <= v <= z + 1 :: F(q, u, v) == F(l.p, u, v)
    requires l.Hills? ==> F(q2, x, z) == F(l.p2, x, z)
    ensures F(Over(l, q, q2), x, z) == F(l, x, z)
  {
    hide F;
    var p := l.p;
    assert F(q, x, z) == F(p, x, z) && F(q, x, z - 1) == F(p, x, z - 1) && F(q, x, z + 1) == F(p, x, z + 1);
    assert F(q, x - 1, z) == F(p, x - 1, z) && F(q, x + 1, z) == F(p, x + 1, z);
    if l.Land? || l.Around? {
      assert F(q, x - 1, z - 1) == F(p, x - 1, z - 1) && F(q, x + 1, z - 1) == F(p, x + 1, z - 1);
      assert F(q, x - 1, z + 1) == F(p, x - 1, z + 1) && F(q, x + 1, z + 1) == F(p, x + 1, z + 1);
      SameCorners(l, q, x, z);
    } else {
      SameCross(l, q, q2, x, z);
    }
  }

  lemma SameCorners(l: Layer, q: Layer, x: int, z: int)
    requires l.Land? || l.Around?
    requires F(q, x, z) == F(l.p, x, z) && F(q, x, z - 1) == F(l.p, x, z - 1) && F(q, x, z + 1) == F(l.p, x, z + 1)
    requires F(q, x - 1, z) == F(l.p, x - 1, z) && F(q, x + 1, z) == F(l.p, x + 1, z)
    requires F(q, x - 1, z - 1) == F(l.p, x - 1, z - 1) && F(q, x + 1, z - 1) == F(l.p, x + 1, z - 1)
    requires F(q, x - 1, z + 1) == F(l.p, x - 1, z + 1) && F(q, x + 1, z + 1) == F(l.p, x + 1, z + 1)
    ensures F(Over(l, q, q), x, z) == F(l, x, z)
  {
    hide LandCell;
  }

  lemma SameCross(l: Layer, q: Layer, q2: Layer, x: int, z: int)
    requires l.Island? || l.Smooth? || l.Shore? || l.Hills?
    requires F(q, x, z) == F(l.p, x, z) && F(q, x, z - 1) == F(l.p, x, z - 1) && F(q, x, z + 1) == F(l.p, x, z + 1)
    requires F(q, x - 1, z) == F(l.p, x - 1, z) && F(q, x + 1, z) == F(l.p, x + 1, z)
    requires l.Hills? ==> F(q2, x, z) == F(l.p2, x, z)
    ensures F(Over(l, q, q2), x, z) == F(l, x, z)
  {
    hide IslandCell, SmoothCell, ShoreCell, HillsCell;
  }

  lemma SameNine(p: Layer, q: Layer, b: Box, x: int, z: int)
    requires Inside(b, x, z) && Agree(p, q, Box(b.x - 1, b.z - 1, b.w + 2, b.h + 2))
    ensures forall u, v | x - 1 <= u <= x + 1 && z - 1 <= v <= z + 1 :: F(q, u, v) == F(p, u, v)
  {
    hide F;
  }

  lemma SameZoom(p: Layer, q: Layer, b: Box, fuzzy: bool, seed: Seed, x: int, z: int)
    requires Inside(b, x, z)
    requires Agree(p, q, Box(b.x / 2, b.z / 2, (b.x + b.w) / 2 - b.x / 2 + 1, (b.z + b.h) / 2 - b.z / 2 + 1))
    ensures ZoomAt(fuzzy, seed, q, x, z) == ZoomAt(fuzzy, seed, p, x, z)
  {
    hide ZoomLeft, ZoomTop, ZoomInner, F;
  }

  function OceanMixCell(land: int, ocean: int, near: bool): int {
    if !IsOceanic(land) then land
    else if Extreme(ocean) && near then (if ocean == WARM_OCEAN then LUKEWARM_OCEAN else COLD_OCEAN)
    else DeepVariant(land, ocean)
  }

  lemma OceanMixIs(p: Layer, p2: Layer, x: int, z: int)
    ensures F(OceanMix(p, p2), x, z) == OceanMixCell(F(p, x, z), F(p2, x, z), LandNear(p, x, z))
  {
    hide LandNear, DeepVariant;
  }

  lemma SameOceanMix(p: Layer, p2: Layer, q: Layer, q2: Layer, b: Box, land: Box, x: int, z: int)
    requires Inside(b, x, z) && Agree(p, q, land) && Agree(p2, q2, b)
    requires BorderAround(q2, b.x, b.z, b.w, b.h, land.x - b.x, land.z - b.z, land.w, land.h)
    ensures F(OceanMix(q, q2), x, z) == F(OceanMix(p, p2), x, z)
  {
    hide LandNear, F, IsOceanic, DeepVariant;
    OceanMixIs(p, p2, x, z);
    OceanMixIs(q, q2, x, z);
    assert ExtremeAt(q2, b.x, b.z, x - b.x, z - b.z) <==> Extreme(F(q2, x, z));
    assert Inside(land, x, z);
    if Extreme(F(q2, x, z)) {
      SameLandNear(p, q, land, x, z);
    }
  }

  lemma SameLandNear(p: Layer, q: Layer, land: Box, x: int, z: int)
    requires Agree(p, q, land) && land.x <= x - 8 && x + 9 <= land.x + land.w && land.z <= z - 8 && z + 9 <= land.z + land.h
    ensures LandNear(q, x, z) <==> LandNear(p, x, z)
  {
    hide F;
    forall a, b | 0 <= a < 5 && 0 <= b < 5
      ensures Near(q, x, z, a, b) == Near(p, x, z, a, b)
    {
    }
  }

  lemma OneYielded(l: Layer, b: Box, s: seq<int>) returns (s0: seq<int>)
    requires HasParent(l) && !HasSecondParent(l) && Yields(l, b, s)
    ensures var pb := ParentBox(l, b);
            Yields(l.p, pb, s0) && s == Content(Over(l, Shown(s0, pb), Shown(s0, pb)), b.x, b.z, b.w, b.h)
  {
    hide Content, Over, Shown, ParentBox;
    var pb := ParentBox(l, b);
    s0 :| Yields(l.p, pb, s0) && s == Content(Over(l, Shown(s0, pb), Shown(s0, pb)), b.x, b.z, b.w, b.h);
  }

  lemma TwoYielded(l: Layer, b: Box, s: seq<int>) returns (s0: seq<int>, s1: seq<int>)
    requires (l.Hills? || l.RiverMix?) && Yields(l, b, s)
    ensures var pb := ParentBox(l, b);
            Yields(l.p, pb, s0) && Yields(l.p2, pb, s1) && s == Content(Over(l, Shown(s0, pb), Shown(s1, pb)), b.x, b.z, b.w, b.h)
  {
    hide Content, Over, Shown, ParentBox;
    var pb := ParentBox(l, b);
    s0, s1 :| Yields(l.p, pb, s0) && Yields(l.p2, pb, s1) && s == Content(Over(l, Shown(s0, pb), Shown(s1, pb)), b.x, b.z, b.w, b.h);
  }

  lemma OceanYielded(l: Layer, b: Box, s: seq<int>) returns (s0: seq<int>, s1: seq<int>, land: Box)
    requires l.OceanMix? && Yields(l, b, s)
    ensures Yields(l.p, land, s0) && Yields(l.p2, b, s1)
    ensures BorderAround(Shown(s1, b), b.x, b.z, b.w, b.h, land.x - b.x, land.z - b.z, land.w, land.h)
    ensures s == Content(Over(l, Shown(s0, land), Shown(s1, b)), b.x, b.z, b.w, b.h)
  {
    hide Content, Over, Shown, BorderAround;
    s0, s1, land :| Yields(l.p, land, s0) && Yields(l.p2, b, s1)
      && BorderAround(Shown(s1, b), b.x, b.z, b.w, b.h, land.x - b.x, land.z - b.z, land.w, land.h)
      && s == Content(Over(l, Shown(s0, land), Shown(s1, b)), b.x, b.z, b.w, b.h);
  }

  /** Without stale cells a window shows the layer's plane. */
  lemma {:induction false} YieldsSafe(l: Layer, b: Box, s: seq<int>)
    requires ShoreSafe(l) && Yields(l, b, s)
    ensures s == Window(Meaning(l), b.x, b.z, b.w, b.h)
  {
    hide Yields, Window, Meaning, F, Content, Agree, BorderAround, Over, Shown, ParentBox;
    if l.OceanMix? {
      var s0, s1, land := OceanYielded(l, b, s);
      YieldsSafe(l.p, land, s0);
      YieldsSafe(l.p2, b, s1);
      ShownAgrees(l.p, land, s0);
      ShownAgrees(l.p2, b, s1);
      OceanContent(l, Shown(s0, land), Shown(s1, b), b, land);
    } else if HasSecondParent(l) {
      var pb := ParentBox(l, b);
      var s0, s1 := TwoYielded(l, b, s);
      YieldsSafe(l.p, pb, s0);
      YieldsSafe(l.p2, pb, s1);
      ShownAgrees(l.p, pb, s0);
      ShownAgrees(l.p2, pb, s1);
      SafeContent(l, Shown(s0, pb), Shown(s1, pb), b);
    } else if HasParent(l) {
      var pb := ParentBox(l, b);
      var s0 := OneYielded(l, b, s);
      YieldsSafe(l.p, pb, s0);
      ShownAgrees(l.p, pb, s0);
      SafeContent(l, Shown(s0, pb), Shown(s0, pb), b);
    } else {
      LeafYielded(l, b, s);
    }
  }

  lemma LeafYielded(l: Layer, b: Box, s: seq<int>)
    requires !HasParent(l) && Yields(l, b, s)
    ensures s == Window(Meaning(l), b.x, b.z, b.w, b.h)
  {
    hide Window;
  }

  lemma SafeContent(l: Layer, q: Layer, q2: Layer, b: Box)
    requires HasParent(l) && !l.OceanMix? && ShoreSafe(l)
    requires Agree(l.p, q, ParentBox(l, b)) && (HasSecondParent(l) ==> Agree(l.p2, q2, ParentBox(l, b)))
    ensures Content(Over(l, q, q2), b.x, b.z, b.w, b.h) == Window(Meaning(l), b.x, b.z, b.w, b.h)
  {
    hide Window, F, Agree, ShoreSafe, ParentBox, ShoreResult;
    var m := Over(l, q, q2);
    forall x, z | b.x <= x < b.x + b.w && b.z <= z < b.z + b.h
      ensures Meaning(m)(x, z) == Meaning(l)(x, z)
    {
      SameCell(l, q, q2, b, x, z);
    }
    WindowCongruent(Meaning(m), Meaning(l), b.x, b.z, b.w, b.h);
    if l.Shore? {
      ShoreBox(l, b);
      SafeShore(l, q, b);
    }
  }

  lemma ShoreBox(l: Layer, b: Box)
    requires l.Shore?
    ensures ParentBox(l, b) == Box(b.x - 1, b.z - 1, b.w + 2, b.h + 2)
  {
  }

  lemma SafeShore(l: Layer, q: Layer, b: Box)
    requires l.Shore? && ShoreSafe(l) && Agree(l.p, q, Box(b.x - 1, b.z - 1, b.w + 2, b.h + 2))
    ensures ShoreResult(Shore(l.mc, q), b.x, b.z, b.w, b.h) == Window(Meaning(Shore(l.mc, q)), b.x, b.z, b.w, b.h)
  {
    hide Window, F, ShoreResult;
    forall x, z | b.x <= x < b.x + b.w && b.z <= z < b.z + b.h
      ensures !ShoreSkips(l.mc, F(q, x, z))
    {
      assert !ShoreSkips(l.mc, F(l.p, x, z));
    }
    ShoreSafeResult(Shore(l.mc, q), b.x, b.z, b.w, b.h);
  }

  lemma OceanContent(l: Layer, q: Layer, q2: Layer, b: Box, land: Box)
    requires l.OceanMix? && Agree(l.p, q, land) && Agree(l.p2, q2, b)
    requires BorderAround(q2, b.x, b.z, b.w, b.h, land.x - b.x, land.z - b.z, land.w, land.h)
    ensures Content(Over(l, q, q2), b.x, b.z, b.w, b.h) == Window(Meaning(l), b.x, b.z, b.w, b.h)
  {
    hide Window, F, Agree, BorderAround;
    var m := Over(l, q, q2);
    forall x, z | b.x <= x < b.x + b.w && b.z <= z < b.z + b.h
      ensures Meaning(m)(x, z) == Meaning(l)(x, z)
    {
      SameOceanMix(l.p, l.p2, q, q2, b, land, x, z);
    }
    WindowCongruent(Meaning(m), Meaning(l), b.x, b.z, b.w, b.h);
  }
}
