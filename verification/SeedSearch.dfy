/** search.c: probing one seed for a search specification, and the full scan whose masks fill
    the seed cache. A 64-bit mask is the set of its one bits. */
module SeedSearch {
  import opened KnownAttempts
  import opened StructurePositions
  import opened Words
  import opened Points
  import opened Wrappers
  import opened Products
  import opened Remainders

  datatype BiomeRow = BiomeRow(id: int, bit: nat, rarity: real)
  datatype StructRow = StructRow(kind: int, bit: nat, rarity: real)

  type Mask = set<nat>

  /** What the generator answers for one seed: the attempt of a region, whether a structure can
      stand at a position, the biome of a coarse cell (unless the generator fails), and the
      biome of a block. */
  datatype World = World(
    structurePos: (int, int, int) -> Option<Pos>,
    viable: (int, int, int) -> bool,
    cell: (int, int, int) -> Option<int>,
    biomeAt: (int, int) -> int)

  predicate InRadius(x: int, z: int, radius: int) {
    x * x + z * z <= radius * radius
  }

  function Coarse(radius: int): (c: int)
    ensures c > 0
  {
    if radius <= 128 then 16 else if radius <= 512 then 32 else 64
  }

  /** The largest region coordinate searched. */
  function RegionMax(radius: nat): (r: int)
    ensures r >= 0
  {
    (radius + 511) / 512
  }

  // ----- biomes

  /** (x, z) is a point of the coarse grid inside the circle whose cell has the biome. */
  predicate GridHit(w: World, radius: nat, id: int, x: int, z: int) {
    && 0 - radius <= x <= radius && 0 - radius <= z <= radius
    && (x + radius) % Coarse(radius) == 0 && (z + radius) % Coarse(radius) == 0
    && InRadius(x, z, radius) && w.cell(x / 4, Coarse(radius) / 4, z / 4) == Some(id)
  }

  ghost predicate BiomeSeen(w: World, radius: nat, id: int) {
    exists x, z :: GridHit(w, radius, id, x, z)
  }

  /** A grid point comes before (x, z) in the order of the sweep. */
  predicate Before(x': int, z': int, x: int, z: int) {
    z' < z || (z' == z && x' < x)
  }

  /** Every hit lies on the grid, so none is stepped over. */
  lemma NoneBetween(w: World, radius: nat, id: int, x: int, z: int)
    requires (x + radius) % Coarse(radius) == 0
    ensures forall x' :: x < x' < x + Coarse(radius) ==> !GridHit(w, radius, id, x', z)
  {
    forall x' | x < x' < x + Coarse(radius)
      ensures !GridHit(w, radius, id, x', z)
    {
      NotBetween(x + radius, x' + radius, Coarse(radius));
    }
  }

  lemma NoRowBetween(w: World, radius: nat, id: int, z: int)
    requires (z + radius) % Coarse(radius) == 0
    ensures forall x', z' :: z < z' < z + Coarse(radius) ==> !GridHit(w, radius, id, x', z')
  {
    forall x', z' | z < z' < z + Coarse(radius)
      ensures !GridHit(w, radius, id, x', z')
    {
      NotBetween(z + radius, z' + radius, Coarse(radius));
    }
  }

  lemma NextOnGrid(x: int, radius: nat)
    requires (x + radius) % Coarse(radius) == 0
    ensures (x + Coarse(radius) + radius) % Coarse(radius) == 0
  {
    ModEqual(x + Coarse(radius) + radius, x + radius, 1, Coarse(radius));
  }

  /** (x, z) is the hit that the sweep meets first. */
  ghost predicate FirstHit(w: World, radius: nat, id: int, x: int, z: int) {
    GridHit(w, radius, id, x, z) && forall x', z' :: GridHit(w, radius, id, x', z') ==> !Before(x', z', x, z)
  }

  /** p is a point of the fine grid around (x, z), inside the circle, that has the biome itself. */
  predicate FinePoint(w: World, radius: nat, id: int, x: int, z: int, p: Pos) {
    var window := Coarse(radius) / 2;
    && x - window <= p.x <= x + window && z - window <= p.z <= z + window
    && (p.x - x + window) % 8 == 0 && (p.z - z + window) % 8 == 0
    && InRadius(p.x, p.z, radius) && w.biomeAt(p.x, p.z) == id
  }

  /** The place reported for a hit: the first fine point around it, and the hit itself if there is none. */
  ghost predicate PlaceAt(w: World, radius: nat, id: int, x: int, z: int, p: Pos) {
    if exists q :: FinePoint(w, radius, id, x, z, q) then
      FinePoint(w, radius, id, x, z, p) && forall q :: FinePoint(w, radius, id, x, z, q) ==> !Before(q.x, q.z, p.x, p.z)
    else p == Pos(x, z)
  }

  /** The place reported for a biome. */
  ghost predicate ReportedAt(w: World, radius: nat, id: int, p: Pos) {
    exists x, z :: FirstHit(w, radius, id, x, z) && PlaceAt(w, radius, id, x, z, p)
  }

  /** There is one such place at most; it lies inside the circle, and the block there has the biome unless
      no fine point around the first hit does. */
  lemma PlaceMeans(w: World, radius: nat, id: int, p: Pos, q: Pos)
    requires ReportedAt(w, radius, id, p) && ReportedAt(w, radius, id, q)
    ensures p == q && InRadius(p.x, p.z, radius)
    ensures w.biomeAt(p.x, p.z) != id ==>
      FirstHit(w, radius, id, p.x, p.z) && forall r :: !FinePoint(w, radius, id, p.x, p.z, r)
  {
    hide GridHit, InRadius, Coarse;
    var x, z :| FirstHit(w, radius, id, x, z) && PlaceAt(w, radius, id, x, z, p);
    var x', z' :| FirstHit(w, radius, id, x', z') && PlaceAt(w, radius, id, x', z', q);
    assert !Before(x', z', x, z) && !Before(x, z, x', z');
    HitInside(w, radius, id, x, z);
    if exists r :: FinePoint(w, radius, id, x, z, r) {
      assert !Before(q.x, q.z, p.x, p.z) && !Before(p.x, p.z, q.x, q.z);
    }
  }

  lemma HitInside(w: World, radius: nat, id: int, x: int, z: int)
    requires GridHit(w, radius, id, x, z)
    ensures InRadius(x, z, radius)
  {
  }

  /** scan_biome: the coarse sweep decides, the fine sweep around its first hit improves the position. */
  method ScanBiome(w: World, target: int, radius: nat) returns (found: bool, pos: Pos)
    ensures found <==> BiomeSeen(w, radius, target)
    ensures found ==> ReportedAt(w, radius, target, pos)
  {
    hide InRadius;
    hide Coarse;
    hide PlaceAt;
    var coarse := Coarse(radius);
    pos := Pos(0, 0);
    var z := 0 - radius;
    while z <= radius
      invariant 0 - radius <= z && (z + radius) % coarse == 0
      invariant forall x', z' :: GridHit(w, radius, target, x', z') ==> z <= z'
      decreases radius - z
    {
      var x := 0 - radius;
      while x <= radius
        invariant 0 - radius <= x && (x + radius) % coarse == 0
        invariant forall x', z' :: GridHit(w, radius, target, x', z') ==> !Before(x', z', x, z)
        decreases radius - x
      {
        if InRadius(x, z, radius) {
          var cell := w.cell(x / 4, coarse / 4, z / 4);
          if cell == Some(target) {
            assert GridHit(w, radius, target, x, z);
            assert FirstHit(w, radius, target, x, z);
            var p := FineScan(w, target, radius, x, z);
            return true, p;
          }
        }
        assert !GridHit(w, radius, target, x, z);
        NoneBetween(w, radius, target, x, z);
        NextOnGrid(x, radius);
        x := x + coarse;
      }
      NoRowBetween(w, radius, target, z);
      NextOnGrid(z, radius);
      z := z + coarse;
    }
    found := false;
  }

  method FineScan(w: World, target: int, radius: nat, x: int, z: int) returns (p: Pos)
    ensures PlaceAt(w, radius, target, x, z, p)
  {
    hide InRadius;
    var window := Coarse(radius) / 2;
    var dz := -window;
    while dz <= window
      invariant -window <= dz && (dz + window) % 8 == 0
      invariant forall q :: FinePoint(w, radius, target, x, z, q) ==> z + dz <= q.z
      decreases window - dz
    {
      var dx := -window;
      while dx <= window
        invariant -window <= dx && (dx + window) % 8 == 0
        invariant forall q :: FinePoint(w, radius, target, x, z, q) ==> !Before(q.x, q.z, x + dx, z + dz)
        decreases window - dx
      {
        var nx, nz := x + dx, z + dz;
        if InRadius(nx, nz, radius) && w.biomeAt(nx, nz) == target {
          assert FinePoint(w, radius, target, x, z, Pos(nx, nz));
          return Pos(nx, nz);
        }
        assert !FinePoint(w, radius, target, x, z, Pos(nx, nz));
        NoFineBetween(w, radius, target, x, z, dx, dz);
        dx := dx + 8;
      }
      NoFineRowBetween(w, radius, target, x, z, dz);
      dz := dz + 8;
    }
    p := Pos(x, z);
  }

  lemma NoFineBetween(w: World, radius: nat, id: int, x: int, z: int, dx: int, dz: int)
    requires (dx + Coarse(radius) / 2) % 8 == 0
    ensures forall q :: FinePoint(w, radius, id, x, z, q) && q.z == z + dz ==> !(x + dx < q.x < x + dx + 8)
  {
    hide InRadius;
    var window := Coarse(radius) / 2;
    forall q | FinePoint(w, radius, id, x, z, q) && q.z == z + dz
      ensures !(x + dx < q.x < x + dx + 8)
    {
      if x + dx < q.x < x + dx + 8 {
        NotBetween(dx + window, q.x - x + window, 8);
      }
    }
  }

  lemma NoFineRowBetween(w: World, radius: nat, id: int, x: int, z: int, dz: int)
    requires (dz + Coarse(radius) / 2) % 8 == 0
    ensures forall q :: FinePoint(w, radius, id, x, z, q) ==> !(z + dz < q.z < z + dz + 8)
  {
    hide InRadius;
    var window := Coarse(radius) / 2;
    forall q | FinePoint(w, radius, id, x, z, q)
      ensures !(z + dz < q.z < z + dz + 8)
    {
      if z + dz < q.z < z + dz + 8 {
        NotBetween(dz + window, q.z - z + window, 8);
      }
    }
  }

  // ----- structures

  const MAX_CANDIDATES := 32

  /** The attempt of region (rx, rz), if it lies in the circle. */
  function RegionCandidate(w: World, kind: int, radius: nat, rx: int, rz: int): seq<Pos> {
    match w.structurePos(kind, rx, rz)
    case None => []
    case Some(p) => if InRadius(p.x, p.z, radius) then [p] else []
  }

  /** The candidates of `count` regions of a column, from rz on. */
  function ColumnCandidates(w: World, kind: int, radius: nat, rx: int, rz: int, count: nat): seq<Pos>
    decreases count
  {
    if count == 0 then []
    else RegionCandidate(w, kind, radius, rx, rz) + ColumnCandidates(w, kind, radius, rx, rz + 1, count - 1)
  }

  /** The candidates of `columns` columns of regions, from rx on. */
  function Candidates(w: World, kind: int, radius: nat, rx: int, columns: nat): seq<Pos>
    decreases columns
  {
    if columns == 0 then []
    else
      var r := RegionMax(radius);
      ColumnCandidates(w, kind, radius, rx, -r, 2 * r + 1) + Candidates(w, kind, radius, rx + 1, columns - 1)
  }

  /** All candidates, in the order of the search. */
  function AllCandidates(w: World, kind: int, radius: nat): seq<Pos> {
    var r := RegionMax(radius);
    Candidates(w, kind, radius, -r, 2 * r + 1)
  }

  function Kept(s: seq<Pos>): seq<Pos> {
    if |s| <= MAX_CANDIDATES then s else s[..MAX_CANDIDATES]
  }

  predicate Stands(w: World, kind: int, p: Pos) {
    w.viable(kind, p.x, p.z)
  }

  ghost predicate AnyStands(w: World, kind: int, s: seq<Pos>) {
    exists k :: 0 <= k < |s| && Stands(w, kind, s[k])
  }

  /** A region that the search looks at. */
  predicate Scanned(radius: nat, rx: int, rz: int) {
    -RegionMax(radius) <= rx <= RegionMax(radius) && -RegionMax(radius) <= rz <= RegionMax(radius)
  }

  /** The attempt of region (rx, rz) is at p, inside the circle. */
  predicate AttemptAt(w: World, kind: int, radius: nat, rx: int, rz: int, p: Pos) {
    w.structurePos(kind, rx, rz) == Some(p) && InRadius(p.x, p.z, radius)
  }

  /** Some attempt of a scanned region can stand. */
  ghost predicate StandsScanned(w: World, kind: int, radius: nat) {
    exists rx, rz, p :: Scanned(radius, rx, rz) && AttemptAt(w, kind, radius, rx, rz, p) && Stands(w, kind, p)
  }

  lemma {:induction false} ColumnAre(w: World, kind: int, radius: nat, rx: int, rz: int, count: nat, p: Pos)
    ensures p in ColumnCandidates(w, kind, radius, rx, rz, count)
            <==> exists z :: rz <= z < rz + count && AttemptAt(w, kind, radius, rx, z, p)
    decreases count
  {
    hide InRadius;
    if count > 0 {
      ColumnAre(w, kind, radius, rx, rz + 1, count - 1, p);
      assert p in RegionCandidate(w, kind, radius, rx, rz) <==> AttemptAt(w, kind, radius, rx, rz, p);
    }
  }

  lemma {:induction false} ColumnsAre(w: World, kind: int, radius: nat, rx: int, columns: nat, p: Pos)
    ensures p in Candidates(w, kind, radius, rx, columns)
            <==> exists x, z :: rx <= x < rx + columns && -RegionMax(radius) <= z <= RegionMax(radius) && AttemptAt(w, kind, radius, x, z, p)
    decreases columns
  {
    hide AttemptAt, ColumnCandidates, RegionMax;
    if columns > 0 {
      var r := RegionMax(radius);
      ColumnAre(w, kind, radius, rx, -r, 2 * r + 1, p);
      ColumnsAre(w, kind, radius, rx + 1, columns - 1, p);
    }
  }

  /** The candidates are the attempts of the scanned regions inside the circle. */
  lemma CandidatesAre(w: World, kind: int, radius: nat, p: Pos)
    ensures p in AllCandidates(w, kind, radius)
            <==> exists rx, rz :: Scanned(radius, rx, rz) && AttemptAt(w, kind, radius, rx, rz, p)
  {
    hide AttemptAt, Candidates;
    ColumnsAre(w, kind, radius, -RegionMax(radius), 2 * RegionMax(radius) + 1, p);
  }

  lemma StandsMeans(w: World, kind: int, radius: nat)
    ensures AnyStands(w, kind, AllCandidates(w, kind, radius)) <==> StandsScanned(w, kind, radius)
  {
    hide AttemptAt, AllCandidates, Scanned, Stands;
    var all := AllCandidates(w, kind, radius);
    if AnyStands(w, kind, all) {
      var k :| 0 <= k < |all| && Stands(w, kind, all[k]);
      CandidatesAre(w, kind, radius, all[k]);
    }
    if StandsScanned(w, kind, radius) {
      var rx, rz, p :| Scanned(radius, rx, rz) && AttemptAt(w, kind, radius, rx, rz, p) && Stands(w, kind, p);
      CandidatesAre(w, kind, radius, p);
    }
  }

  lemma KeptGrows(seen: seq<Pos>, one: seq<Pos>)
    requires |one| <= 1
    ensures Kept(seen + one) == if one != [] && |Kept(seen)| < MAX_CANDIDATES then Kept(seen) + one else Kept(seen)
    ensures seen + one != [] <==> seen != [] || one != []
  {
  }

  /** The pre-filter for one structure: at most 32 candidates are kept. */
  method CollectCandidates(w: World, kind: int, radius: nat) returns (cands: seq<Pos>, foundAny: bool)
    ensures cands == Kept(AllCandidates(w, kind, radius))
    ensures foundAny <==> AllCandidates(w, kind, radius) != []
  {
    hide ColumnCandidates;
    hide Kept;
    var r := RegionMax(radius);
    ghost var seen: seq<Pos> := [];
    cands, foundAny := [], false;
    KeptNothing();
    var rx := -r;
    while rx <= r
      invariant -r <= rx <= r + 1
      invariant cands == Kept(seen) && (foundAny <==> seen != [])
      invariant AllCandidates(w, kind, radius) == seen + Candidates(w, kind, radius, rx, r + 1 - rx)
    {
      ghost var column := ColumnCandidates(w, kind, radius, rx, -r, 2 * r + 1);
      ghost var rest := Candidates(w, kind, radius, rx + 1, r - rx);
      assert seen + (column + rest) == (seen + column) + rest;
      cands, foundAny := CollectColumn(w, kind, radius, rx, cands, foundAny, seen);
      seen := seen + column;
      rx := rx + 1;
    }
    assert AllCandidates(w, kind, radius) == seen + [] == seen;
  }

  /** The regions of one column, added to what has been kept so far. */
  method CollectColumn(w: World, kind: int, radius: nat, rx: int, cands0: seq<Pos>, found0: bool, ghost seen0: seq<Pos>)
    returns (cands: seq<Pos>, foundAny: bool)
    requires cands0 == Kept(seen0) && (found0 <==> seen0 != [])
    ensures
      var r := RegionMax(radius);
      var seen := seen0 + ColumnCandidates(w, kind, radius, rx, -r, 2 * r + 1);
      cands == Kept(seen) && (foundAny <==> seen != [])
  {
    hide RegionCandidate, Kept, ColumnCandidates, RegionMax;
    var r := RegionMax(radius);
    ghost var goal := seen0 + ColumnCandidates(w, kind, radius, rx, -r, 2 * r + 1);
    ghost var seen := seen0;
    cands, foundAny := cands0, found0;
    var rz := -r;
    while rz <= r
      invariant -r <= rz <= r + 1
      invariant cands == Kept(seen) && (foundAny <==> seen != [])
      invariant goal == seen + ColumnCandidates(w, kind, radius, rx, rz, r + 1 - rz)
    {
      var one := Candidate(w, kind, radius, rx, rz);
      ColumnNext(w, kind, radius, rx, rz, r + 1 - rz, seen);
      KeptGrows(seen, one);
      if one != [] {
        if |cands| < MAX_CANDIDATES {
          cands := cands + one;
        }
        foundAny := true;
      }
      seen := seen + one;
      rz := rz + 1;
    }
    ColumnEmpty(w, kind, radius, rx, rz, seen);
  }

  lemma ColumnNext(w: World, kind: int, radius: nat, rx: int, rz: int, count: nat, seen: seq<Pos>)
    requires count > 0
    ensures seen + ColumnCandidates(w, kind, radius, rx, rz, count)
            == (seen + RegionCandidate(w, kind, radius, rx, rz)) + ColumnCandidates(w, kind, radius, rx, rz + 1, count - 1)
  {
    hide RegionCandidate;
  }

  lemma ColumnEmpty(w: World, kind: int, radius: nat, rx: int, rz: int, seen: seq<Pos>)
    ensures seen + ColumnCandidates(w, kind, radius, rx, rz, 0) == seen
  {
  }

  lemma KeptNothing()
    ensures Kept([]) == []
  {
  }

  /** One region: its attempt, unless there is none or it lies outside of the circle. */
  method Candidate(w: World, kind: int, radius: nat, rx: int, rz: int) returns (one: seq<Pos>)
    ensures one == RegionCandidate(w, kind, radius, rx, rz) && |one| <= 1
  {
    var p := w.structurePos(kind, rx, rz);
    one := if p.Some? && InRadius(p.value.x, p.value.z, radius) then [p.value] else [];
  }

  /** p is the first of the positions that can stand. */
  ghost predicate FirstStanding(w: World, kind: int, s: seq<Pos>, p: Pos) {
    exists k :: 0 <= k < |s| && s[k] == p && Stands(w, kind, p) && forall j :: 0 <= j < k ==> !Stands(w, kind, s[j])
  }

  /** The verification of one structure: the first kept candidate that can stand. */
  method VerifyStructure(w: World, kind: int, cands: seq<Pos>) returns (verified: bool, chosen: Pos)
    ensures verified <==> AnyStands(w, kind, cands)
    ensures verified ==> FirstStanding(w, kind, cands, chosen)
  {
    verified, chosen := false, Pos(0, 0);
    var j := 0;
    while j < |cands|
      invariant 0 <= j <= |cands|
      invariant forall k :: 0 <= k < j ==> !Stands(w, kind, cands[k])
    {
      if w.viable(kind, cands[j].x, cands[j].z) {
        assert Stands(w, kind, cands[j]);
        return true, cands[j];
      }
      j := j + 1;
    }
  }

  // ----- probing one seed

  /** A search specification: rows of the catalogue, and the orders in which they are tried. */
  datatype SearchSpec = SearchSpec(
    radius: nat,
    biomes: seq<BiomeRow>,
    structures: seq<StructRow>,
    biomeOrder: seq<nat>,
    structOrder: seq<nat>)

  /** `order` names each of n rows once. */
  ghost predicate Permutation(order: seq<nat>, n: nat) {
    && |order| == n
    && (forall k :: 0 <= k < n ==> order[k] < n)
    && (forall i: nat :: i < n ==> i in order)
  }

  ghost predicate Finalized(spec: SearchSpec) {
    Permutation(spec.biomeOrder, |spec.biomes|) && Permutation(spec.structOrder, |spec.structures|)
  }

  /** What the probe accepts, in terms of the candidates it keeps. */
  ghost predicate Accepts(w: World, spec: SearchSpec) {
    && (forall i :: 0 <= i < |spec.biomes| ==> BiomeSeen(w, spec.radius, spec.biomes[i].id))
    && (forall i :: 0 <= i < |spec.structures| ==> Standing(w, spec, i))
  }

  ghost predicate Standing(w: World, spec: SearchSpec, i: nat)
    requires i < |spec.structures|
  {
    AnyStands(w, spec.structures[i].kind, Kept(AllCandidates(w, spec.structures[i].kind, spec.radius)))
  }

  datatype Found = Found(bit: nat, pos: Pos)
  datatype SearchResult = SearchResult(biomes: seq<Found>, structures: seq<Found>)

  /** What a result promises about a structure of the specification. */
  ghost predicate GoodStructure(w: World, spec: SearchSpec, i: nat, f: Found)
    requires i < |spec.structures|
  {
    var kind := spec.structures[i].kind;
    f.bit == spec.structures[i].bit && FirstStanding(w, kind, Kept(AllCandidates(w, kind, spec.radius)), f.pos)
  }

  ghost predicate GoodBiome(w: World, spec: SearchSpec, i: nat, f: Found)
    requires i < |spec.biomes|
  {
    f.bit == spec.biomes[i].bit && ReportedAt(w, spec.radius, spec.biomes[i].id, f.pos)
  }

  /** search_probe_seed: three filters, each in its rarity order. The orders are irrelevant to
      what is accepted. */
  method ProbeSeed(w: World, spec: SearchSpec) returns (accepted: bool, result: SearchResult)
    requires Finalized(spec)
    ensures accepted <==> Accepts(w, spec)
    ensures accepted ==>
      && |result.biomes| == |spec.biomes| && |result.structures| == |spec.structures|
      && (forall i :: 0 <= i < |spec.biomes| ==> GoodBiome(w, spec, i, result.biomes[i]))
      && (forall i :: 0 <= i < |spec.structures| ==> GoodStructure(w, spec, i, result.structures[i]))
  {
    hide InRadius;
    hide AllCandidates;
    hide BiomeSeen;
    hide AnyStands;
    hide FirstStanding;
    hide ReportedAt;
    hide Kept;
    var n, m := |spec.structures|, |spec.biomes|;
    result := SearchResult([], []);
    var candidates: seq<seq<Pos>> := seq(n, _ => []);
    var oi := 0;
    while oi < n
      invariant 0 <= oi <= n && |candidates| == n
      invariant forall k :: 0 <= k < oi ==> CandidatesOf(w, spec, spec.structOrder[k], candidates)
    {
      var i := spec.structOrder[oi];
      var cands, foundAny := CollectCandidates(w, spec.structures[i].kind, spec.radius);
      if !foundAny {
        NoCandidates(w, spec, i);
        return false, result;
      }
      candidates := candidates[i := cands];
      oi := oi + 1;
    }
    forall i: nat | i < n
      ensures CandidatesOf(w, spec, i, candidates)
    {
      assert i in spec.structOrder;
      var k :| 0 <= k < n && spec.structOrder[k] == i;
    }
    var biomeResults: seq<Found> := seq(m, _ => Found(0, Pos(0, 0)));
    oi := 0;
    while oi < m
      invariant 0 <= oi <= m && |biomeResults| == m
      invariant forall k :: 0 <= k < oi ==> BiomeDone(w, spec, spec.biomeOrder[k], biomeResults)
    {
      var i := spec.biomeOrder[oi];
      var seen, pos := ScanBiome(w, spec.biomes[i].id, spec.radius);
      if !seen {
        return false, result;
      }
      biomeResults := biomeResults[i := Found(spec.biomes[i].bit, pos)];
      oi := oi + 1;
    }
    forall i: nat | i < m
      ensures BiomeDone(w, spec, i, biomeResults)
    {
      assert i in spec.biomeOrder;
      var k :| 0 <= k < m && spec.biomeOrder[k] == i;
    }
    var chosen: seq<Found> := seq(n, _ => Found(0, Pos(0, 0)));
    oi := 0;
    while oi < n
      invariant 0 <= oi <= n && |chosen| == n
      invariant forall k :: 0 <= k < oi ==> StructureDone(w, spec, spec.structOrder[k], chosen)
    {
      var i := spec.structOrder[oi];
      assert CandidatesOf(w, spec, i, candidates);
      var verified, pos := VerifyStructure(w, spec.structures[i].kind, candidates[i]);
      if !verified {
        assert !Standing(w, spec, i);
        return false, result;
      }
      chosen := chosen[i := Found(spec.structures[i].bit, pos)];
      oi := oi + 1;
    }
    forall i: nat | i < n
      ensures StructureDone(w, spec, i, chosen)
    {
      assert i in spec.structOrder;
      var k :| 0 <= k < n && spec.structOrder[k] == i;
    }
    forall i | 0 <= i < m
      ensures GoodBiome(w, spec, i, biomeResults[i]) && BiomeSeen(w, spec.radius, spec.biomes[i].id)
    {
      assert BiomeDone(w, spec, i, biomeResults);
    }
    forall i | 0 <= i < n
      ensures GoodStructure(w, spec, i, chosen[i]) && Standing(w, spec, i)
    {
      assert StructureDone(w, spec, i, chosen);
    }
    return true, SearchResult(biomeResults, chosen);
  }

  ghost predicate CandidatesOf(w: World, spec: SearchSpec, i: nat, candidates: seq<seq<Pos>>) {
    && i < |spec.structures| == |candidates|
    && candidates[i] == Kept(AllCandidates(w, spec.structures[i].kind, spec.radius))
  }

  ghost predicate BiomeDone(w: World, spec: SearchSpec, i: nat, results: seq<Found>) {
    && i < |spec.biomes| == |results|
    && GoodBiome(w, spec, i, results[i]) && BiomeSeen(w, spec.radius, spec.biomes[i].id)
  }

  ghost predicate StructureDone(w: World, spec: SearchSpec, i: nat, chosen: seq<Found>) {
    && i < |spec.structures| == |chosen|
    && GoodStructure(w, spec, i, chosen[i]) && Standing(w, spec, i)
  }

  lemma NoCandidates(w: World, spec: SearchSpec, i: nat)
    requires i < |spec.structures| && AllCandidates(w, spec.structures[i].kind, spec.radius) == []
    ensures !Accepts(w, spec)
  {
    assert !Standing(w, spec, i);
  }

  // ----- the catalogue and the full scan

  datatype Catalogue = Catalogue(biomes: seq<BiomeRow>, structures: seq<StructRow>)

  ghost predicate Unambiguous(cat: Catalogue) {
    && (forall i, j :: 0 <= i < j < |cat.biomes| ==>
          cat.biomes[i].id != cat.biomes[j].id && cat.biomes[i].bit != cat.biomes[j].bit)
    && (forall i, j :: 0 <= i < j < |cat.structures| ==> cat.structures[i].bit != cat.structures[j].bit)
  }

  /** The bits of the catalogue biomes that occur on the grid. */
  ghost function BiomeMask(w: World, radius: nat, cat: Catalogue): Mask {
    set i | 0 <= i < |cat.biomes| && BiomeSeen(w, radius, cat.biomes[i].id) :: cat.biomes[i].bit
  }

  /** The bits of the catalogue structures of which some attempt in the circle can stand. */
  ghost function StructMask(w: World, radius: nat, cat: Catalogue): Mask {
    set i | 0 <= i < |cat.structures| && StandsScanned(w, cat.structures[i].kind, radius)
      :: cat.structures[i].bit
  }

  lemma AnyStandsAppend(w: World, kind: int, a: seq<Pos>, b: seq<Pos>)
    ensures AnyStands(w, kind, a + b) <==> AnyStands(w, kind, a) || AnyStands(w, kind, b)
  {
    if AnyStands(w, kind, a) {
      var k :| 0 <= k < |a| && Stands(w, kind, a[k]);
      assert Stands(w, kind, (a + b)[k]);
    }
    if AnyStands(w, kind, b) {
      var k :| 0 <= k < |b| && Stands(w, kind, b[k]);
      assert Stands(w, kind, (a + b)[|a| + k]);
    }
  }

  /** The structure loop of the full scan, left at the first attempt that can stand. */
  method StructureExists(w: World, kind: int, radius: nat) returns (found: bool)
    ensures found <==> StandsScanned(w, kind, radius)
  {
    hide AnyStands, ColumnCandidates, StandsScanned;
    StandsMeans(w, kind, radius);
    var r := RegionMax(radius);
    var rx := -r;
    while rx <= r
      invariant -r <= rx <= r + 1
      invariant AnyStands(w, kind, AllCandidates(w, kind, radius)) <==> AnyStands(w, kind, Candidates(w, kind, radius, rx, r + 1 - rx))
    {
      AnyStandsAppend(w, kind, ColumnCandidates(w, kind, radius, rx, -r, 2 * r + 1), Candidates(w, kind, radius, rx + 1, r - rx));
      found := ColumnExists(w, kind, radius, rx);
      if found {
        return;
      }
      rx := rx + 1;
    }
    NoneStands(w, kind);
    found := false;
  }

  method ColumnExists(w: World, kind: int, radius: nat, rx: int) returns (found: bool)
    ensures
      var r := RegionMax(radius);
      found <==> AnyStands(w, kind, ColumnCandidates(w, kind, radius, rx, -r, 2 * r + 1))
  {
    hide AnyStands;
    hide InRadius;
    var r := RegionMax(radius);
    ghost var all := ColumnCandidates(w, kind, radius, rx, -r, 2 * r + 1);
    var rz := -r;
    while rz <= r
      invariant -r <= rz <= r + 1
      invariant AnyStands(w, kind, all) <==> AnyStands(w, kind, ColumnCandidates(w, kind, radius, rx, rz, r + 1 - rz))
    {
      AnyStandsAppend(w, kind, RegionCandidate(w, kind, radius, rx, rz), ColumnCandidates(w, kind, radius, rx, rz + 1, r - rz));
      var p := w.structurePos(kind, rx, rz);
      NoneStands(w, kind);
      if p.Some? && InRadius(p.value.x, p.value.z, radius) {
        OneStands(w, kind, p.value);
        if w.viable(kind, p.value.x, p.value.z) {
          return true;
        }
      }
      rz := rz + 1;
    }
    NoneStands(w, kind);
    found := false;
  }

  lemma NoneStands(w: World, kind: int)
    ensures !AnyStands(w, kind, [])
  {
  }

  lemma OneStands(w: World, kind: int, p: Pos)
    ensures AnyStands(w, kind, [p]) <==> w.viable(kind, p.x, p.z)
  {
    assert Stands(w, kind, [p][0]) <==> w.viable(kind, p.x, p.z);
  }

  function BiomeBits(cat: Catalogue): Mask {
    set i | 0 <= i < |cat.biomes| :: cat.biomes[i].bit
  }

  /** Every hit that comes before (x, z) in the sweep is in the mask. */
  ghost predicate SeenBefore(w: World, radius: nat, cat: Catalogue, bm: Mask, x: int, z: int) {
    forall i, x', z' :: 0 <= i < |cat.biomes| && GridHit(w, radius, cat.biomes[i].id, x', z') && Before(x', z', x, z) ==>
      cat.biomes[i].bit in bm
  }

  ghost predicate SweepState(w: World, radius: nat, cat: Catalogue, bm: Mask, remaining: Mask) {
    remaining == BiomeBits(cat) - bm && bm <= BiomeMask(w, radius, cat)
  }

  lemma SeenNextCell(w: World, radius: nat, cat: Catalogue, bm0: Mask, bm: Mask, x: int, z: int)
    requires SeenBefore(w, radius, cat, bm0, x, z) && bm0 <= bm && (x + radius) % Coarse(radius) == 0
    requires forall i :: 0 <= i < |cat.biomes| && GridHit(w, radius, cat.biomes[i].id, x, z) ==> cat.biomes[i].bit in bm
    ensures SeenBefore(w, radius, cat, bm, x + Coarse(radius), z)
  {
    forall i, x', z' | 0 <= i < |cat.biomes| && GridHit(w, radius, cat.biomes[i].id, x', z') && Before(x', z', x + Coarse(radius), z)
      ensures cat.biomes[i].bit in bm
    {
      NoneBetween(w, radius, cat.biomes[i].id, x, z);
      if Before(x', z', x, z) {
        assert cat.biomes[i].bit in bm0;
      } else {
        assert x' == x && z' == z;
      }
    }
  }

  lemma SeenNextRow(w: World, radius: nat, cat: Catalogue, bm: Mask, x: int, z: int)
    requires SeenBefore(w, radius, cat, bm, x, z) && x > radius && (z + radius) % Coarse(radius) == 0
    ensures SeenBefore(w, radius, cat, bm, 0 - radius, z + Coarse(radius))
  {
    forall i, x', z' | 0 <= i < |cat.biomes| && GridHit(w, radius, cat.biomes[i].id, x', z') && Before(x', z', 0 - radius, z + Coarse(radius))
      ensures cat.biomes[i].bit in bm
    {
      NoRowBetween(w, radius, cat.biomes[i].id, z);
      assert Before(x', z', x, z);
    }
  }

  /** With every bit taken there is nothing left to see. */
  lemma AllTaken(w: World, radius: nat, cat: Catalogue, bm: Mask, x: int, z: int)
    requires SweepState(w, radius, cat, bm, {})
    ensures SeenBefore(w, radius, cat, bm, x, z)
  {
    forall i | 0 <= i < |cat.biomes|
      ensures cat.biomes[i].bit in bm
    {
      assert cat.biomes[i].bit in BiomeBits(cat);
      assert cat.biomes[i].bit !in BiomeBits(cat) - bm;
    }
  }

  lemma AllSeen(w: World, radius: nat, cat: Catalogue, bm: Mask, remaining: Mask, x: int, z: int)
    requires SweepState(w, radius, cat, bm, remaining) && SeenBefore(w, radius, cat, bm, x, z) && z > radius
    ensures bm == BiomeMask(w, radius, cat)
  {
    forall i | 0 <= i < |cat.biomes| && BiomeSeen(w, radius, cat.biomes[i].id)
      ensures cat.biomes[i].bit in bm
    {
      var x', z' :| GridHit(w, radius, cat.biomes[i].id, x', z');
      assert Before(x', z', x, z);
    }
  }

  /** The single sweep that fills the biome mask, stopped as soon as nothing remains to be seen. */
  method SweepBiomes(w: World, radius: nat, cat: Catalogue) returns (bm: Mask)
    requires Unambiguous(cat)
    ensures bm == BiomeMask(w, radius, cat)
  {
    hide SweepState;
    hide SeenBefore;
    hide Coarse;
    bm := {};
    var remaining := BiomeBits(cat);
    SweepStart(w, radius, cat);
    var z := 0 - radius;
    while z <= radius && remaining != {}
      invariant (z + radius) % Coarse(radius) == 0
      invariant SweepState(w, radius, cat, bm, remaining)
      invariant SeenBefore(w, radius, cat, bm, 0 - radius, z)
      decreases radius - z
    {
      bm, remaining := SweepRow(w, radius, cat, bm, remaining, z);
      NextOnGrid(z, radius);
      z := z + Coarse(radius);
    }
    if remaining == {} {
      AllTaken(w, radius, cat, bm, 0, radius + 1);
      AllSeen(w, radius, cat, bm, remaining, 0, radius + 1);
    } else {
      AllSeen(w, radius, cat, bm, remaining, 0 - radius, z);
    }
  }

  lemma SweepStart(w: World, radius: nat, cat: Catalogue)
    ensures SweepState(w, radius, cat, {}, BiomeBits(cat))
    ensures SeenBefore(w, radius, cat, {}, 0 - radius, 0 - radius)
    ensures (0 - radius + radius) % Coarse(radius) == 0
  {
  }

  method SweepRow(w: World, radius: nat, cat: Catalogue, bm0: Mask, remaining0: Mask, z: int)
    returns (bm: Mask, remaining: Mask)
    requires Unambiguous(cat) && (z + radius) % Coarse(radius) == 0 && 0 - radius <= z <= radius
    requires SweepState(w, radius, cat, bm0, remaining0) && SeenBefore(w, radius, cat, bm0, 0 - radius, z)
    ensures SweepState(w, radius, cat, bm, remaining)
    ensures SeenBefore(w, radius, cat, bm, 0 - radius, z + Coarse(radius))
  {
    hide InRadius;
    hide Coarse;
    hide SweepState;
    hide SeenBefore;
    bm, remaining := bm0, remaining0;
    var x := 0 - radius;
    while x <= radius && remaining != {}
      invariant 0 - radius <= x && (x + radius) % Coarse(radius) == 0
      invariant SweepState(w, radius, cat, bm, remaining)
      invariant SeenBefore(w, radius, cat, bm, x, z)
      decreases radius - x
    {
      ghost var before := bm;
      if InRadius(x, z, radius) {
        var cell := w.cell(x / 4, Coarse(radius) / 4, z / 4);
        if cell.Some? {
          bm, remaining := NoteBiome(w, radius, cat, cell.value, bm, remaining, x, z);
        }
      }
      SeenNextCell(w, radius, cat, before, bm, x, z);
      NextOnGrid(x, radius);
      x := x + Coarse(radius);
    }
    if remaining == {} {
      AllTaken(w, radius, cat, bm, 0 - radius, z + Coarse(radius));
    } else {
      SeenNextRow(w, radius, cat, bm, x, z);
    }
  }

  /** One cell: the catalogue row with its biome, if any, moves from `remaining` to the mask. */
  method NoteBiome(w: World, radius: nat, cat: Catalogue, cell: int, bm0: Mask, remaining0: Mask, x: int, z: int)
    returns (bm: Mask, remaining: Mask)
    requires Unambiguous(cat) && SweepState(w, radius, cat, bm0, remaining0)
    requires forall i :: 0 <= i < |cat.biomes| && cat.biomes[i].id == cell ==> GridHit(w, radius, cell, x, z)
    ensures SweepState(w, radius, cat, bm, remaining) && bm0 <= bm
    ensures forall i :: 0 <= i < |cat.biomes| && cat.biomes[i].id == cell ==> cat.biomes[i].bit in bm
  {
    hide GridHit;
    bm, remaining := bm0, remaining0;
    var i := 0;
    while i < |cat.biomes|
      invariant 0 <= i <= |cat.biomes|
      invariant bm == bm0 && remaining == remaining0
      invariant forall k :: 0 <= k < i ==> cat.biomes[k].id != cell
    {
      if cat.biomes[i].id == cell {
        assert BiomeSeen(w, radius, cat.biomes[i].id);
        assert cat.biomes[i].bit in BiomeBits(cat);
        var bit := cat.biomes[i].bit;
        if bit in remaining {
          bm := bm + {bit};
          remaining := remaining - {bit};
        }
        return;
      }
      i := i + 1;
    }
  }

  /** search_full_scan */
  method FullScan(w: World, radius: nat, cat: Catalogue) returns (bm: Mask, sm: Mask)
    requires Unambiguous(cat)
    ensures bm == BiomeMask(w, radius, cat) && sm == StructMask(w, radius, cat)
  {
    hide AnyStands;
    hide AllCandidates;
    sm := {};
    var i := 0;
    while i < |cat.structures|
      invariant 0 <= i <= |cat.structures|
      invariant sm == StructMask(w, radius, Catalogue(cat.biomes, cat.structures[..i]))
    {
      var found := StructureExists(w, cat.structures[i].kind, radius);
      StructMaskStep(w, radius, cat, i);
      if found {
        sm := sm + {cat.structures[i].bit};
      }
      i := i + 1;
    }
    assert cat.structures[..i] == cat.structures;
    bm := SweepBiomes(w, radius, cat);
  }

  lemma StructMaskStep(w: World, radius: nat, cat: Catalogue, i: nat)
    requires i < |cat.structures|
    ensures
      var row := cat.structures[i];
      StructMask(w, radius, Catalogue(cat.biomes, cat.structures[..i + 1]))
      == StructMask(w, radius, Catalogue(cat.biomes, cat.structures[..i]))
         + (if StandsScanned(w, row.kind, radius) then {row.bit} else {})
  {
    hide StandsScanned;
    var a, b := cat.structures[..i], cat.structures[..i + 1];
    assert forall k :: 0 <= k < i ==> b[k] == a[k];
    assert b[i] == cat.structures[i];
  }

  // ----- the catalogue of the worker

  const BIOMES: seq<BiomeRow> := [
    BiomeRow(1, 0, 0.92), BiomeRow(4, 1, 0.88), BiomeRow(27, 2, 0.55), BiomeRow(29, 3, 0.35),
    BiomeRow(132, 4, 0.22), BiomeRow(7, 5, 0.96), BiomeRow(16, 6, 0.78), BiomeRow(2, 7, 0.62),
    BiomeRow(35, 8, 0.58), BiomeRow(36, 9, 0.18), BiomeRow(37, 10, 0.12), BiomeRow(38, 11, 0.08),
    BiomeRow(21, 12, 0.28), BiomeRow(23, 13, 0.22), BiomeRow(168, 14, 0.14), BiomeRow(6, 15, 0.48),
    BiomeRow(184, 16, 0.11), BiomeRow(5, 17, 0.72), BiomeRow(32, 18, 0.18), BiomeRow(160, 19, 0.16),
    BiomeRow(12, 20, 0.42), BiomeRow(30, 21, 0.36), BiomeRow(140, 22, 0.05), BiomeRow(177, 23, 0.34),
    BiomeRow(178, 24, 0.22), BiomeRow(179, 25, 0.16), BiomeRow(180, 26, 0.12), BiomeRow(181, 27, 0.07),
    BiomeRow(182, 28, 0.18), BiomeRow(0, 29, 0.84), BiomeRow(44, 30, 0.34), BiomeRow(10, 31, 0.28),
    BiomeRow(14, 32, 0.012), BiomeRow(185, 33, 0.018), BiomeRow(183, 34, 0.06), BiomeRow(175, 35, 0.08),
    BiomeRow(174, 36, 0.18), BiomeRow(186, 37, 0.014)
  ]

  const STRUCTS: seq<StructRow> := [
    StructRow(5, 0, 0.74), StructRow(10, 1, 0.42), StructRow(11, 2, 0.82), StructRow(7, 3, 0.46),
    StructRow(14, 4, 0.62), StructRow(3, 5, 0.18), StructRow(4, 6, 0.22), StructRow(1, 7, 0.28),
    StructRow(2, 8, 0.14), StructRow(8, 9, 0.16), StructRow(6, 10, 0.34), StructRow(9, 11, 0.022),
    StructRow(13, 12, 0.038), StructRow(23, 13, 0.082), StructRow(24, 14, 0.058), StructRow(15, 15, 0.94)
  ]

  const CATALOGUE := Catalogue(BIOMES, STRUCTS)

  /** The place of a biome number in the catalogue. */
  function PlaceOf(id: int): int {
    match id
    case 1 => 0
    case 4 => 1
    case 27 => 2
    case 29 => 3
    case 132 => 4
    case 7 => 5
    case 16 => 6
    case 2 => 7
    case 35 => 8
    case 36 => 9
    case 37 => 10
    case 38 => 11
    case 21 => 12
    case 23 => 13
    case 168 => 14
    case 6 => 15
    case 184 => 16
    case 5 => 17
    case 32 => 18
    case 160 => 19
    case 12 => 20
    case 30 => 21
    case 140 => 22
    case 177 => 23
    case 178 => 24
    case 179 => 25
    case 180 => 26
    case 181 => 27
    case 182 => 28
    case 0 => 29
    case 44 => 30
    case 10 => 31
    case 14 => 32
    case 185 => 33
    case 183 => 34
    case 175 => 35
    case 174 => 36
    case 186 => 37
    case _ => -1
  }

  /** The place of a structure number in the catalogue. */
  function StructPlaceOf(kind: int): int {
    match kind
    case 5 => 0
    case 10 => 1
    case 11 => 2
    case 7 => 3
    case 14 => 4
    case 3 => 5
    case 4 => 6
    case 1 => 7
    case 2 => 8
    case 8 => 9
    case 6 => 10
    case 9 => 11
    case 13 => 12
    case 23 => 13
    case 24 => 14
    case 15 => 15
    case _ => -1
  }

  /** No two catalogue rows share a biome, a structure or a bit, and every bit fits a 64-bit mask. */
  lemma CatalogueUnambiguous()
    ensures Unambiguous(CATALOGUE)
    ensures forall i, j :: 0 <= i < j < |STRUCTS| ==> STRUCTS[i].kind != STRUCTS[j].kind
    ensures forall i :: 0 <= i < |BIOMES| ==> 0 <= BIOMES[i].bit < 64
    ensures forall i :: 0 <= i < |STRUCTS| ==> 0 <= STRUCTS[i].bit < 64
  {
    hide PlaceOf, StructPlaceOf;
    BiomeBitsInOrder();
    BiomePlaces();
    StructPlaces();
  }

  lemma StructPlaces()
    ensures forall i :: 0 <= i < |STRUCTS| ==> STRUCTS[i].bit == i && StructPlaceOf(STRUCTS[i].kind) == i
  {
  }

  lemma BiomeBitsInOrder()
    ensures forall i :: 0 <= i < |BIOMES| ==> BIOMES[i].bit == i
  {
    hide PlaceOf;
  }

  lemma BiomePlaces()
    ensures forall i :: 0 <= i < |BIOMES| ==> PlaceOf(BIOMES[i].id) == i
  {
  }

  // ----- the cache against the live search

  /** The rows of the specification come from the catalogue. */
  ghost predicate FromCatalogue(spec: SearchSpec, cat: Catalogue) {
    && (forall i :: 0 <= i < |spec.biomes| ==> spec.biomes[i] in cat.biomes)
    && (forall i :: 0 <= i < |spec.structures| ==> spec.structures[i] in cat.structures)
  }

  /** The cache query: the stored masks contain every wanted bit. */
  ghost predicate CacheHit(bm: Mask, sm: Mask, spec: SearchSpec) {
    && (set i | 0 <= i < |spec.biomes| :: spec.biomes[i].bit) <= bm
    && (set i | 0 <= i < |spec.structures| :: spec.structures[i].bit) <= sm
  }

  lemma MaskHasBiome(w: World, radius: nat, cat: Catalogue, row: BiomeRow)
    requires Unambiguous(cat) && row in cat.biomes
    ensures row.bit in BiomeMask(w, radius, cat) <==> BiomeSeen(w, radius, row.id)
  {
    hide BiomeSeen;
    var k :| 0 <= k < |cat.biomes| && cat.biomes[k] == row;
    if row.bit in BiomeMask(w, radius, cat) {
      var i :| 0 <= i < |cat.biomes| && BiomeSeen(w, radius, cat.biomes[i].id) && cat.biomes[i].bit == row.bit;
      assert i == k;
    }
  }

  lemma MaskHasStruct(w: World, radius: nat, cat: Catalogue, row: StructRow)
    requires Unambiguous(cat) && row in cat.structures
    ensures row.bit in StructMask(w, radius, cat) <==> StandsScanned(w, row.kind, radius)
  {
    hide StandsScanned;
    var k :| 0 <= k < |cat.structures| && cat.structures[k] == row;
    if row.bit in StructMask(w, radius, cat) {
      var i :| 0 <= i < |cat.structures| && cat.structures[i].bit == row.bit
        && StandsScanned(w, cat.structures[i].kind, radius);
      assert i == k;
    }
  }

  /** What the masks of a full scan say about a specification. */
  lemma HitMeans(w: World, spec: SearchSpec, cat: Catalogue)
    requires Unambiguous(cat) && FromCatalogue(spec, cat)
    ensures
      CacheHit(BiomeMask(w, spec.radius, cat), StructMask(w, spec.radius, cat), spec) <==>
        (forall i :: 0 <= i < |spec.biomes| ==> BiomeSeen(w, spec.radius, spec.biomes[i].id))
        && (forall i :: 0 <= i < |spec.structures| ==> StandsScanned(w, spec.structures[i].kind, spec.radius))
  {
    hide BiomeSeen;
    hide StandsScanned;
    var bm, sm := BiomeMask(w, spec.radius, cat), StructMask(w, spec.radius, cat);
    hide BiomeMask;
    hide StructMask;
    var wb, ws := set i | 0 <= i < |spec.biomes| :: spec.biomes[i].bit, set i | 0 <= i < |spec.structures| :: spec.structures[i].bit;
    forall i | 0 <= i < |spec.biomes|
      ensures spec.biomes[i].bit in wb
      ensures spec.biomes[i].bit in bm <==> BiomeSeen(w, spec.radius, spec.biomes[i].id)
    {
      MaskHasBiome(w, spec.radius, cat, spec.biomes[i]);
    }
    forall i | 0 <= i < |spec.structures|
      ensures spec.structures[i].bit in ws
      ensures spec.structures[i].bit in sm <==> StandsScanned(w, spec.structures[i].kind, spec.radius)
    {
      MaskHasStruct(w, spec.radius, cat, spec.structures[i]);
    }
  }

  lemma {:induction false} ColumnCount(w: World, kind: int, radius: nat, rx: int, rz: int, count: nat)
    ensures |ColumnCandidates(w, kind, radius, rx, rz, count)| <= count
    decreases count
  {
    if count > 0 {
      ColumnCount(w, kind, radius, rx, rz + 1, count - 1);
    }
  }

  /** Up to a radius of 1024 there are at most 25 regions, so every candidate is kept. */
  lemma AllKept(w: World, kind: int, radius: nat)
    requires radius <= 1024
    ensures Kept(AllCandidates(w, kind, radius)) == AllCandidates(w, kind, radius)
  {
    var r := RegionMax(radius);
    CandidateCount(w, kind, radius, -r, 2 * r + 1);
  }

  lemma {:induction false} CandidateCount(w: World, kind: int, radius: nat, rx: int, columns: nat)
    requires RegionMax(radius) <= 2
    ensures |Candidates(w, kind, radius, rx, columns)| <= 5 * columns
    decreases columns
  {
    hide ColumnCandidates;
    if columns > 0 {
      var r := RegionMax(radius);
      ColumnCount(w, kind, radius, rx, -r, 2 * r + 1);
      CandidateCount(w, kind, radius, rx + 1, columns - 1);
    }
  }

  /** A live probe and the cached masks of the same seed agree on a specification. */
  ghost predicate Agree(w: World, spec: SearchSpec) {
    Accepts(w, spec) <==> CacheHit(BiomeMask(w, spec.radius, CATALOGUE), StructMask(w, spec.radius, CATALOGUE), spec)
  }

  /** Up to a radius of 1024 the live probe accepts exactly what the cached masks promise. */
  lemma CacheAgrees(w: World, spec: SearchSpec)
    requires FromCatalogue(spec, CATALOGUE) && spec.radius <= 1024
    ensures Agree(w, spec)
  {
    CatalogueUnambiguous();
    HitMeans(w, spec, CATALOGUE);
    hide BiomeSeen, AnyStands, StandsScanned, AllCandidates, CacheHit, Kept;
    forall i | 0 <= i < |spec.structures|
      ensures Standing(w, spec, i) <==> StandsScanned(w, spec.structures[i].kind, spec.radius)
    {
      StandsMeans(w, spec.structures[i].kind, spec.radius);
      AllKept(w, spec.structures[i].kind, spec.radius);
    }
  }

  // ----- when the candidate list overflows

  /** The attempts are those that a seed makes in a version that can be searched; what is viable is
      left open. */
  ghost predicate FromSeed(w: World, mc: int, seed: int) {
    Offered(mc) && forall kind, rx, rz :: Attempted(w, mc, seed, kind, rx, rz)
  }

  predicate Attempted(w: World, mc: int, seed: int, kind: int, rx: int, rz: int) {
    match GetStructureConfig(kind, mc)
    case None => w.structurePos(kind, rx, rz) == None
    case Some(c) =>
      c.chunkRange > 0
      && if c.luck.Open? then w.structurePos(kind, rx, rz) in {None, Some(AttemptPos(c, seed, rx, rz))}
         else w.structurePos(kind, rx, rz) == if Happens(c, seed, rx, rz) then Some(AttemptPos(c, seed, rx, rz)) else None
  }

  /** The attempts of a seed, those of outposts left out, with nothing viable. */
  ghost function SeedWorld(mc: int, seed: int): World {
    World((kind, rx, rz) => SureAttempt(mc, seed, kind, rx, rz), (kind, x, z) => false, (x, y, z) => None, (x, z) => 0)
  }

  function SureAttempt(mc: int, seed: int, kind: int, rx: int, rz: int): Option<Pos> {
    match GetStructureConfig(kind, mc)
    case None => None
    case Some(c) => if c.chunkRange > 0 && Happens(c, seed, rx, rz) then Some(AttemptPos(c, seed, rx, rz)) else None
  }

  lemma SeedWorldFromSeed(mc: int, seed: int)
    requires Offered(mc)
    ensures FromSeed(SeedWorld(mc, seed), mc, seed)
  {
    hide AttemptPos, Happens;
    forall kind, rx, rz
      ensures Attempted(SeedWorld(mc, seed), mc, seed, kind, rx, rz)
    {
      if GetStructureConfig(kind, mc).Some? {
        ConfigFits(kind, mc);
      }
    }
  }

  /** The block size of a kind's regions. */
  function RegionBlocks(kind: int, mc: int): (r: nat)
    ensures r > 0
  {
    match GetStructureConfig(kind, mc)
    case None => 1
    case Some(c) => if c.regionSize > 0 then 16 * c.regionSize else 1
  }

  /** Candidates are listed region by region, so that none is listed twice. */
  ghost predicate InOrder(s: seq<Pos>, r: nat)
    requires r > 0
  {
    forall i, j :: 0 <= i < j < |s| ==> s[i].x / r < s[j].x / r || (s[i].x / r == s[j].x / r && s[i].z / r < s[j].z / r)
  }

  lemma RegionOf(w: World, mc: int, seed: int, kind: int, radius: nat, rx: int, rz: int)
    requires FromSeed(w, mc, seed)
    ensures |RegionCandidate(w, kind, radius, rx, rz)| <= 1
    ensures var s, r := RegionCandidate(w, kind, radius, rx, rz), RegionBlocks(kind, mc);
            |s| == 1 ==> s[0].x / r == rx && s[0].z / r == rz
  {
    hide AttemptPos, Happens, GetStructureConfig, InRadius;
    assert Attempted(w, mc, seed, kind, rx, rz);
    if GetStructureConfig(kind, mc).Some? {
      AttemptInRegion(kind, mc, seed, rx, rz);
    }
  }

  lemma {:induction false} ColumnInOrder(w: World, mc: int, seed: int, kind: int, radius: nat, rx: int, rz: int, count: nat)
    requires FromSeed(w, mc, seed)
    ensures var s, r := ColumnCandidates(w, kind, radius, rx, rz, count), RegionBlocks(kind, mc);
            InOrder(s, r) && forall k :: 0 <= k < |s| ==> s[k].x / r == rx && rz <= s[k].z / r
    decreases count
  {
    hide FromSeed, RegionCandidate, RegionBlocks;
    if count > 0 {
      RegionOf(w, mc, seed, kind, radius, rx, rz);
      ColumnInOrder(w, mc, seed, kind, radius, rx, rz + 1, count - 1);
    }
  }

  lemma {:induction false} CandidatesInOrder(w: World, mc: int, seed: int, kind: int, radius: nat, rx: int, columns: nat)
    requires FromSeed(w, mc, seed)
    ensures var s, r := Candidates(w, kind, radius, rx, columns), RegionBlocks(kind, mc);
            InOrder(s, r) && forall k :: 0 <= k < |s| ==> rx <= s[k].x / r
    decreases columns
  {
    hide FromSeed, ColumnCandidates, RegionBlocks, InOrder;
    var r := RegionBlocks(kind, mc);
    if columns > 0 {
      var m := RegionMax(radius);
      ColumnInOrder(w, mc, seed, kind, radius, rx, -m, 2 * m + 1);
      CandidatesInOrder(w, mc, seed, kind, radius, rx + 1, columns - 1);
      OrderedJoin(ColumnCandidates(w, kind, radius, rx, -m, 2 * m + 1), Candidates(w, kind, radius, rx + 1, columns - 1), r, rx);
    } else {
      OrderedNothing(r);
    }
  }

  lemma OrderedNothing(r: nat)
    requires r > 0
    ensures InOrder([], r)
  {
  }

  lemma OrderedJoin(a: seq<Pos>, b: seq<Pos>, r: nat, rx: int)
    requires r > 0 && InOrder(a, r) && InOrder(b, r)
    requires (forall k :: 0 <= k < |a| ==> a[k].x / r == rx) && (forall k :: 0 <= k < |b| ==> rx + 1 <= b[k].x / r)
    ensures InOrder(a + b, r)
  {
    var s := a + b;
    forall i, j | 0 <= i < j < |s|
      ensures s[i].x / r < s[j].x / r || (s[i].x / r == s[j].x / r && s[i].z / r < s[j].z / r)
    {
      if j < |a| {
        assert s[i] == a[i] && s[j] == a[j];
      } else if i >= |a| {
        assert s[i] == b[i - |a|] && s[j] == b[j - |a|];
      } else {
        assert s[i] == a[i] && s[j] == b[j - |a|];
      }
    }
  }

  /** The candidates do not depend on what is viable. */
  lemma {:induction false} SameCandidates(w: World, w': World, kind: int, radius: nat, rx: int, columns: nat)
    requires w'.structurePos == w.structurePos
    ensures Candidates(w', kind, radius, rx, columns) == Candidates(w, kind, radius, rx, columns)
    decreases columns
  {
    hide ColumnCandidates;
    if columns > 0 {
      var r := RegionMax(radius);
      SameColumn(w, w', kind, radius, rx, -r, 2 * r + 1);
      SameCandidates(w, w', kind, radius, rx + 1, columns - 1);
    }
  }

  lemma {:induction false} SameColumn(w: World, w': World, kind: int, radius: nat, rx: int, rz: int, count: nat)
    requires w'.structurePos == w.structurePos
    ensures ColumnCandidates(w', kind, radius, rx, rz, count) == ColumnCandidates(w, kind, radius, rx, rz, count)
    decreases count
  {
    if count > 0 {
      SameColumn(w, w', kind, radius, rx, rz + 1, count - 1);
    }
  }

  /** A specification of one structure. */
  function OnlyStructure(radius: nat, row: StructRow): (spec: SearchSpec)
    ensures Finalized(spec)
  {
    SearchSpec(radius, [], [row], [], [0])
  }

  /** The world in which a structure can stand at one position only. */
  ghost function StandsAt(w: World, p: Pos): World {
    w.(viable := (kind: int, x: int, z: int) => x == p.x && z == p.z)
  }

  /** When exactly the probe and the masks agree about one structure of a seed, whatever is viable:
      when no more than 32 attempts of its scanned regions are in reach. */
  lemma OverflowExact(w: World, mc: int, seed: int, radius: nat, row: StructRow)
    requires FromSeed(w, mc, seed) && row in STRUCTS
    ensures (forall v :: Agree(w.(viable := v), OnlyStructure(radius, row)))
            <==> |AllCandidates(w, row.kind, radius)| <= MAX_CANDIDATES
  {
    hide Agree, FromSeed, AllCandidates;
    var all := AllCandidates(w, row.kind, radius);
    if |all| <= MAX_CANDIDATES {
      forall v
        ensures Agree(w.(viable := v), OnlyStructure(radius, row))
      {
        SameAll(w, w.(viable := v), row.kind, radius);
        FewAgree(w.(viable := v), radius, row);
      }
    } else {
      var w' := StandsAt(w, all[MAX_CANDIDATES]);
      SameAll(w, w', row.kind, radius);
      DroppedDisagrees(w, mc, seed, radius, row);
      assert w' == w.(viable := w'.viable);
    }
  }

  lemma SameAll(w: World, w': World, kind: int, radius: nat)
    requires w'.structurePos == w.structurePos
    ensures AllCandidates(w', kind, radius) == AllCandidates(w, kind, radius)
  {
    SameCandidates(w, w', kind, radius, -RegionMax(radius), 2 * RegionMax(radius) + 1);
  }

  lemma FewAgree(w: World, radius: nat, row: StructRow)
    requires row in STRUCTS && |AllCandidates(w, row.kind, radius)| <= MAX_CANDIDATES
    ensures Agree(w, OnlyStructure(radius, row))
  {
    hide AllCandidates, AnyStands, StandsScanned, CacheHit;
    var spec := OnlyStructure(radius, row);
    CatalogueUnambiguous();
    HitMeans(w, spec, CATALOGUE);
    StandsMeans(w, row.kind, radius);
    assert Standing(w, spec, 0) <==> AnyStands(w, row.kind, AllCandidates(w, row.kind, radius));
  }

  /** If only the first candidate that is dropped can stand, the scan finds it and the probe does not. */
  lemma DroppedDisagrees(w: World, mc: int, seed: int, radius: nat, row: StructRow)
    requires FromSeed(w, mc, seed) && row in STRUCTS && |AllCandidates(w, row.kind, radius)| > MAX_CANDIDATES
    ensures !Agree(StandsAt(w, AllCandidates(w, row.kind, radius)[MAX_CANDIDATES]), OnlyStructure(radius, row))
  {
    hide FromSeed, CacheHit, AllCandidates, AnyStands, StandsScanned, InOrder;
    var all := AllCandidates(w, row.kind, radius);
    var w' := StandsAt(w, all[MAX_CANDIDATES]);
    var spec := OnlyStructure(radius, row);
    var r := RegionBlocks(row.kind, mc);
    SameAll(w, w', row.kind, radius);
    assert InOrder(all, r) by {
      InOrderAll(w, mc, seed, row.kind, radius);
    }
    OnlyDropped(w, row.kind, all, r);
    StandsMeans(w', row.kind, radius);
    CatalogueUnambiguous();
    HitMeans(w', spec, CATALOGUE);
    assert !Standing(w', spec, 0);
  }

  lemma InOrderAll(w: World, mc: int, seed: int, kind: int, radius: nat)
    requires FromSeed(w, mc, seed)
    ensures InOrder(AllCandidates(w, kind, radius), RegionBlocks(kind, mc))
  {
    hide FromSeed, InOrder, RegionBlocks;
    CandidatesInOrder(w, mc, seed, kind, radius, -RegionMax(radius), 2 * RegionMax(radius) + 1);
  }

  /** In a list without repetitions the first dropped entry is not among the kept ones. */
  lemma OnlyDropped(w: World, kind: int, all: seq<Pos>, r: nat)
    requires r > 0 && InOrder(all, r) && |all| > MAX_CANDIDATES
    ensures var w' := StandsAt(w, all[MAX_CANDIDATES]); AnyStands(w', kind, all) && !AnyStands(w', kind, Kept(all))
  {
    var w' := StandsAt(w, all[MAX_CANDIDATES]);
    assert Stands(w', kind, all[MAX_CANDIDATES]);
    forall i | 0 <= i < |Kept(all)|
      ensures !Stands(w', kind, Kept(all)[i])
    {
      assert Kept(all)[i] == all[i];
    }
  }

  // ----- a seed with more than 32 ocean ruins in reach beyond 1024 blocks

  const RUIN := StructRow(6, 10, 0.34)
  const RUIN_SEED := 1424313348772

  /** How far the ruins of a region reach along one axis at most. */
  function Reach(r: int): nat {
    if r < 0 then 0 - 320 * r else 320 * r + 176
  }

  /** Per column, the rows whose ruins of the seed are within 1025 blocks. */
  function LowRow(rx: int): int {
    if rx == -1 || rx == 0 || rx == 1 then -3 else -2
  }

  function HighRow(rx: int): int {
    if rx == -3 then 1 else if rx == -1 then 2 else if rx == 0 then 3 else 2
  }

  function Rows(rx: int): nat {
    if -3 <= rx <= 2 then HighRow(rx) - LowRow(rx) + 1 else 0
  }

  lemma RuinOf(mc: int, rx: int, rz: int)
    ensures var p := GetFeatureChunkInRegion(14357621, 12, RUIN_SEED, rx, rz);
            && SureAttempt(mc, RUIN_SEED, 6, rx, rz) == Some(Pos((rx * 20 + p.x) * 16, (rz * 20 + p.z) * 16))
            && 0 <= p.x < 12 && 0 <= p.z < 12
  {
    hide Attempt;
    AttemptBelow(U64(RUIN_SEED + rx * A + rz * B + 14357621), 12);
  }

  /** Within reach for every draw. */
  lemma RuinSurelyNear(mc: int, rx: int, rz: int)
    requires Reach(rx) * Reach(rx) + Reach(rz) * Reach(rz) <= 1025 * 1025
    ensures var p := SureAttempt(mc, RUIN_SEED, 6, rx, rz); p.Some? && InRadius(p.value.x, p.value.z, 1025)
  {
    hide SureAttempt;
    RuinOf(mc, rx, rz);
    var p := SureAttempt(mc, RUIN_SEED, 6, rx, rz).value;
    SquareBound(p.x, Reach(rx));
    SquareBound(p.z, Reach(rz));
  }

  lemma RuinNearAt(mc: int, rx: int, rz: int, x: int, z: int)
    requires GetFeatureChunkInRegion(14357621, 12, RUIN_SEED, rx, rz) == Chunk(x, z)
    requires (rx * 20 + x) * 16 * ((rx * 20 + x) * 16) + (rz * 20 + z) * 16 * ((rz * 20 + z) * 16) <= 1025 * 1025
    ensures var p := SureAttempt(mc, RUIN_SEED, 6, rx, rz); p.Some? && InRadius(p.value.x, p.value.z, 1025)
  {
    hide SureAttempt;
    RuinOf(mc, rx, rz);
  }

  lemma RuinNear(mc: int, rx: int, rz: int)
    requires -3 <= rx <= 2 && LowRow(rx) <= rz <= HighRow(rx)
    ensures var p := SureAttempt(mc, RUIN_SEED, 6, rx, rz); p.Some? && InRadius(p.value.x, p.value.z, 1025)
  {
    hide SureAttempt, InRadius, Attempt;
    if rx == -3 && rz == -2 {
      Ruin1();
      RuinNearAt(mc, rx, rz, 4, 11);
    } else if rx == -3 && rz == 1 {
      Ruin2();
      RuinNearAt(mc, rx, rz, 10, 0);
    } else if rx == -2 && rz == 2 {
      Ruin3();
      RuinNearAt(mc, rx, rz, 8, 11);
    } else if rx == 0 && rz == 3 {
      Ruin4();
      RuinNearAt(mc, rx, rz, 5, 1);
    } else if rx == 1 && rz == -3 {
      Ruin5();
      RuinNearAt(mc, rx, rz, 3, 3);
    } else if rx == 2 && rz == -2 {
      Ruin6();
      RuinNearAt(mc, rx, rz, 2, 3);
    } else if rx == 2 && rz == 2 {
      Ruin7();
      RuinNearAt(mc, rx, rz, 8, 0);
    } else {
      assert Reach(rx) * Reach(rx) + Reach(rz) * Reach(rz) <= 1025 * 1025 by { ReachFits(rx, rz); }
      RuinSurelyNear(mc, rx, rz);
    }
  }

  lemma ReachFits(rx: int, rz: int)
    requires -3 <= rx <= 2 && LowRow(rx) <= rz <= HighRow(rx)
    requires (rx, rz) !in {(-3, -2), (-3, 1), (-2, 2), (0, 3), (1, -3), (2, -2), (2, 2)}
    ensures Reach(rx) * Reach(rx) + Reach(rz) * Reach(rz) <= 1025 * 1025
  {
    ReachSquare(rx);
    ReachSquare(rz);
  }

  lemma ReachSquare(r: int)
    requires -3 <= r <= 3
    ensures Reach(r) * Reach(r) == (if r == -3 then 921600 else if r == -2 then 409600 else if r == -1 then 102400
                                    else if r == 0 then 30976 else if r == 1 then 246016 else if r == 2 then 665856 else 1290496)
  {
  }

  lemma InRadiusMore(x: int, z: int, a: nat, b: nat)
    requires InRadius(x, z, a) && a <= b
    ensures InRadius(x, z, b)
  {
    Monotone2(a, b, a, b);
  }

  /** A column has a candidate for each of its rows in reach. */
  lemma {:induction false} RuinColumn(mc: int, radius: nat, rx: int, rz: int, count: nat)
    requires radius > 1024 && -3 <= rx <= 2 && rz + count > HighRow(rx)
    ensures |ColumnCandidates(SeedWorld(mc, RUIN_SEED), 6, radius, rx, rz, count)|
            >= HighRow(rx) + 1 - (if rz < LowRow(rx) then LowRow(rx) else rz)
    decreases count
  {
    hide SureAttempt, InRadius;
    if count > 0 && rz <= HighRow(rx) {
      RuinColumn(mc, radius, rx, rz + 1, count - 1);
      if LowRow(rx) <= rz {
        RuinNear(mc, rx, rz);
        var p := SureAttempt(mc, RUIN_SEED, 6, rx, rz).value;
        InRadiusMore(p.x, p.z, 1025, radius);
      }
    }
  }

  /** How many rows the columns from rx on have. */
  function RowsFrom(rx: int, columns: nat): nat
    decreases columns
  {
    if columns == 0 then 0 else Rows(rx) + RowsFrom(rx + 1, columns - 1)
  }

  lemma {:induction false} RuinCount(mc: int, radius: nat, rx: int, columns: nat)
    requires radius > 1024
    ensures |Candidates(SeedWorld(mc, RUIN_SEED), 6, radius, rx, columns)| >= RowsFrom(rx, columns)
    decreases columns
  {
    hide SeedWorld, ColumnCandidates;
    if columns > 0 {
      var r := RegionMax(radius);
      if -3 <= rx <= 2 {
        RuinColumn(mc, radius, rx, -r, 2 * r + 1);
      }
      RuinCount(mc, radius, rx + 1, columns - 1);
    }
  }

  lemma {:induction false} RowsSkip(rx: int, columns: nat, skip: nat)
    requires skip <= columns && rx + skip <= -3
    ensures RowsFrom(rx, columns) == RowsFrom(rx + skip, columns - skip)
    decreases skip
  {
    if skip > 0 {
      RowsSkip(rx + 1, columns - 1, skip - 1);
    }
  }

  lemma ThirtyThree(columns: nat)
    requires columns >= 6
    ensures RowsFrom(-3, columns) >= 33
  {
    assert RowsFrom(-3, columns) == Rows(-3) + RowsFrom(-2, columns - 1);
    assert RowsFrom(-2, columns - 1) == Rows(-2) + RowsFrom(-1, columns - 2);
    assert RowsFrom(-1, columns - 2) == Rows(-1) + RowsFrom(0, columns - 3);
    assert RowsFrom(0, columns - 3) == Rows(0) + RowsFrom(1, columns - 4);
    assert RowsFrom(1, columns - 4) == Rows(1) + RowsFrom(2, columns - 5);
    assert RowsFrom(2, columns - 5) == Rows(2) + RowsFrom(3, columns - 6);
  }

  lemma RuinsCrowd(mc: int, radius: nat)
    requires radius > 1024
    ensures |AllCandidates(SeedWorld(mc, RUIN_SEED), 6, radius)| >= 33
  {
    hide SeedWorld, Candidates, RowsFrom;
    var r := RegionMax(radius);
    RuinCount(mc, radius, -r, 2 * r + 1);
    RowsSkip(-r, 2 * r + 1, r - 3);
    ThirtyThree(r + 4);
  }

  /** Beyond 1024 blocks the seed has more than 32 ocean ruins in reach, so that with a suitable
      one viable the masks promise what the probe refuses. */
  lemma CrowdedDisagrees(mc: int, radius: nat) returns (w: World)
    requires Offered(mc) && radius > 1024
    ensures FromSeed(w, mc, RUIN_SEED) && FromCatalogue(OnlyStructure(radius, RUIN), CATALOGUE)
    ensures !Agree(w, OnlyStructure(radius, RUIN))
  {
    hide Agree, FromSeed, SeedWorld, AllCandidates;
    assert STRUCTS[10] == RUIN;
    var w0 := SeedWorld(mc, RUIN_SEED);
    SeedWorldFromSeed(mc, RUIN_SEED);
    RuinsCrowd(mc, radius);
    DroppedDisagrees(w0, mc, RUIN_SEED, radius, RUIN);
    w := StandsAt(w0, AllCandidates(w0, 6, radius)[MAX_CANDIDATES]);
    StillFromSeed(w0, w, mc, RUIN_SEED);
  }

  lemma StillFromSeed(w: World, w': World, mc: int, seed: int)
    requires FromSeed(w, mc, seed) && w'.structurePos == w.structurePos
    ensures FromSeed(w', mc, seed)
  {
    hide AttemptPos, GetStructureConfig;
    forall kind, rx, rz
      ensures Attempted(w', mc, seed, kind, rx, rz)
    {
      assert Attempted(w, mc, seed, kind, rx, rz);
    }
  }

  /** In every version that can be searched, live search and cache agree about all seeds, whatever is
      viable, exactly up to a radius of 1024. */
  lemma AgreementLimit(mc: int, radius: nat)
    requires Offered(mc)
    ensures (forall w: World, seed: int, spec: SearchSpec ::
               FromSeed(w, mc, seed) && spec.radius == radius && FromCatalogue(spec, CATALOGUE) ==> Agree(w, spec))
            <==> radius <= 1024
  {
    hide Agree, FromSeed;
    if radius <= 1024 {
      forall w: World, seed: int, spec: SearchSpec
        | FromSeed(w, mc, seed) && spec.radius == radius && FromCatalogue(spec, CATALOGUE)
        ensures Agree(w, spec)
      {
        CacheAgrees(w, spec);
      }
    } else {
      var w := CrowdedDisagrees(mc, radius);
    }
  }
}
