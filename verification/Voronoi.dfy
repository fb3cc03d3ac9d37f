/** The 1:1 biome scale of layers.c and biomenoise.c: every block takes the biome of the nearest
    jittered cell point, looked up one by one or through a batch of samples. */
module Voronoi {
  import opened Points
  import opened Words
  import opened Products
  import LayerRng

  /** `getVoronoiCell`: how far the point of a cell is pushed from its corner. */
  function GetVoronoiCell(sha: nat, a: int, b: int, c: int): (r: Pos3)
    ensures -18432 <= r.x <= 18396 && -18432 <= r.y <= 18396 && -18432 <= r.z <= 18396
  {
    var s0 := LayerRng.McStepSeed(sha, a);
    var s1 := LayerRng.McStepSeed(s0, b);
    var s2 := LayerRng.McStepSeed(s1, c);
    var s3 := LayerRng.McStepSeed(s2, a);
    var s4 := LayerRng.McStepSeed(s3, b);
    var s5 := LayerRng.McStepSeed(s4, c);
    var s6 := LayerRng.McStepSeed(s5, sha);
    var s7 := LayerRng.McStepSeed(s6, sha);
    Pos3(Jitter(s5), Jitter(s6), Jitter(s7))
  }

  function Jitter(s: nat): (r: int)
    ensures -18432 <= r <= 18396
  {
    ((s / 0x100_0000) % 1024 - 512) * 36
  }

  // ----- the meaning

  /** The point of a cell, in 1/10240 blocks. */
  function CellPoint(sha: nat, c: Pos3): Pos3 {
    var jitter := GetVoronoiCell(sha, c.x, c.y, c.z);
    Pos3(40960 * c.x - jitter.x, 40960 * c.y - jitter.y, 40960 * c.z - jitter.z)
  }

  function Distance(p: Pos3, q: Pos3): nat {
    Square(p.x - q.x) + Square(p.y - q.y) + Square(p.z - q.z)
  }

  /** The block's position, shifted by two blocks, in 1/10240 blocks. */
  function BlockPoint(p: Pos3): Pos3 {
    Pos3(10240 * (p.x - 2), 10240 * (p.y - 2), 10240 * (p.z - 2))
  }

  function Bit(i: nat, value: nat): nat
    requires value > 0
  {
    (i / value) % 2
  }

  /** The eight cells around a block. */
  function Corner(p: Pos3, i: nat): Pos3 {
    Pos3((p.x - 2) / 4 + Bit(i, 4), (p.y - 2) / 4 + Bit(i, 2), (p.z - 2) / 4 + Bit(i, 1))
  }

  function CornerDistance(sha: nat, p: Pos3, i: nat): nat {
    Distance(BlockPoint(p), CellPoint(sha, Corner(p, i)))
  }

  /** The first of the first `n` corners that is nearest. */
  function Closest(sha: nat, p: Pos3, n: nat): (m: nat)
    requires n > 0
    ensures m < n
  {
    if n == 1 then 0
    else
      var m := Closest(sha, p, n - 1);
      if CornerDistance(sha, p, n - 1) < CornerDistance(sha, p, m) then n - 1 else m
  }

  lemma {:induction false} ClosestIsNearest(sha: nat, p: Pos3, n: nat, i: nat)
    requires i < n
    ensures CornerDistance(sha, p, Closest(sha, p, n)) <= CornerDistance(sha, p, i)
    ensures i < Closest(sha, p, n) ==> CornerDistance(sha, p, Closest(sha, p, n)) < CornerDistance(sha, p, i)
  {
    hide CornerDistance;
    if n > 1 {
      if i < n - 1 {
        ClosestIsNearest(sha, p, n - 1, i);
      } else {
        ClosestIsNearest(sha, p, n - 1, 0);
      }
    }
  }

  /** The cell a block belongs to. */
  function Access(sha: nat, p: Pos3): Pos3 {
    Corner(p, Closest(sha, p, 8))
  }

  // ----- the search

  /** The offsets that the search computes are the differences of the points, and too small to wrap. */
  lemma OffsetsExact(sha: nat, p: Pos3, i: nat)
    requires i < 8
    ensures var c := Corner(p, i);
            var cell := GetVoronoiCell(sha, c.x, c.y, c.z);
            var rx := cell.x + ((p.x - 2) % 4) * 10240 - 40960 * Bit(i, 4);
            var ry := cell.y + ((p.y - 2) % 4) * 10240 - 40960 * Bit(i, 2);
            var rz := cell.z + ((p.z - 2) % 4) * 10240 - 40960 * Bit(i, 1);
            U64(Square(rx) + Square(ry) + Square(rz)) == CornerDistance(sha, p, i) < TWO64 - 1
  {
    hide GetVoronoiCell, Square;
    var c := Corner(p, i);
    var cell := GetVoronoiCell(sha, c.x, c.y, c.z);
    var rx := cell.x + ((p.x - 2) % 4) * 10240 - 40960 * Bit(i, 4);
    var ry := cell.y + ((p.y - 2) % 4) * 10240 - 40960 * Bit(i, 2);
    var rz := cell.z + ((p.z - 2) % 4) * 10240 - 40960 * Bit(i, 1);
    assert rx == BlockPoint(p).x - CellPoint(sha, c).x;
    assert ry == BlockPoint(p).y - CellPoint(sha, c).y;
    assert rz == BlockPoint(p).z - CellPoint(sha, c).z;
    SquareBound(rx, 60000);
    SquareBound(ry, 60000);
    SquareBound(rz, 60000);
  }

  /** One round of the search: the corner and its squared distance. */
  method CornerAt(sha: nat, ghost p: Pos3, px: int, py: int, pz: int, dx: int, dy: int, dz: int, i: nat)
    returns (cx: int, cy: int, cz: int, d: nat)
    requires i < 8 && px == (p.x - 2) / 4 && py == (p.y - 2) / 4 && pz == (p.z - 2) / 4
    requires dx == ((p.x - 2) % 4) * 10240 && dy == ((p.y - 2) % 4) * 10240 && dz == ((p.z - 2) % 4) * 10240
    ensures Pos3(cx, cy, cz) == Corner(p, i) && d == CornerDistance(sha, p, i) < TWO64 - 1
  {
    hide CornerDistance, GetVoronoiCell, Square, Bit;
    var ox, oy, oz := Bit(i, 4), Bit(i, 2), Bit(i, 1);
    cx, cy, cz := px + ox, py + oy, pz + oz;
    var cell := GetVoronoiCell(sha, cx, cy, cz);
    var rx, ry, rz := cell.x + dx - 40960 * ox, cell.y + dy - 40960 * oy, cell.z + dz - 40960 * oz;
    d := U64(Square(rx) + Square(ry) + Square(rz));
    OffsetsExact(sha, p, i);
  }

  method VoronoiAccess3D(sha: nat, x: int, y: int, z: int) returns (x4: int, y4: int, z4: int)
    ensures Pos3(x4, y4, z4) == Access(sha, Pos3(x, y, z))
  {
    hide CornerDistance, Corner;
    ghost var p := Pos3(x, y, z);
    var px, py, pz := (x - 2) / 4, (y - 2) / 4, (z - 2) / 4;
    var dx, dy, dz := ((x - 2) % 4) * 10240, ((y - 2) % 4) * 10240, ((z - 2) % 4) * 10240;
    x4, y4, z4 := 0, 0, 0;
    var dmin := TWO64 - 1;
    var i := 0;
    while i < 8
      invariant 0 <= i <= 8
      invariant i == 0 ==> dmin == TWO64 - 1
      invariant i > 0 ==> Pos3(x4, y4, z4) == Corner(p, Closest(sha, p, i)) && dmin == CornerDistance(sha, p, Closest(sha, p, i))
    {
      var cx, cy, cz, d := CornerAt(sha, p, px, py, pz, dx, dy, dz, i);
      if d < dmin {
        dmin := d;
        x4, y4, z4 := cx, cy, cz;
      }
      i := i + 1;
    }
  }

  // ----- ranges

  datatype Range = Range(scale: int, x: int, z: int, sx: nat, sz: nat, y: int, sy: nat)

  predicate InRange(r: Range, i: int, j: int, k: int) {
    0 <= i < r.sx && 0 <= j < r.sz && 0 <= k < r.sy
  }

  function Volume(r: Range): nat {
    Area(Area(r.sx, r.sz), r.sy)
  }

  /** Where a range, listed plane by plane and row by row, keeps a cell. */
  function Index3(r: Range, i: nat, j: nat, k: nat): nat {
    Area(Area(r.sx, r.sz), k) + Area(r.sx, j) + i
  }

  lemma InVolume(r: Range, i: nat, j: nat, k: nat)
    requires i < r.sx && j < r.sz && k < r.sy
    ensures Index3(r, i, j, k) < Volume(r)
  {
    hide Area;
    InGrid(r.sx, r.sz, i, j);
    InGrid(Area(r.sx, r.sz), r.sy, Area(r.sx, j) + i, k);
  }

  lemma Index3Injective(r: Range, i: nat, j: nat, k: nat, i': nat, j': nat, k': nat)
    requires i < r.sx && j < r.sz && i' < r.sx && j' < r.sz && Index3(r, i, j, k) == Index3(r, i', j', k')
    ensures i == i' && j == j' && k == k'
  {
    hide Area;
    InGrid(r.sx, r.sz, i, j);
    InGrid(r.sx, r.sz, i', j');
    IndexInjective(Area(r.sx, r.sz), Area(r.sx, j) + i, k, Area(r.sx, j') + i', k');
    IndexInjective(r.sx, i, j, i', j');
  }

  /** The range of samples that a range of blocks needs. */
  function GetVoronoiSrcRange(r: Range): (s: Range)
    requires r.scale == 1
  {
    var x, z, ty := r.x - 2, r.z - 2, r.y - 2;
    var sx, sz := (x + r.sx) / 4 - x / 4 + 2, (z + r.sz) / 4 - z / 4 + 2;
    if r.sy < 1 then Range(4, x / 4, z / 4, sx, sz, 0, 0)
    else Range(4, x / 4, z / 4, sx, sz, ty / 4, (ty + r.sy) / 4 - ty / 4 + 2)
  }

  /** Every lookup of the range falls inside it. */
  lemma AccessInside(sha: nat, r: Range, i: nat, j: nat, k: nat)
    requires r.scale == 1 && InRange(r, i, j, k)
    ensures var s := GetVoronoiSrcRange(r);
            var c := Access(sha, Pos3(r.x + i, r.y + k, r.z + j));
            InRange(s, c.x - s.x, c.z - s.z, c.y - s.y)
  {
    hide CornerDistance;
    OneAxis(r.x - 2, r.sx, i);
    OneAxis(r.y - 2, r.sy, k);
    OneAxis(r.z - 2, r.sz, j);
  }

  lemma OneAxis(x: int, n: nat, i: nat)
    requires i < n
    ensures x / 4 <= (x + i) / 4 && (x + i) / 4 + 1 < (x + n) / 4 + 2
    ensures (x + n) / 4 - x / 4 + 2 <= (n + 3) / 4 + 2
  {
  }

  /** Cells asked for from a generator without 2D layers: the output, and at 1:1 the samples. */
  function GetMinCacheSize(scale: int, sx: nat, sy0: nat, sz: nat): nat {
    var sy := if sy0 == 0 then 1 else sy0;
    Area(Area(sx, sz), sy) +
    if scale <= 1 then Area(Area((sx + 3) / 4 + 2, (sz + 3) / 4 + 2), (sy + 3) / 4 + 2) else 0
  }

  /** Output and samples fit the cache. */
  lemma CacheFits(r: Range)
    requires r.scale == 1 && r.sy > 0 && r.sx > 0 && r.sz > 0
    ensures Volume(r) + Volume(GetVoronoiSrcRange(r)) <= GetMinCacheSize(r.scale, r.sx, r.sy, r.sz)
  {
    hide Area;
    var s := GetVoronoiSrcRange(r);
    OneAxis(r.x - 2, r.sx, 0);
    OneAxis(r.z - 2, r.sz, 0);
    OneAxis(r.y - 2, r.sy, 0);
    AreaMonotone(s.sx, s.sz, (r.sx + 3) / 4 + 2, (r.sz + 3) / 4 + 2);
    AreaMonotone(Area(s.sx, s.sz), s.sy, Area((r.sx + 3) / 4 + 2, (r.sz + 3) / 4 + 2), (r.sy + 3) / 4 + 2);
  }

  // ----- sampling a range

  /** The climate sampler: without a hint, and with the hint that a search leaves for the next. */
  datatype Sampler = Sampler(plain: (int, int, int) -> int, hinted: (int, int, int, nat) -> (int, nat))

  function Sample(s: Sampler, opt: bool, x: int, y: int, z: int, dat: nat): (int, nat) {
    if opt then s.hinted(x, y, z, dat) else (s.plain(x, y, z), dat)
  }

  /** The sample position of a cell. */
  function CellPos(r: Range, i: int, j: int, k: int): Pos3 {
    if r.scale > 4 then
      var scale := r.scale / 4;
      Pos3((r.x + i) * scale + scale / 2, r.y + k, (r.z + j) * scale + scale / 2)
    else Pos3(r.x + i, r.y + k, r.z + j)
  }

  /** Above 1:4 the sample of a cell, a quarter of a block position, is taken at the block in the middle of the
      cell, or two blocks before it if the cell is an odd number of quarters wide. */
  lemma SampleMiddle(r: Range, i: int, j: int, k: int)
    requires r.scale > 4 && r.scale % 4 == 0
    ensures var c := CellPos(r, i, j, k);
            var back := if r.scale % 8 == 0 then 0 else 2;
            && 4 * c.x + back == (r.x + i) * r.scale + r.scale / 2
            && 4 * c.z + back == (r.z + j) * r.scale + r.scale / 2
            && c.y == r.y + k
  {
    MiddleOf(r.x + i, r.scale / 4);
    MiddleOf(r.z + j, r.scale / 4);
  }

  lemma MiddleOf(n: int, q: nat)
    ensures var back := if q % 2 == 0 then 0 else 2; 4 * (n * q + q / 2) + back == n * (4 * q) + (4 * q) / 2
    ensures 4 * q % 8 == 0 <==> q % 2 == 0
  {
    assert n * (4 * q) == 4 * (n * q);
  }

  /** The `n` cells listed first hold the values of `val`, from position `off` on. */
  ghost predicate Filled(out: seq<int>, off: nat, r: Range, n: nat, val: (nat, nat, nat) -> int) {
    && off + n <= |out|
    && forall i: nat, j: nat, k: nat :: InRange(r, i, j, k) && Index3(r, i, j, k) < n ==> out[off + Index3(r, i, j, k)] == val(i, j, k)
  }

  lemma FilledNext(out: seq<int>, out': seq<int>, off: nat, r: Range, val: (nat, nat, nat) -> int, i: nat, j: nat, k: nat)
    requires InRange(r, i, j, k) && Filled(out, off, r, Index3(r, i, j, k), val)
    requires |out'| == |out| && off + Index3(r, i, j, k) < |out|
    requires forall q :: 0 <= q < |out| && q != off + Index3(r, i, j, k) ==> out'[q] == out[q]
    requires out'[off + Index3(r, i, j, k)] == val(i, j, k)
    ensures Filled(out', off, r, Index3(r, i, j, k) + 1, val)
  {
    hide Index3;
    var n := Index3(r, i, j, k);
    forall i': nat, j': nat, k': nat | InRange(r, i', j', k') && Index3(r, i', j', k') < n + 1
      ensures out'[off + Index3(r, i', j', k')] == val(i', j', k')
    {
      if Index3(r, i', j', k') == n {
        Index3Injective(r, i, j, k, i', j', k');
      }
    }
  }

  lemma NextRow(r: Range, j: nat, k: nat)
    ensures Index3(r, r.sx, j, k) == Index3(r, 0, j + 1, k)
    ensures Index3(r, 0, r.sz, k) == Index3(r, 0, 0, k + 1)
    ensures Index3(r, 0, 0, 0) == 0
    ensures Index3(r, 0, 0, k) == Area(Area(r.sx, r.sz), k)
  {
    hide Area;
    AreaNext(r.sx, j);
    AreaNext(Area(r.sx, r.sz), k);
    AreaNext(r.sx, 0);
    AreaNext(Area(r.sx, r.sz), 0);
  }

  /** The hint that is left when the cells listed before (i, j, k) have been sampled. */
  function HintAt(s: Sampler, r: Range, opt: bool, i: nat, j: nat, k: nat): nat
    decreases k, j, i
  {
    if i > 0 then
      var c := CellPos(r, i - 1, j, k);
      Sample(s, opt, c.x, c.y, c.z, HintAt(s, r, opt, i - 1, j, k)).1
    else if j > 0 then HintAt(s, r, opt, r.sx, j - 1, k)
    else if k > 0 then HintAt(s, r, opt, 0, r.sz, k - 1)
    else 0
  }

  function SampledValue(s: Sampler, r: Range, opt: bool): (nat, nat, nat) -> int {
    (i: nat, j: nat, k: nat) =>
      var c := CellPos(r, i, j, k);
      Sample(s, opt, c.x, c.y, c.z, HintAt(s, r, opt, i, j, k)).0
  }

  method SampleRow(s: Sampler, out: array<int>, off: nat, r: Range, opt: bool, scale: int, mid: int, j: nat, k: nat, p0: nat, dat0: nat)
    returns (p: nat, dat: nat)
    requires scale == (if r.scale > 4 then r.scale / 4 else 1) && mid == scale / 2
    requires j < r.sz && k < r.sy && off + Volume(r) <= out.Length
    requires p0 == Index3(r, 0, j, k) && dat0 == HintAt(s, r, opt, 0, j, k)
    requires Filled(out[..], off, r, p0, SampledValue(s, r, opt))
    modifies out
    ensures p == Index3(r, r.sx, j, k) && dat == HintAt(s, r, opt, r.sx, j, k)
    ensures Filled(out[..], off, r, p, SampledValue(s, r, opt))
    ensures forall q :: 0 <= q < out.Length && (q < off || off + Volume(r) <= q) ==> out[q] == old(out[q])
  {
    hide Filled, Volume, Area, CellPos, Sample;
    var yk, zj := r.y + k, (r.z + j) * scale + mid;
    p, dat := p0, dat0;
    var i := 0;
    while i < r.sx
      invariant 0 <= i <= r.sx && p == Index3(r, i, j, k) && dat == HintAt(s, r, opt, i, j, k)
      invariant Filled(out[..], off, r, p, SampledValue(s, r, opt))
      invariant forall q :: 0 <= q < out.Length && (q < off || off + Volume(r) <= q) ==> out[q] == old(out[q])
    {
      InVolume(r, i, j, k);
      ghost var was := out[..];
      var xi := (r.x + i) * scale + mid;
      assert Pos3(xi, yk, zj) == CellPos(r, i, j, k) by { PosOf(r, scale, mid, i, j, k); }
      var next := Sample(s, opt, xi, yk, zj, dat);
      out[off + p] := next.0;
      FilledNext(was, out[..], off, r, SampledValue(s, r, opt), i, j, k);
      dat := next.1;
      p := p + 1;
      i := i + 1;
    }
  }

  lemma PosOf(r: Range, scale: int, mid: int, i: int, j: int, k: int)
    requires scale == (if r.scale > 4 then r.scale / 4 else 1) && mid == scale / 2
    ensures CellPos(r, i, j, k) == Pos3((r.x + i) * scale + mid, r.y + k, (r.z + j) * scale + mid)
  {
  }

  /** Fills a range with samples, leaving the rest of the array alone. */
  method GenBiomeNoise3D(s: Sampler, out: array<int>, off: nat, r: Range, opt: bool)
    requires off + Volume(r) <= out.Length
    modifies out
    ensures Filled(out[..], off, r, Volume(r), SampledValue(s, r, opt))
    ensures forall q :: 0 <= q < out.Length && (q < off || off + Volume(r) <= q) ==> out[q] == old(out[q])
  {
    hide Area, Sample, CellPos, Index3, Filled;
    var scale := if r.scale > 4 then r.scale / 4 else 1;
    var mid := scale / 2;
    var p, dat := 0, 0;
    NextRow(r, 0, 0);
    FilledNone(out[..], off, r, SampledValue(s, r, opt));
    var k := 0;
    while k < r.sy
      invariant 0 <= k <= r.sy && p == Index3(r, 0, 0, k) && dat == HintAt(s, r, opt, 0, 0, k)
      invariant Filled(out[..], off, r, p, SampledValue(s, r, opt))
      invariant forall q :: 0 <= q < out.Length && (q < off || off + Volume(r) <= q) ==> out[q] == old(out[q])
    {
      var j := 0;
      while j < r.sz
        invariant 0 <= j <= r.sz && p == Index3(r, 0, j, k) && dat == HintAt(s, r, opt, 0, j, k)
        invariant Filled(out[..], off, r, p, SampledValue(s, r, opt))
        invariant forall q :: 0 <= q < out.Length && (q < off || off + Volume(r) <= q) ==> out[q] == old(out[q])
      {
        p, dat := SampleRow(s, out, off, r, opt, scale, mid, j, k, p, dat);
        NextRow(r, j, k);
        j := j + 1;
      }
      NextRow(r, r.sz, k);
      k := k + 1;
    }
    NextRow(r, 0, r.sy);
  }

  lemma FilledNone(out: seq<int>, off: nat, r: Range, val: (nat, nat, nat) -> int)
    requires off <= |out|
    ensures Filled(out, off, r, 0, val)
  {
  }

  // ----- looking up a range of blocks

  /** The biome of a block, sampled directly. */
  function BlockValue(s: Sampler, sha: nat, r: Range): (nat, nat, nat) -> int {
    (i: nat, j: nat, k: nat) =>
      var c := Access(sha, Pos3(r.x + i, r.y + k, r.z + j));
      s.plain(c.x, c.y, c.z)
  }

  lemma FilledAt(out: seq<int>, off: nat, r: Range, n: nat, val: (nat, nat, nat) -> int, i: nat, j: nat, k: nat)
    requires Filled(out, off, r, n, val) && InRange(r, i, j, k) && Index3(r, i, j, k) < n
    ensures off + n <= |out| && out[off + Index3(r, i, j, k)] == val(i, j, k)
  {
  }

  lemma PlainValue(s: Sampler, r: Range, i: nat, j: nat, k: nat)
    requires r.scale <= 4
    ensures SampledValue(s, r, false)(i, j, k) == s.plain(r.x + i, r.y + k, r.z + j)
  {
    hide HintAt;
  }

  lemma SrcScale(r: Range)
    requires r.scale == 1
    ensures GetVoronoiSrcRange(r).scale == 4
  {
  }

  /** The range `src`, listed from `off` on, has the value v at cell c. */
  predicate CellHas(out: seq<int>, off: nat, src: Range, c: Pos3, v: int) {
    && c.x >= src.x && c.y >= src.y && c.z >= src.z
    && off + Index3(src, c.x - src.x, c.z - src.z, c.y - src.y) < |out|
    && out[off + Index3(src, c.x - src.x, c.z - src.z, c.y - src.y)] == v
  }

  /** What the batch holds for a looked up cell. */
  lemma BatchHolds(s: Sampler, out: seq<int>, off: nat, sha: nat, r: Range, i: nat, j: nat, k: nat)
    requires r.scale == 1 && InRange(r, i, j, k)
    requires var src := GetVoronoiSrcRange(r); Filled(out, off, src, Volume(src), SampledValue(s, src, false))
    ensures CellHas(out, off, GetVoronoiSrcRange(r), Access(sha, Pos3(r.x + i, r.y + k, r.z + j)), BlockValue(s, sha, r)(i, j, k))
  {
    hide Area, Access, Volume, Index3, Filled, SampledValue, GetVoronoiSrcRange;
    AccessInside(sha, r, i, j, k);
    SrcScale(r);
    var src := GetVoronoiSrcRange(r);
    var c := Access(sha, Pos3(r.x + i, r.y + k, r.z + j));
    var ci, cj, ck := c.x - src.x, c.z - src.z, c.y - src.y;
    InVolume(src, ci, cj, ck);
    FilledAt(out, off, src, Volume(src), SampledValue(s, src, false), ci, cj, ck);
    PlainValue(s, src, ci, cj, ck);
  }

  method AccessRow(s: Sampler, out: array<int>, r: Range, sha: nat, batched: bool, j: nat, k: nat, p0: nat) returns (p: nat)
    requires r.scale == 1 && j < r.sz && k < r.sy && Volume(r) <= out.Length && p0 == Index3(r, 0, j, k)
    requires Filled(out[..], 0, r, p0, BlockValue(s, sha, r))
    requires batched ==> BatchReady(s, out[..], r)
    modifies out
    ensures p == Index3(r, r.sx, j, k) && Filled(out[..], 0, r, p, BlockValue(s, sha, r))
    ensures forall q :: Volume(r) <= q < out.Length ==> out[q] == old(out[q])
  {
    hide Filled, Volume, Area, Access, BatchReady, GetVoronoiSrcRange, Index3;
    var src := GetVoronoiSrcRange(r);
    p := p0;
    var i := 0;
    NextRow(r, j, k);
    while i < r.sx
      invariant 0 <= i <= r.sx && p == Index3(r, i, j, k)
      invariant Filled(out[..], 0, r, p, BlockValue(s, sha, r))
      invariant forall q :: Volume(r) <= q < out.Length ==> out[q] == old(out[q])
      invariant batched ==> BatchReady(s, out[..], r)
    {
      InVolume(r, i, j, k);
      NextCell(r, i, j, k);
      ghost var was := out[..];
      var x4, y4, z4 := VoronoiAccess3D(sha, r.x + i, r.y + k, r.z + j);
      if batched {
        BatchAt(s, out[..], sha, r, i, j, k);
        out[p] := out[Volume(r) + Index3(src, x4 - src.x, z4 - src.z, y4 - src.y)];
      } else {
        out[p] := s.plain(x4, y4, z4);
      }
      FilledNext(was, out[..], 0, r, BlockValue(s, sha, r), i, j, k);
      if batched {
        BatchStays(s, was, out[..], r);
      }
      p := p + 1;
      i := i + 1;
    }
  }

  /** The samples of the source range are in place behind the output. */
  ghost predicate BatchReady(s: Sampler, out: seq<int>, r: Range)
    requires r.scale == 1
  {
    var src := GetVoronoiSrcRange(r);
    Filled(out, Volume(r), src, Volume(src), SampledValue(s, src, false))
  }

  lemma BatchAt(s: Sampler, out: seq<int>, sha: nat, r: Range, i: nat, j: nat, k: nat)
    requires r.scale == 1 && InRange(r, i, j, k) && BatchReady(s, out, r)
    ensures CellHas(out, Volume(r), GetVoronoiSrcRange(r), Access(sha, Pos3(r.x + i, r.y + k, r.z + j)), BlockValue(s, sha, r)(i, j, k))
  {
    hide Filled, Index3, Access, Area, Volume, GetVoronoiSrcRange, CellHas, BlockValue, SampledValue;
    BatchHolds(s, out, Volume(r), sha, r, i, j, k);
  }

  lemma BatchStays(s: Sampler, out: seq<int>, out': seq<int>, r: Range)
    requires r.scale == 1 && BatchReady(s, out, r) && |out'| == |out|
    requires forall q :: Volume(r) <= q < |out| ==> out'[q] == out[q]
    ensures BatchReady(s, out', r)
  {
    hide Index3, Volume, SampledValue, GetVoronoiSrcRange;
  }

  lemma NextCell(r: Range, i: nat, j: nat, k: nat)
    ensures Index3(r, i + 1, j, k) == Index3(r, i, j, k) + 1
  {
    hide Area;
  }

  /** Fills a range of any scale. At 1:1 every cell is what sampling its block directly gives,
      whether or not a batch was used; nothing outside the cache of GetMinCacheSize is touched. */
  method GenBiomeNoiseScaled(s: Sampler, out: array<int>, r0: Range, sha: nat)
    requires GetMinCacheSize(r0.scale, r0.sx, r0.sy, r0.sz) <= out.Length
    modifies out
    ensures var r := r0.(sy := if r0.sy == 0 then 1 else r0.sy);
            Filled(out[..], 0, r, Volume(r), if r.scale == 1 then BlockValue(s, sha, r) else SampledValue(s, r, r.scale > 4))
    ensures forall q :: GetMinCacheSize(r0.scale, r0.sx, r0.sy, r0.sz) <= q < out.Length ==> out[q] == old(out[q])
  {
    hide Area, Filled, Access, BatchReady, Index3, GetVoronoiSrcRange, BlockValue, SampledValue;
    var r := r0.(sy := if r0.sy == 0 then 1 else r0.sy);
    var siz := Volume(r);
    if r.scale == 1 {
      var src := GetVoronoiSrcRange(r);
      var batched := siz > 1;
      if batched {
        ZeroVolume(r);
        CacheFits(r);
        GenBiomeNoise3D(s, out, siz, src, false);
        assert BatchReady(s, out[..], r) by { ReadyNow(s, out[..], r); }
      }
      label Ready:
      var p := 0;
      NextRow(r, 0, 0);
      FilledNone(out[..], 0, r, BlockValue(s, sha, r));
      var k := 0;
      while k < r.sy
        invariant 0 <= k <= r.sy && p == Index3(r, 0, 0, k)
        invariant Filled(out[..], 0, r, p, BlockValue(s, sha, r))
        invariant batched ==> BatchReady(s, out[..], r)
        invariant forall q :: siz <= q < out.Length ==> out[q] == old@Ready(out[q])
      {
        var j := 0;
        while j < r.sz
          invariant 0 <= j <= r.sz && p == Index3(r, 0, j, k)
          invariant Filled(out[..], 0, r, p, BlockValue(s, sha, r))
          invariant batched ==> BatchReady(s, out[..], r)
          invariant forall q :: siz <= q < out.Length ==> out[q] == old@Ready(out[q])
        {
          ghost var was := out[..];
          p := AccessRow(s, out, r, sha, batched, j, k, p);
          if batched {
            BatchStays(s, was, out[..], r);
          }
          NextRow(r, j, k);
          j := j + 1;
        }
        NextRow(r, r.sz, k);
        k := k + 1;
      }
      NextRow(r, 0, r.sy);
    } else {
      GenBiomeNoise3D(s, out, 0, r, r.scale > 4);
    }
  }

  lemma ReadyNow(s: Sampler, out: seq<int>, r: Range)
    requires r.scale == 1
    requires var src := GetVoronoiSrcRange(r); Filled(out, Volume(r), src, Volume(src), SampledValue(s, src, false))
    ensures BatchReady(s, out, r)
  {
  }

  lemma ZeroVolume(r: Range)
    ensures r.sx == 0 || r.sz == 0 || r.sy == 0 ==> Volume(r) == 0
  {
    assert Area(0, r.sz) == 0 && Area(r.sx, 0) == 0;
    assert Area(0, r.sy) == 0 && Area(Area(r.sx, r.sz), 0) == 0;
  }

  /** Two 1:1 outputs agree wherever their ranges share a block, however many cells were asked for. */
  lemma RangesAgree(s: Sampler, sha: nat, out: seq<int>, r: Range, out': seq<int>, r': Range,
                    i: nat, j: nat, k: nat, i': nat, j': nat, k': nat)
    requires Filled(out, 0, r, Volume(r), BlockValue(s, sha, r)) && InRange(r, i, j, k)
    requires Filled(out', 0, r', Volume(r'), BlockValue(s, sha, r')) && InRange(r', i', j', k')
    requires r.x + i == r'.x + i' && r.z + j == r'.z + j' && r.y + k == r'.y + k'
    ensures Index3(r, i, j, k) < |out| && Index3(r', i', j', k') < |out'|
    ensures out[Index3(r, i, j, k)] == out'[Index3(r', i', j', k')]
  {
    hide Area, Volume, Index3, Access, Filled;
    InVolume(r, i, j, k);
    InVolume(r', i', j', k');
    FilledAt(out, 0, r, Volume(r), BlockValue(s, sha, r), i, j, k);
    FilledAt(out', 0, r', Volume(r'), BlockValue(s, sha, r'), i', j', k');
    assert BlockValue(s, sha, r)(i, j, k) == BlockValue(s, sha, r')(i', j', k');
  }
}
