/** The quad-structure test of quadbase.h for regions of 32 chunks, offsets below 24 and
    radius 128: four structures, one in each of four adjacent regions, within reach of one
    point. */
module QuadBase {
  import opened KnownAttempts
  import opened Remainders
  import opened Words
  import opened Products
  import opened JavaRandom
  import opened StructurePositions

  /** The attempts of the regions (0,0), (1,1), (1,0) and (0,1), in the source's numbering. */
  datatype Quad = Quad(p0: Chunk, p1: Chunk, p2: Chunk, p3: Chunk)

  predicate InRegion(c: Chunk) {
    0 <= c.x < 24 && 0 <= c.z < 24
  }

  predicate Drawn(q: Quad) {
    InRegion(q.p0) && InRegion(q.p1) && InRegion(q.p2) && InRegion(q.p3)
  }

  /** The attempts around region (i, j). */
  function QuadAt(salt: int, seed: int, i: int, j: int): (q: Quad)
    ensures Drawn(q)
  {
    AttemptRange(U64(seed + i * A + j * B + salt));
    AttemptRange(U64(seed + (i + 1) * A + (j + 1) * B + salt));
    AttemptRange(U64(seed + (i + 1) * A + j * B + salt));
    AttemptRange(U64(seed + i * A + (j + 1) * B + salt));
    Quad(GetFeatureChunkInRegion(salt, 24, seed, i, j), GetFeatureChunkInRegion(salt, 24, seed, i + 1, j + 1),
         GetFeatureChunkInRegion(salt, 24, seed, i + 1, j), GetFeatureChunkInRegion(salt, 24, seed, i, j + 1))
  }

  lemma NotPowerOfTwo24()
    ensures !PowerOfTwo(24)
  {
    assert !PowerOfTwo(3);
    assert !PowerOfTwo(6);
    assert !PowerOfTwo(12);
  }

  lemma AttemptRange(word: nat)
    ensures InRegion(Attempt(word, 24))
  {
    NotPowerOfTwo24();
  }

  /** The extent of one structure in blocks. */
  datatype Extent = Extent(ax: nat, ay: nat, az: nat)

  const HUT := Extent(8, 8, 10)
  const POINT := Extent(0, 0, 0)

  /** The outer corners of the four structures, in blocks. */
  function Corner0(q: Quad): (int, int) { (16 * q.p0.x, 16 * q.p0.z) }
  function Corner1(q: Quad, e: Extent): (int, int) { (16 * (32 + q.p1.x) + e.ax, 16 * (32 + q.p1.z) + e.az) }
  function Corner2(q: Quad, e: Extent): (int, int) { (16 * (32 + q.p2.x) + e.ax, 16 * q.p2.z) }
  function Corner3(q: Quad, e: Extent): (int, int) { (16 * q.p3.x, 16 * (32 + q.p3.z) + e.az) }

  function DistSq(c: (int, int), x: int, z: int): (s: int)
    ensures s >= 0
  {
    Square(x - c.0) + Square(z - c.1)
  }

  function Max(a: int, b: int): int {
    if a > b then a else b
  }

  /** The squared distance from (x, z) to the farthest of the four corners. */
  function Farthest(q: Quad, e: Extent, x: int, z: int): int {
    Max(Max(DistSq(Corner0(q), x, z), DistSq(Corner1(q, e), x, z)),
        Max(DistSq(Corner2(q, e), x, z), DistSq(Corner3(q, e), x, z)))
  }

  /** All four outer corners, half a structure up or down, are strictly within 128 blocks of
      (x, z). Everything is scaled by four to keep `ay * ay / 4` an integer. */
  predicate Centre(q: Quad, e: Extent, x: int, z: int) {
    4 * Farthest(q, e, x, z) + e.ay * e.ay < 4 * 128 * 128
  }

  /** What the quad test is for: some block is within reach of all four structures. */
  ghost predicate HasCentre(q: Quad, e: Extent) {
    exists x, z :: Centre(q, e, x, z)
  }

  // ----- the search for the best centre

  /** The reach of one position, as its four squared distances are compared one by one. */
  method FarthestCorner(q: Quad, e: Extent, x: int, z: int) returns (sq: int)
    ensures sq == Farthest(q, e, x, z)
  {
    hide Square;
    var (x0, z0) := Corner0(q);
    var (x1, z1) := Corner1(q, e);
    var (x2, z2) := Corner2(q, e);
    var (x3, z3) := Corner3(q, e);
    sq := 0;
    var s := Square(x - x0) + Square(z - z0);
    if s > sq { sq := s; }
    s := Square(x - x1) + Square(z - z1);
    if s > sq { sq := s; }
    s := Square(x - x2) + Square(z - z2);
    if s > sq { sq := s; }
    s := Square(x - x3) + Square(z - z3);
    if s > sq { sq := s; }
  }

  /** getEnclosingRadius: the smallest squared reach over the inner rectangle, if it is not
      empty. The source adds `ay * ay / 4` to it and takes the root. */
  method GetEnclosingRadius(q: Quad, e: Extent, gap: nat) returns (sqrad: int)
    requires Drawn(q) && e.ax <= 64 && e.az <= 64 && gap <= 128
    ensures forall x, z :: InInner(q, e, gap, x, z) ==> sqrad <= Farthest(q, e, x, z)
    ensures sqrad == 0x7fff_ffff || exists x, z :: InInner(q, e, gap, x, z) && sqrad == Farthest(q, e, x, z)
  {
    hide Square;
    hide Farthest;
    var (x0, z0) := Corner0(q);
    var (x1, z1) := Corner1(q, e);
    var (x2, z2) := Corner2(q, e);
    var (x3, z3) := Corner3(q, e);
    sqrad := 0x7fff_ffff;
    var cbx0, cbz0 := Max(x1, x2) - gap, Max(z1, z3) - gap;
    var cbx1, cbz1 := Min(x0, x3) + gap, Min(z0, z2) + gap;
    var z := cbz0;
    while z <= cbz1
      invariant cbz0 <= z
      invariant forall x', z' :: InInner(q, e, gap, x', z') && z' < z ==> sqrad <= Farthest(q, e, x', z')
      invariant sqrad == 0x7fff_ffff || exists x', z' :: InInner(q, e, gap, x', z') && sqrad == Farthest(q, e, x', z')
    {
      var x := cbx0;
      while x <= cbx1
        invariant cbx0 <= x
        invariant forall x', z' :: InInner(q, e, gap, x', z') && (z' < z || (z' == z && x' < x)) ==> sqrad <= Farthest(q, e, x', z')
        invariant sqrad == 0x7fff_ffff || exists x', z' :: InInner(q, e, gap, x', z') && sqrad == Farthest(q, e, x', z')
      {
        assert InInner(q, e, gap, x, z);
        var sq := FarthestCorner(q, e, x, z);
        if sq < sqrad {
          sqrad := sq;
        }
        x := x + 1;
      }
      z := z + 1;
    }
  }

  function Min(a: int, b: int): int {
    if a < b then a else b
  }

  /** The rectangle the search is restricted to. */
  predicate InInner(q: Quad, e: Extent, gap: nat, x: int, z: int) {
    && Max(Corner1(q, e).0, Corner2(q, e).0) - gap <= x <= Min(Corner0(q).0, Corner3(q, e).0) + gap
    && Max(Corner1(q, e).1, Corner3(q, e).1) - gap <= z <= Min(Corner0(q).1, Corner2(q, e).1) + gap
  }

  /** No centre lies outside of the inner rectangle. */
  lemma CentreIsInner(q: Quad, e: Extent, x: int, z: int)
    requires Centre(q, e, x, z)
    ensures InInner(q, e, 128, x, z)
  {
    Monotone(0, e.ay, e.ay);
    forall d | Square(d) < 128 * 128
      ensures -128 < d < 128
    {
      if d >= 128 {
        Monotone2(128, d, 128, d);
      } else if d <= -128 {
        Monotone2(128, -d, 128, -d);
      }
    }
  }

  // ----- the early exits

  /** What a set of attempts must pass before the search is made. */
  predicate PassesExits(q: Quad) {
    && q.p0.x >= 20 && q.p0.z >= 20 && q.p1.x <= q.p0.x - 20 && q.p1.z <= q.p0.z - 20
    && Square(q.p1.x + 32 - q.p0.x) + Square(q.p1.z + 32 - q.p0.z) <= 255
    && q.p2.x < 4 && q.p2.z >= 20 && q.p3.x >= 20 && q.p3.z < 4
    && Square(q.p2.x + 32 - q.p3.x) + Square(q.p3.z + 32 - q.p2.z) <= 255
  }

  /** The parallelogram law: two points within reach of one are not far from each other. */
  lemma Opposite(u: int, v: int)
    ensures Square(u + v) <= 2 * Square(u) + 2 * Square(v)
  {
    assert 2 * Square(u) + 2 * Square(v) - Square(u + v) == Square(u - v);
  }

  /** Opposite corners of four structures with a common centre. */
  lemma Diagonals(q: Quad, e: Extent, x: int, z: int)
    requires Centre(q, e, x, z)
    ensures 4 * Square(16 * (q.p1.x + 32 - q.p0.x) + e.ax) + 4 * Square(16 * (q.p1.z + 32 - q.p0.z) + e.az) + 4 * (e.ay * e.ay) < 16 * 128 * 128
    ensures 4 * Square(16 * (q.p2.x + 32 - q.p3.x) + e.ax) + 4 * Square(16 * (q.p3.z + 32 - q.p2.z) + e.az) + 4 * (e.ay * e.ay) < 16 * 128 * 128
  {
    hide Square;
    var c0, c1, c2, c3 := Corner0(q), Corner1(q, e), Corner2(q, e), Corner3(q, e);
    SqNegate(x - c1.0);
    SqNegate(z - c1.1);
    SqNegate(x - c2.0);
    SqNegate(z - c3.1);
    Opposite(x - c0.0, c1.0 - x);
    Opposite(z - c0.1, c1.1 - z);
    Opposite(x - c3.0, c2.0 - x);
    Opposite(z - c2.1, c3.1 - z);
  }

  lemma SqNegate(d: int)
    ensures Square(-d) == Square(d)
  {
  }

  /** Distances between attempts of adjacent regions, in chunks, that two huts within reach of
      one point can have. */
  lemma HutDistances(dx: int, dz: int)
    requires 9 <= dx && 9 <= dz
    requires 4 * Square(16 * dx + 8) + 4 * Square(16 * dz + 10) + 256 < 16 * 128 * 128
    ensures dx <= 12 && dz <= 12 && Square(dx) + Square(dz) <= 255
  {
    hide Square;
    ScaledSquare(dx, 8);
    ScaledSquare(dz, 10);
    SquareAtLeast(dx, if dx >= 13 then 13 else 9);
    SquareAtLeast(dz, if dz >= 13 then 13 else 9);
  }

  lemma ScaledSquare(d: int, k: int)
    ensures Square(16 * d + k) == 256 * Square(d) + 32 * (d * k) + k * k
  {
  }

  lemma SquareAtLeast(d: int, m: nat)
    requires m <= d
    ensures Square(d) >= m * m
  {
    Monotone2(m, d, m, d);
  }

  /** For huts the early exits lose nothing. */
  lemma HutExitsLossless(q: Quad)
    requires Drawn(q) && HasCentre(q, HUT)
    ensures PassesExits(q)
  {
    hide Square, Centre;
    var x, z :| Centre(q, HUT, x, z);
    Diagonals(q, HUT, x, z);
    HutDistances(q.p1.x + 32 - q.p0.x, q.p1.z + 32 - q.p0.z);
    HutDistances(q.p2.x + 32 - q.p3.x, q.p3.z + 32 - q.p2.z);
  }

  /** Every salt has a seed with the attempts that seed 2005390828 has for desert pyramids. */
  function LossySeed(salt: int): nat {
    U64(2019748445 - salt)
  }

  lemma LossyWord(salt: int, d: int)
    ensures U64(LossySeed(salt) + d + salt) == U64(2019748445 + d)
  {
    ModSum(U64(2019748445 - salt), 2019748445 - salt, d + salt, TWO64);
  }

  lemma LossyAttempts(salt: int)
    ensures QuadAt(salt, LossySeed(salt), 0, 0) == Quad(Chunk(23, 21), Chunk(0, 2), Chunk(2, 23), Chunk(23, 0))
    ensures salt == 14357617 ==> LossySeed(salt) == 2005390828
  {
    hide Attempt;
    LossyWord(salt, 0);
    LossyWord(salt, A + B);
    LossyWord(salt, A);
    LossyWord(salt, B);
    Pyramid00();
    Pyramid11();
    Pyramid10();
    Pyramid01();
  }

  /** For structures taken as points, as the same test is used for pyramids, igloos and villages,
      they lose a seed: the four attempts reach (440, 440), and fail the exit on z1. */
  lemma PointExitsLossy(salt: int)
    ensures HasCentre(QuadAt(salt, LossySeed(salt), 0, 0), POINT) && !PassesExits(QuadAt(salt, LossySeed(salt), 0, 0))
  {
    hide QuadAt;
    LossyAttempts(salt);
    var q := Quad(Chunk(23, 21), Chunk(0, 2), Chunk(2, 23), Chunk(23, 0));
    assert Square(72) == 5184 && Square(-72) == 5184 && Square(104) == 10816 && Square(-104) == 10816 && Square(40) == 1600
           && Square(-40) == 1600;
    assert Corner0(q) == (368, 336) && Corner1(q, POINT) == (512, 544) && Corner2(q, POINT) == (544, 368) && Corner3(q, POINT) == (368, 512);
    assert Centre(q, POINT, 440, 440);
  }

  /** Of the two extents that isQuadBase passes on, the early exits suit only that of the hut:
      for every salt they lose no seed exactly if the extent is the hut's. */
  lemma ExitsLosslessForHuts(salt: int, e: Extent)
    requires e == HUT || e == POINT
    ensures (forall seed: nat :: seed < TWO64 && HasCentre(QuadAt(salt, seed, 0, 0), e) ==> PassesExits(QuadAt(salt, seed, 0, 0)))
            <==> e == HUT
  {
    hide PassesExits, HasCentre, Drawn;
    PointExitsLossy(salt);
    if e == HUT {
      forall seed: nat | HasCentre(QuadAt(salt, seed, 0, 0), e)
        ensures PassesExits(QuadAt(salt, seed, 0, 0))
      {
        HutExitsLossless(QuadAt(salt, seed, 0, 0));
      }
    }
  }

  // ----- the test itself

  /** The macro draws of the test are the attempts of getFeatureChunkInRegion. */
  lemma DrawsAreAttempts(word: nat)
    ensures
      var (s1, x) := JavaNextInt24(XorK(word));
      var (s2, z) := JavaNextInt24(s1);
      Attempt(word, 24) == Chunk(x, z)
  {
    hide XorK;
    NotPowerOfTwo24();
  }

  lemma WordSum(seed: int, salt: int, d: int)
    ensures U64(d + U64(seed + salt)) == U64(seed + d + salt)
  {
  }

  /** The squared radius, scaled by four, that the source returns as a root; 0 stands for no. */
  function Radius(sqrad: int, e: Extent): int {
    var r := if sqrad < 0x7fff_ffff then 4 * sqrad + e.ay * e.ay else 4 * 0xffff * 0xffff;
    if r < 4 * 128 * 128 then r else 0
  }

  /** isQuadBaseFeature24: true exactly for the attempts that pass the early exits and have a
      common centre. */
  method IsQuadBaseFeature24(salt: int, seed0: nat, e: Extent) returns (found: bool)
    requires e.ax <= 64 && e.az <= 64
    ensures found <==> PassesExits(QuadAt(salt, seed0, 0, 0)) && HasCentre(QuadAt(salt, seed0, 0, 0), e)
  {
    hide JavaNextInt24, XorK, Attempt, U64, Square, HasCentre;
    ghost var q := QuadAt(salt, seed0, 0, 0);
    var seed := U64(seed0 + salt);
    var s00 := seed;
    var s11 := U64(A + B + seed);
    WordSum(seed0, salt, A + B);
    DrawsAreAttempts(s00);
    DrawsAreAttempts(s11);
    s00 := XorK(s00);
    var d := JavaNextInt24(s00);
    var x0 := d.1;
    assert x0 == q.p0.x;
    if x0 < 20 { return false; }
    d := JavaNextInt24(d.0);
    var z0 := d.1;
    assert z0 == q.p0.z;
    if z0 < 20 { return false; }
    s11 := XorK(s11);
    d := JavaNextInt24(s11);
    var x1 := d.1;
    assert x1 == q.p1.x;
    if x1 > x0 - 20 { return false; }
    d := JavaNextInt24(d.0);
    var z1 := d.1;
    assert z1 == q.p1.z;
    if z1 > z0 - 20 { return false; }
    var x, z := x1 + 32 - x0, z1 + 32 - z0;
    if Square(x) + Square(z) > 255 { return false; }
    var s01, s10 := U64(A + seed), U64(B + seed);
    WordSum(seed0, salt, A);
    WordSum(seed0, salt, B);
    DrawsAreAttempts(s01);
    DrawsAreAttempts(s10);
    s01 := XorK(s01);
    d := JavaNextInt24(s01);
    var x2 := d.1;
    assert x2 == q.p2.x;
    if x2 >= 4 { return false; }
    d := JavaNextInt24(d.0);
    var z2 := d.1;
    assert z2 == q.p2.z;
    if z2 < 20 { return false; }
    s10 := XorK(s10);
    d := JavaNextInt24(s10);
    var x3 := d.1;
    assert x3 == q.p3.x;
    if x3 < 20 { return false; }
    d := JavaNextInt24(d.0);
    var z3 := d.1;
    assert z3 == q.p3.z;
    if z3 >= 4 { return false; }
    x, z := x2 + 32 - x3, z3 + 32 - z2;
    if Square(x) + Square(z) > 255 { return false; }
    found := TestCentre(Quad(Chunk(x0, z0), Chunk(x1, z1), Chunk(x2, z2), Chunk(x3, z3)), e);
  }

  method TestCentre(q: Quad, e: Extent) returns (found: bool)
    requires Drawn(q) && e.ax <= 64 && e.az <= 64
    ensures found <==> HasCentre(q, e)
  {
    var sqrad := GetEnclosingRadius(q, e, 128);
    found := Radius(sqrad, e) != 0;
    CentreFromRadius(q, e, sqrad);
  }

  lemma CentreFromRadius(q: Quad, e: Extent, sqrad: int)
    requires Drawn(q)
    requires forall x, z :: InInner(q, e, 128, x, z) ==> sqrad <= Farthest(q, e, x, z)
    requires sqrad == 0x7fff_ffff || exists x, z :: InInner(q, e, 128, x, z) && sqrad == Farthest(q, e, x, z)
    ensures Radius(sqrad, e) != 0 <==> HasCentre(q, e)
  {
    Monotone(0, e.ay, e.ay);
    if Radius(sqrad, e) != 0 {
      var x, z :| InInner(q, e, 128, x, z) && sqrad == Farthest(q, e, x, z);
      assert Centre(q, e, x, z);
    }
    if HasCentre(q, e) {
      var x, z :| Centre(q, e, x, z);
      CentreIsInner(q, e, x, z);
      assert sqrad <= Farthest(q, e, x, z);
      if sqrad < 0x7fff_ffff {
        var x', z' :| InInner(q, e, 128, x', z') && sqrad == Farthest(q, e, x', z');
        FarthestPositive(q, e, x', z');
      }
    }
  }

  /** The corners do not coincide, so no reach is zero. */
  lemma FarthestPositive(q: Quad, e: Extent, x: int, z: int)
    requires Drawn(q)
    ensures Farthest(q, e, x, z) > 0
  {
    hide Square;
    var d0, d1 := x - Corner0(q).0, x - Corner1(q, e).0;
    assert d0 > d1;
    if d0 != 0 {
      SquarePositive(d0);
      assert DistSq(Corner0(q), x, z) > 0;
    } else {
      SquarePositive(d1);
      assert DistSq(Corner1(q, e), x, z) > 0;
    }
  }

  /** What the test decides: a seed is a quad base. */
  ghost predicate IsBase(salt: int, seed: int, e: Extent) {
    var q := QuadAt(salt, seed, 0, 0);
    PassesExits(q) && HasCentre(q, e)
  }

  /** For huts it decides exactly whether a common centre exists. */
  lemma HutTestIsExact(salt: int, seed: int)
    ensures IsBase(salt, seed, HUT) <==> HasCentre(QuadAt(salt, seed, 0, 0), HUT)
  {
    hide PassesExits;
    if HasCentre(QuadAt(salt, seed, 0, 0), HUT) {
      HutExitsLossless(QuadAt(salt, seed, 0, 0));
    }
  }

  /** Moving a seed moves the attempts. */
  lemma QuadMoved(salt: int, seed: int, i: int, j: int)
    ensures QuadAt(salt, MoveStructure(seed, -i, -j), 0, 0) == QuadAt(salt, seed, i, j)
  {
    hide MoveStructure;
    hide GetFeatureChunkInRegion;
    MovedAttempts(salt, 24, seed, i, j, 0, 0);
    MovedAttempts(salt, 24, seed, i, j, 1, 1);
    MovedAttempts(salt, 24, seed, i, j, 1, 0);
    MovedAttempts(salt, 24, seed, i, j, 0, 1);
  }
}
