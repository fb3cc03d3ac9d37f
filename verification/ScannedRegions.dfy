/** Which attempts a search looks at: search.c steps through regions as if each were 512 blocks
    wide, whatever the structure. */
module ScannedRegions {
  import opened Bits
  import opened JavaRandom
  import opened KnownAttempts
  import opened Points
  import opened Products
  import opened Remainders
  import opened SeedSearch
  import opened StructurePositions
  import opened Words
  import opened Wrappers

  /** Whatever the seed, every attempt inside the circle is looked at. */
  ghost predicate AllScanned(mc: int, kind: int, radius: nat) {
    forall w: World, seed: int, rx: int, rz: int, p: Pos ::
      FromSeed(w, mc, seed) && AttemptAt(w, kind, radius, rx, rz, p) ==> p in AllCandidates(w, kind, radius)
  }

  /** How close to an axis an attempt can be whose region is more than r regions away from it. */
  function Beyond(c: StructureConfig, r: nat): int {
    match c.spread
    case Fixed(offset) => 16 * (r + 1) - offset
    case _ => 16 * ((r + 1) * c.regionSize - c.chunkRange + 1)
  }

  /** How close to an axis an attempt can be at all. */
  function Aside(c: StructureConfig): nat {
    match c.spread
    case Fixed(offset) => if offset <= 8 then offset else if offset < 16 then 16 - offset else 0
    case _ => 0
  }

  /** The closest attempt that is not looked at would be inside the circle. */
  predicate Escapes(c: StructureConfig, radius: nat) {
    Square(Beyond(c, RegionMax(radius))) + Square(Aside(c)) <= radius * radius
  }

  // ----- what is inside the circle and not looked at is at least so far away

  lemma SquareFar(x: int, b: int)
    requires 0 <= b && (x <= -b || b <= x)
    ensures Square(x) >= Square(b)
  {
    if x >= 0 {
      Monotone2(b, x, b, x);
    } else {
      Monotone2(b, -x, b, -x);
      assert Square(x) == Square(-x);
    }
  }

  lemma FarReg(size: nat, range: nat, r: nat, reg: int, draw: int)
    requires 0 <= draw < range <= size
    ensures reg > r ==> (reg * size + draw) * 16 >= 16 * ((r + 1) * size - range + 1)
    ensures reg + r < 0 ==> (reg * size + draw) * 16 <= -(16 * ((r + 1) * size - range + 1))
  {
    if reg > r {
      Monotone(r + 1, reg, size);
    } else if reg + r < 0 {
      Monotone(r + 1, -reg, size);
      assert reg * size == -(-reg * size);
    }
  }

  /** One coordinate of an attempt, by the number of its region on that axis. */
  predicate Placed(c: StructureConfig, reg: int, x: int) {
    match c.spread
    case Fixed(offset) => x == reg * 16 + offset
    case _ => x % 16 == 0 && 0 <= x / 16 - reg * c.regionSize < c.chunkRange
  }

  /** A drawn coordinate. */
  lemma DrawPlaced(c: StructureConfig, reg: int, draw: int)
    requires !c.spread.Fixed? && 0 <= draw < c.chunkRange
    ensures Placed(c, reg, (reg * c.regionSize + draw) * 16)
  {
    var t := reg * c.regionSize + draw;
    assert t * 16 / 16 == t && t * 16 % 16 == 0;
  }

  lemma AttemptPlaced(kind: int, mc: int, seed: int, rx: int, rz: int)
    requires GetStructureConfig(kind, mc).Some?
    ensures
      var c := GetStructureConfig(kind, mc).value;
      c.chunkRange > 0 && var p := AttemptPos(c, seed, rx, rz); Placed(c, rx, p.x) && Placed(c, rz, p.z)
  {
    hide GetFeatureChunkInRegion, GetLargeStructureChunkInRegion, GetStructureConfig;
    var c := GetStructureConfig(kind, mc).value;
    ConfigFits(kind, mc);
    if c.spread.Single? {
      DrawsBelow(c, seed, rx, rz);
      var p := GetFeatureChunkInRegion(c.salt, c.chunkRange, seed, rx, rz);
      hide Placed;
      DrawPlaced(c, rx, p.x);
      DrawPlaced(c, rz, p.z);
    } else if c.spread.Mean? {
      DrawsBelow(c, seed, rx, rz);
      var p := GetLargeStructureChunkInRegion(c.salt, c.chunkRange, seed, rx, rz);
      hide Placed;
      DrawPlaced(c, rx, p.x);
      DrawPlaced(c, rz, p.z);
    }
  }

  lemma DrawsBelow(c: StructureConfig, seed: int, rx: int, rz: int)
    requires c.chunkRange > 0
    ensures var p := GetFeatureChunkInRegion(c.salt, c.chunkRange, seed, rx, rz); 0 <= p.x < c.chunkRange && 0 <= p.z < c.chunkRange
    ensures var p := GetLargeStructureChunkInRegion(c.salt, c.chunkRange, seed, rx, rz); 0 <= p.x < c.chunkRange && 0 <= p.z < c.chunkRange
  {
    hide Attempt, XorK, Next31;
    AttemptBelow(U64(seed + rx * A + rz * B + c.salt), c.chunkRange);
  }

  lemma AsideFar(c: StructureConfig, reg: int, x: int)
    requires Placed(c, reg, x) && (c.spread.Fixed? ==> c.spread.offset < 16)
    ensures Square(x) >= Square(Aside(c))
  {
    hide Square;
    SquareFar(x, Aside(c));
  }

  /** An attempt of a region that is not looked at, along the axis on which it is too far. */
  lemma FarAway(c: StructureConfig, r: nat, reg: int, x: int)
    requires Placed(c, reg, x) && 0 < c.chunkRange <= c.regionSize && (c.spread.Fixed? ==> c.spread.offset < 16)
    requires !(0 <= reg + r && reg <= r)
    ensures Square(x) >= Square(Beyond(c, r))
  {
    hide Square;
    Monotone(1, r + 1, c.regionSize);
    if !c.spread.Fixed? {
      FarReg(c.regionSize, c.chunkRange, r, reg, x / 16 - reg * c.regionSize);
    }
    SquareFar(x, Beyond(c, r));
  }

  lemma NoneEscapes(w: World, mc: int, seed: int, kind: int, radius: nat, rx: int, rz: int, p: Pos)
    requires FromSeed(w, mc, seed) && AttemptAt(w, kind, radius, rx, rz, p)
    ensures GetStructureConfig(kind, mc).Some?
    ensures !Escapes(GetStructureConfig(kind, mc).value, radius) ==> Scanned(radius, rx, rz)
  {
    hide AttemptPos, Happens, GetStructureConfig, Square, Beyond, Aside, Placed;
    assert Attempted(w, mc, seed, kind, rx, rz);
    var c := GetStructureConfig(kind, mc).value;
    ConfigFits(kind, mc);
    AttemptPlaced(kind, mc, seed, rx, rz);
    var r := RegionMax(radius);
    AsideFar(c, rx, p.x);
    AsideFar(c, rz, p.z);
    if !(0 <= rx + r && rx <= r) {
      FarAway(c, r, rx, p.x);
    }
    if !(0 <= rz + r && rz <= r) {
      FarAway(c, r, rz, p.z);
    }
    assert Square(p.x) + Square(p.z) <= radius * radius by { CircleSquares(p.x, p.z, radius); }
  }

  lemma CircleSquares(x: int, z: int, radius: nat)
    ensures InRadius(x, z, radius) <==> Square(x) + Square(z) <= radius * radius
  {
  }

  // ----- regions of 512 blocks and more

  lemma WideNeverEscapes(kind: int, mc: int, radius: nat)
    requires GetStructureConfig(kind, mc).Some? && GetStructureConfig(kind, mc).value.regionSize >= 32
    ensures !Escapes(GetStructureConfig(kind, mc).value, radius)
  {
    hide Square;
    var c := GetStructureConfig(kind, mc).value;
    var r := RegionMax(radius);
    WideFar(c, r);
    SquareFar(Beyond(c, r), radius + 1);
    assert Square(radius + 1) > radius * radius by { NextSquare(radius); }
  }

  lemma NextSquare(n: nat)
    ensures Square(n + 1) > n * n
  {
  }

  lemma WideFar(c: StructureConfig, r: nat)
    requires !c.spread.Fixed? && c.chunkRange <= c.regionSize && c.regionSize >= 32
    ensures Beyond(c, r) >= 512 * r + 16
  {
    assert (r + 1) * c.regionSize == r * c.regionSize + c.regionSize;
    Monotone(32, c.regionSize, r);
    assert r * c.regionSize == c.regionSize * r;
  }

  // ----- seeds whose closest attempt is not looked at

  /** A seed's attempt in the circle tells its region. */
  lemma RegionFixed(w: World, mc: int, seed: int, kind: int, radius: nat, rx: int, rz: int, p: Pos)
    requires FromSeed(w, mc, seed) && AttemptAt(w, kind, radius, rx, rz, p)
    ensures var r := RegionBlocks(kind, mc); p.x / r == rx && p.z / r == rz
  {
    hide FromSeed, RegionBlocks, InRadius;
    RegionOf(w, mc, seed, kind, radius, rx, rz);
    assert RegionCandidate(w, kind, radius, rx, rz) == [p];
  }

  /** An attempt inside the circle, in a region that is not looked at. */
  lemma NotLookedAt(w: World, mc: int, seed: int, kind: int, radius: nat, rx: int, rz: int, p: Pos)
    requires FromSeed(w, mc, seed) && AttemptAt(w, kind, radius, rx, rz, p) && !Scanned(radius, rx, rz)
    ensures p !in AllCandidates(w, kind, radius)
  {
    hide AllCandidates, FromSeed, AttemptAt, RegionBlocks, Scanned;
    RegionFixed(w, mc, seed, kind, radius, rx, rz, p);
    CandidatesAre(w, kind, radius, p);
    if x, z :| Scanned(radius, x, z) && AttemptAt(w, kind, radius, x, z, p) {
      RegionFixed(w, mc, seed, kind, radius, x, z, p);
    }
  }

  lemma Overlooked(mc: int, seed: int, kind: int, radius: nat, rx: int, rz: int, p: Pos)
    requires Offered(mc) && SureAttempt(mc, seed, kind, rx, rz) == Some(p)
    requires InRadius(p.x, p.z, radius) && !Scanned(radius, rx, rz)
    ensures FromSeed(SeedWorld(mc, seed), mc, seed) && AttemptAt(SeedWorld(mc, seed), kind, radius, rx, rz, p)
    ensures p !in AllCandidates(SeedWorld(mc, seed), kind, radius)
  {
    hide SureAttempt, InRadius, AllCandidates, FromSeed, Scanned;
    SeedWorldFromSeed(mc, seed);
    NotLookedAt(SeedWorld(mc, seed), mc, seed, kind, radius, rx, rz, p);
  }

  /** A word whose draws are the last chunk of the range on one axis and the first on the other. */
  function FarWord(range: nat): nat {
    Xor(if range == 12 then 269 else if range == 16 then 10467 else 83, MULTIPLIER)
  }

  lemma FarDraws(range: nat)
    requires range == 12 || range == 16 || range == 20
    ensures Attempt(FarWord(range), range) == Chunk(range - 1, 0)
  {
    hide Xor, Attempt, Step, PowerOfTwo;
    NotPowers();
    if range == 12 {
      XorCancel(269, MULTIPLIER);
      DrawExact(269, 6782809153684, 12, 11, 0, 4312393, 8340);
      DrawExact(6782809153684, 177700465071887, 12, 0, 607613092, 112978913, 55055);
      AttemptIs(FarWord(12), 269, 6782809153684, 177700465071887, 12);
    } else if range == 20 {
      XorCancel(83, MULTIPLIER);
      DrawExact(83, 2092837025122, 20, 19, 0, 798353, 46434);
      DrawExact(2092837025122, 188957343172293, 20, 0, 187479132, 72081506, 83653);
      AttemptIs(FarWord(20), 83, 2092837025122, 188957343172293, 20);
    } else {
      FarDraws16();
    }
  }

  /** A range of 16 takes the branch for powers of two. */
  lemma FarDraws16()
    ensures Attempt(FarWord(16), 16) == Chunk(15, 0)
  {
    hide Xor, Step;
    XorCancel(10467, MULTIPLIER);
    DrawExact(10467, 263924399299250, 1, 0, 0, 2013583368, 88754);
    DrawExact(263924399299250, 11474122017237, 1, 0, 23642699779, 87540603, 100821);
    Next31Low(10467);
    Next31Low(263924399299250);
  }

  lemma FarWordSmall(range: nat)
    ensures FarWord(range) < TWO64
  {
    hide Xor, Word;
    var m := if range == 12 then 269 else if range == 16 then 10467 else 83;
    Word64(m);
    Word64(MULTIPLIER);
    XorWord(m, MULTIPLIER, 64);
    Word64(FarWord(range));
  }

  /** The seed that puts the word of region (rx, rz) at `word`. */
  function SeedFor(word: nat, salt: int, rx: int, rz: int): int {
    word - salt - rx * A - rz * B
  }

  /** Ocean ruins, shipwrecks and ancient cities. */
  lemma NarrowOverlooked(mc: int, kind: int, radius: nat) returns (seed: int, rx: int, rz: int, p: Pos)
    requires Offered(mc) && GetStructureConfig(kind, mc).Some? && (kind == 6 || kind == 7 || kind == 13)
    requires Escapes(GetStructureConfig(kind, mc).value, radius)
    ensures FromSeed(SeedWorld(mc, seed), mc, seed) && AttemptAt(SeedWorld(mc, seed), kind, radius, rx, rz, p)
    ensures p !in AllCandidates(SeedWorld(mc, seed), kind, radius)
  {
    hide Attempt, FarWord, InRadius, Square, AllCandidates, FromSeed, AttemptAt;
    var c := GetStructureConfig(kind, mc).value;
    var r := RegionMax(radius);
    rx, rz := -(r + 1), 0;
    seed := SeedFor(FarWord(c.chunkRange), c.salt, rx, rz);
    FarDraws(c.chunkRange);
    FarWordSmall(c.chunkRange);
    p := Pos(-Beyond(c, r), 0);
    assert Square(-Beyond(c, r)) == Square(Beyond(c, r)) by { SquareNegated(Beyond(c, r)); }
    CircleSquares(p.x, p.z, radius);
    Overlooked(mc, seed, kind, radius, rx, rz, p);
  }

  lemma SquareNegated(x: int)
    ensures Square(-x) == Square(x)
  {
  }

  /** A word whose first state after mixing is followed by 0. */
  const ZERO_WORD: nat := Xor(107048004364969, MULTIPLIER)

  lemma ZeroWord()
    ensures ZERO_WORD < TWO64 && XorK(ZERO_WORD) == 107048004364969 && Step(XorK(ZERO_WORD)) == 0 && Step(0) == 11
  {
    hide Xor, Word;
    XorCancel(107048004364969, MULTIPLIER);
    ModUnique(9589503039, 0, TWO48);
    Word64(107048004364969);
    Word64(MULTIPLIER);
    XorWord(107048004364969, MULTIPLIER, 64);
    Word64(ZERO_WORD);
  }

  lemma TreasureThere()
    ensures TreasureDraw(ZERO_WORD)
  {
    hide XorK, Step, Xor;
    ZeroWord();
  }

  lemma NotScanned(radius: nat, rz: int)
    ensures !Scanned(radius, -(RegionMax(radius) + 1), rz)
  {
  }

  /** Buried treasures. */
  lemma TreasureOverlooked(mc: int, radius: nat) returns (seed: int, rx: int, rz: int, p: Pos)
    requires Offered(mc) && Escapes(GetStructureConfig(14, mc).value, radius)
    ensures FromSeed(SeedWorld(mc, seed), mc, seed) && AttemptAt(SeedWorld(mc, seed), 14, radius, rx, rz, p)
    ensures p !in AllCandidates(SeedWorld(mc, seed), 14, radius)
  {
    hide Xor, TreasureDraw, RegionMax, Scanned, InRadius, Square, AllCandidates, FromSeed, AttemptAt;
    var c := GetStructureConfig(14, mc).value;
    var r := RegionMax(radius);
    rx, rz := -(r + 1), -1;
    seed := SeedFor(ZERO_WORD, c.salt, rx, rz);
    ZeroWord();
    TreasureThere();
    p := Pos(rx * 16 + 9, -7);
    assert SureAttempt(mc, seed, 14, rx, rz) == Some(p);
    NotScanned(radius, rz);
    assert p.x == -Beyond(c, r) && Aside(c) == 7;
    SquareNegated(Beyond(c, r));
    SquareNegated(7);
    CircleSquares(p.x, p.z, radius);
    Overlooked(mc, seed, 14, radius, rx, rz, p);
  }

  /** As a seed, the word gives the multiplier 0 to the x axis, and so the same draw to every chunk
      with z = 0: all of them have a mineshaft. */
  lemma MineshaftsAll(rx: int)
    ensures MineshaftDraw(ZERO_WORD, rx, 0)
  {
    hide XorK, Step, Xor;
    ZeroWord();
    var s := XorK(ZERO_WORD);
    assert LongFrom(s) == 0;
    assert U64(rx * 0) == 0;
    var b := LongFrom(Step(Step(s)));
    assert U64(0 * b) == 0;
    XorZero(ZERO_WORD);
    ZeroXor(ZERO_WORD);
    assert RareDouble(ZERO_WORD);
  }

  lemma {:induction false} ZeroXor(a: nat)
    ensures Xor(0, a) == a
  {
    if a > 0 {
      ZeroXor(a / 2);
    }
  }

  /** Mineshafts. */
  lemma MineshaftOverlooked(mc: int, radius: nat) returns (seed: int, rx: int, rz: int, p: Pos)
    requires Offered(mc) && Escapes(GetStructureConfig(15, mc).value, radius)
    ensures FromSeed(SeedWorld(mc, seed), mc, seed) && AttemptAt(SeedWorld(mc, seed), 15, radius, rx, rz, p)
    ensures p !in AllCandidates(SeedWorld(mc, seed), 15, radius)
  {
    hide Xor, MineshaftDraw, RegionMax, Scanned, InRadius, Square, AllCandidates, FromSeed, AttemptAt;
    var c := GetStructureConfig(15, mc).value;
    var r := RegionMax(radius);
    seed, rx, rz := ZERO_WORD, -(r + 1), 0;
    ZeroWord();
    MineshaftsAll(rx);
    p := Pos(rx * 16, 0);
    assert SureAttempt(mc, seed, 15, rx, rz) == Some(p);
    NotScanned(radius, rz);
    assert p.x == -Beyond(c, r) && Aside(c) == 0;
    SquareNegated(Beyond(c, r));
    CircleSquares(p.x, p.z, radius);
    Overlooked(mc, seed, 15, radius, rx, rz, p);
  }

  // ----- when everything inside the circle is looked at

  lemma KindsOf(kind: int, mc: int)
    requires GetStructureConfig(kind, mc).Some?
    ensures GetStructureConfig(kind, mc).value.regionSize >= 32 || kind in {6, 7, 13, 14, 15}
  {
  }

  /** A seed with an attempt inside the circle that is not looked at, for each kind that can have one. */
  lemma SomeOverlooked(mc: int, kind: int, radius: nat) returns (seed: int, rx: int, rz: int, p: Pos)
    requires Offered(mc) && GetStructureConfig(kind, mc).Some? && Escapes(GetStructureConfig(kind, mc).value, radius)
    ensures FromSeed(SeedWorld(mc, seed), mc, seed) && AttemptAt(SeedWorld(mc, seed), kind, radius, rx, rz, p)
    ensures p !in AllCandidates(SeedWorld(mc, seed), kind, radius)
  {
    hide Escapes, FromSeed, AttemptAt, AllCandidates, Scanned, GetStructureConfig;
    KindsOf(kind, mc);
    if GetStructureConfig(kind, mc).value.regionSize >= 32 {
      WideNeverEscapes(kind, mc, radius);
    }
    if kind == 14 {
      seed, rx, rz, p := TreasureOverlooked(mc, radius);
    } else if kind == 15 {
      seed, rx, rz, p := MineshaftOverlooked(mc, radius);
    } else {
      seed, rx, rz, p := NarrowOverlooked(mc, kind, radius);
    }
  }

  /** For a structure and a radius: whatever the seed, every attempt inside the circle is looked at,
      exactly if the closest possible one that is not lies outside. */
  lemma ScanLimit(mc: int, kind: int, radius: nat)
    requires Offered(mc) && GetStructureConfig(kind, mc).Some?
    ensures AllScanned(mc, kind, radius) <==> !Escapes(GetStructureConfig(kind, mc).value, radius)
  {
    hide Escapes, FromSeed, AttemptAt, AllCandidates, Scanned, GetStructureConfig;
    if !Escapes(GetStructureConfig(kind, mc).value, radius) {
      forall w: World, seed: int, rx: int, rz: int, p: Pos | FromSeed(w, mc, seed) && AttemptAt(w, kind, radius, rx, rz, p)
        ensures p in AllCandidates(w, kind, radius)
      {
        NoneEscapes(w, mc, seed, kind, radius, rx, rz, p);
        CandidatesAre(w, kind, radius, p);
      }
    } else {
      var seed, rx, rz, p := SomeOverlooked(mc, kind, radius);
    }
  }

  /** Some attempt inside the circle can stand, looked at or not. */
  ghost predicate StandsInside(w: World, kind: int, radius: nat) {
    exists rx, rz, p :: AttemptAt(w, kind, radius, rx, rz, p) && Stands(w, kind, p)
  }

  /** The mask of a full scan says of the structure what is the case. */
  ghost predicate MaskRight(w: World, radius: nat, row: StructRow) {
    row.bit in StructMask(w, radius, CATALOGUE) <==> StandsInside(w, row.kind, radius)
  }

  /** For a structure of the catalogue and a radius: whatever the seed and whatever is viable, its bit
      means that one stands inside the circle, exactly under the same condition. */
  lemma MaskLimit(mc: int, row: StructRow, radius: nat)
    requires Offered(mc) && row in STRUCTS && GetStructureConfig(row.kind, mc).Some?
    ensures (forall w: World, seed: int :: FromSeed(w, mc, seed) ==> MaskRight(w, radius, row))
            <==> !Escapes(GetStructureConfig(row.kind, mc).value, radius)
  {
    hide Escapes, FromSeed, MaskRight, GetStructureConfig, AllCandidates, AttemptAt;
    if !Escapes(GetStructureConfig(row.kind, mc).value, radius) {
      forall w: World, seed: int | FromSeed(w, mc, seed)
        ensures MaskRight(w, radius, row)
      {
        MaskIsRight(w, mc, seed, radius, row);
      }
    } else {
      var seed, rx, rz, p := SomeOverlooked(mc, row.kind, radius);
      var w := StandsAt(SeedWorld(mc, seed), p);
      StillFromSeed(SeedWorld(mc, seed), w, mc, seed);
      MaskIsWrong(SeedWorld(mc, seed), radius, row, rx, rz, p);
      assert FromSeed(w, mc, seed) && !MaskRight(w, radius, row);
    }
  }

  lemma MaskIsRight(w: World, mc: int, seed: int, radius: nat, row: StructRow)
    requires FromSeed(w, mc, seed) && row in STRUCTS && GetStructureConfig(row.kind, mc).Some?
    requires !Escapes(GetStructureConfig(row.kind, mc).value, radius)
    ensures MaskRight(w, radius, row)
  {
    hide Escapes, FromSeed, GetStructureConfig, AttemptAt, Stands, StructMask;
    CatalogueUnambiguous();
    MaskHasStruct(w, radius, CATALOGUE, row);
    if StandsInside(w, row.kind, radius) {
      var rx, rz, p :| AttemptAt(w, row.kind, radius, rx, rz, p) && Stands(w, row.kind, p);
      NoneEscapes(w, mc, seed, row.kind, radius, rx, rz, p);
    }
  }

  lemma MaskIsWrong(w: World, radius: nat, row: StructRow, rx: int, rz: int, p: Pos)
    requires row in STRUCTS && AttemptAt(w, row.kind, radius, rx, rz, p) && p !in AllCandidates(w, row.kind, radius)
    ensures !MaskRight(StandsAt(w, p), radius, row)
  {
    hide AllCandidates, StructMask, Scanned, InRadius;
    var w' := StandsAt(w, p);
    CatalogueUnambiguous();
    MaskHasStruct(w', radius, CATALOGUE, row);
    assert AttemptAt(w', row.kind, radius, rx, rz, p) && Stands(w', row.kind, p);
    if StandsScanned(w', row.kind, radius) {
      var x, z, q :| Scanned(radius, x, z) && AttemptAt(w', row.kind, radius, x, z, q) && Stands(w', row.kind, q);
      assert q == p && AttemptAt(w, row.kind, radius, x, z, p);
      CandidatesAre(w, row.kind, radius, p);
    }
  }

  /** For a structure: so it is at every radius, exactly if its regions are at least 512 blocks wide. */
  lemma WideRegionsScanned(mc: int, kind: int)
    requires Offered(mc) && GetStructureConfig(kind, mc).Some?
    ensures (forall radius: nat :: AllScanned(mc, kind, radius)) <==> GetStructureConfig(kind, mc).value.regionSize >= 32
  {
    hide AllScanned, GetStructureConfig, Escapes;
    if GetStructureConfig(kind, mc).value.regionSize >= 32 {
      forall radius: nat
        ensures AllScanned(mc, kind, radius)
      {
        WideNeverEscapes(kind, mc, radius);
        ScanLimit(mc, kind, radius);
      }
    } else {
      KindsOf(kind, mc);
      NarrowEscapes(mc, kind);
      ScanLimit(mc, kind, 1024);
      assert !AllScanned(mc, kind, 1024);
    }
  }

  lemma NarrowEscapes(mc: int, kind: int)
    requires GetStructureConfig(kind, mc).Some? && kind in {6, 7, 13, 14, 15}
    ensures Escapes(GetStructureConfig(kind, mc).value, 1024)
  {
  }

  /** Where the ocean ruin of region (-3, 0) can be. */
  lemma RuinPlace(w: World, mc: int, seed: int) returns (p: Pos)
    requires FromSeed(w, mc, seed)
    ensures w.structurePos(6, -3, 0) == Some(p) && -960 <= p.x <= -784 && 0 <= p.z <= 176
  {
    hide Attempt;
    assert Attempted(w, mc, seed, 6, -3, 0);
    p := w.structurePos(6, -3, 0).value;
    AttemptBelow(U64(seed - 3 * A + 14357621), 12);
  }

  /** Of every seed: the ocean ruin attempt of region (-3, 0) is less than 1000 blocks away, and is not
      looked at from that radius. */
  lemma RuinsOverlooked(w: World, mc: int, seed: int)
    requires FromSeed(w, mc, seed)
    ensures exists p :: AttemptAt(w, 6, 1000, -3, 0, p) && p !in AllCandidates(w, 6, 1000)
  {
    hide AllCandidates, FromSeed, Square;
    var p := RuinPlace(w, mc, seed);
    SquareBound(p.x, 960);
    SquareBound(p.z, 176);
    CircleSquares(p.x, p.z, 1000);
    assert AttemptAt(w, 6, 1000, -3, 0, p);
    NotLookedAt(w, mc, seed, 6, 1000, -3, 0, p);
  }
}
