/** scanForQuadBits and scanForQuads of quadbase.c: which regions of an area hold a quad
    structure, given that the moved seeds of interest have one of a few low-bit patterns. */
module QuadScan {
  import opened Bits
  import opened Words
  import opened Products
  import opened Remainders
  import opened StructurePositions
  import opened ModularInverse
  import opened QuadBase

  /** Reducing to 48 or 64 bits first does not change the low n bits. */
  lemma LowN(x: int, n: nat)
    requires n <= 48
    ensures x % TWO48 % Pow2(n) == x % Pow2(n) && U64(x) % Pow2(n) == x % Pow2(n)
    ensures Pow2(n) <= TWO48
  {
    Pow2Word();
    Pow2Add(48 - n, n);
    ModMod(x, Pow2(n), Pow2(48 - n));
    Pow2Add(64 - n, n);
    Pow2Add(48, 16);
    ModMod(x, Pow2(n), Pow2(64 - n));
    Monotone(1, Pow2(48 - n), Pow2(n));
  }

  // ----- what is looked for

  /** The scan's fixed parameters: the structure, its salt, the seed and how many low bits count. */
  datatype Search = Search(e: Extent, salt: int, s48: int, bits: nat)

  /** The low bits of the moved seed match. */
  predicate Matches(q: Search, lbit: int, i: int, j: int) {
    MoveStructure(q.s48, -i, -j) % Pow2(q.bits) == lbit % Pow2(q.bits)
  }

  /** Region (i, j) is to be reported for a pattern. */
  ghost predicate Wanted(q: Search, lbit: int, i: int, j: int) {
    Matches(q, lbit, i, j) && IsBase(q.salt, MoveStructure(q.s48, -i, -j), q.e)
  }

  /** The wanted regions (i, j), (i, j + 1), ..., count of them. */
  ghost function Column(q: Search, lbit: int, i: int, j: int, count: nat): seq<(int, int)>
    decreases count
  {
    if count == 0 then [] else (if Wanted(q, lbit, i, j) then [(i, j)] else []) + Column(q, lbit, i, j + 1, count - 1)
  }

  function Span(h: int): nat {
    if h < 0 then 0 else h + 1
  }

  /** The wanted regions of an area, column by column. */
  ghost function Regions(q: Search, lbit: int, i: int, z: int, h: int, count: nat): seq<(int, int)>
    decreases count
  {
    if count == 0 then [] else Column(q, lbit, i, z, Span(h)) + Regions(q, lbit, i + 1, z, h, count - 1)
  }

  function Take<T>(s: seq<T>, n: int): seq<T> {
    if n <= 0 then [] else if |s| <= n then s else s[..n]
  }

  lemma {:induction false} ColumnExact(q: Search, lbit: int, i: int, j: int, count: nat, a: int, b: int)
    ensures (a, b) in Column(q, lbit, i, j, count) <==> a == i && j <= b < j + count && Wanted(q, lbit, a, b)
    decreases count
  {
    hide Wanted;
    if count > 0 {
      ColumnExact(q, lbit, i, j + 1, count - 1, a, b);
    }
  }

  /** The list holds the wanted regions of the area and no others. */
  lemma {:induction false} RegionsExact(q: Search, lbit: int, i: int, z: int, h: int, count: nat, a: int, b: int)
    ensures (a, b) in Regions(q, lbit, i, z, h, count) <==> i <= a < i + count && z <= b <= z + h && Wanted(q, lbit, a, b)
    decreases count
  {
    hide Wanted;
    if count > 0 {
      ColumnExact(q, lbit, i, z, Span(h), a, b);
      RegionsExact(q, lbit, i + 1, z, h, count - 1, a, b);
    }
  }

  predicate Distinct<T(==)>(s: seq<T>) {
    forall k, l :: 0 <= k < l < |s| ==> s[k] != s[l]
  }

  lemma {:induction false} ColumnDistinct(q: Search, lbit: int, i: int, j: int, count: nat)
    ensures Distinct(Column(q, lbit, i, j, count))
    decreases count
  {
    hide Wanted;
    if count > 0 {
      ColumnDistinct(q, lbit, i, j + 1, count - 1);
      ColumnExact(q, lbit, i, j + 1, count - 1, i, j);
    }
  }

  /** No region is listed twice. */
  lemma {:induction false} RegionsDistinct(q: Search, lbit: int, i: int, z: int, h: int, count: nat)
    ensures Distinct(Regions(q, lbit, i, z, h, count))
    decreases count
  {
    hide Wanted;
    if count > 0 {
      var first, rest := Column(q, lbit, i, z, Span(h)), Regions(q, lbit, i + 1, z, h, count - 1);
      ColumnDistinct(q, lbit, i, z, Span(h));
      RegionsDistinct(q, lbit, i + 1, z, h, count - 1);
      forall k, l | 0 <= k < |first| && 0 <= l < |rest|
        ensures first[k] != rest[l]
      {
        ColumnExact(q, lbit, i, z, Span(h), first[k].0, first[k].1);
        RegionsExact(q, lbit, i + 1, z, h, count - 1, rest[l].0, rest[l].1);
        assert first[k] in first && rest[l] in rest;
      }
    }
  }

  // ----- the stride

  /** In column i the matching j are exactly one residue class. */
  lemma Residue(q: Search, lbit: int, i: int, j: int, invB: int)
    requires q.bits <= 48 && Inverse(B, invB, Pow2(q.bits))
    ensures
      var m := Pow2(q.bits);
      Matches(q, lbit, i, j) <==> j % m == (lbit - (q.s48 + A * i)) * invB % m
  {
    var m := Pow2(q.bits);
    var moved := q.s48 - (-i) * A - (-j) * B;
    LowN(moved, q.bits);
    LowN(U64(moved), q.bits);
    var d := lbit - (q.s48 + A * i);
    assert moved == q.s48 + A * i + B * j;
    hide Pow2;
    if moved % m == lbit % m {
      var k := ModDifference(moved, lbit, m);
      SolveForward(B, invB, j, d, k, m);
    }
    if j % m == d * invB % m {
      SolveBackward(B, invB, j, d, m);
      ModSum(B * j, d, q.s48 + A * i, m);
    }
  }

  lemma SolveForward(b: int, inv: int, j: int, d: int, k: int, m: int)
    requires m > 0 && Inverse(b, inv, m) && b * j == d + k * m
    ensures j % m == d * inv % m
  {
    ModMulAdd(b * inv, 1, j, 0, m);
    assert b * inv * j == d * inv + (k * inv) * m by {
      assert b * inv * j == (b * j) * inv;
      assert (d + k * m) * inv == d * inv + (k * inv) * m;
    }
    ModEqual(b * inv * j, d * inv, k * inv, m);
  }

  lemma SolveBackward(b: int, inv: int, j: int, d: int, m: int)
    requires m > 0 && Inverse(b, inv, m) && j % m == d * inv % m
    ensures b * j % m == d % m
  {
    ModMulAdd(j, d * inv, b, 0, m);
    ModMulAdd(b * inv, 1, d, 0, m);
    assert d * inv * b == b * inv * d;
    assert j * b == b * j;
  }

  /** Between two neighbours of a residue class there is nothing to report. */
  lemma {:induction false} SkipGap(q: Search, lbit: int, i: int, j: int, gap: nat, count: nat)
    requires gap <= count && forall k :: j <= k < j + gap ==> !Matches(q, lbit, i, k)
    ensures Column(q, lbit, i, j, count) == Column(q, lbit, i, j + gap, count - gap)
    decreases gap
  {
    hide IsBase;
    hide Matches;
    if gap > 0 {
      SkipGap(q, lbit, i, j + 1, gap - 1, count - 1);
    }
  }

  /** The first candidate of a column in the wrapping arithmetic of the source. */
  function FirstCandidate(q: Search, lbit: nat, i: int, z: int, invB: nat): int {
    var m := Pow2(q.bits);
    var sx := U64(q.s48 + A * i);
    var j := z / m * m + U64(U64(lbit % m - sx) * invB) % m;
    if j < z then j + m else j
  }

  /** It is the first matching j from z on. */
  lemma FirstIsFirst(q: Search, lbit: nat, i: int, z: int, invB: nat)
    requires q.bits <= 48 && Inverse(B, invB, Pow2(q.bits))
    ensures
      var m := Pow2(q.bits);
      var j := FirstCandidate(q, lbit, i, z, invB);
      z <= j < z + m && j % m == (lbit - (q.s48 + A * i)) * invB % m
  {
    var m := Pow2(q.bits);
    var t := U64(U64(lbit % m - U64(q.s48 + A * i)) * invB) % m;
    WrappedResidue(q.bits, lbit, q.s48 + A * i, invB);
    hide Pow2;
    hide U64;
    RoundUp(z, t, m);
  }

  lemma RoundUp(z: int, t: int, m: int)
    requires 0 <= t < m
    ensures
      var j := z / m * m + t;
      var j' := if j < z then j + m else j;
      z <= j' < z + m && j' % m == t
  {
    ModUnique(z / m, t, m);
    ModUnique(z / m + 1, t, m);
    assert (z / m + 1) * m + t == z / m * m + t + m;
  }

  lemma WrappedResidue(bits: nat, lbit: nat, sx: int, invB: nat)
    requires bits <= 48
    ensures
      var m := Pow2(bits);
      U64(U64(lbit % m - U64(sx)) * invB) % m == (lbit - sx) * invB % m
  {
    var m := Pow2(bits);
    var d := lbit % m - U64(sx);
    LowN(d, bits);
    LowN(U64(d) * invB, bits);
    LowN(sx, bits);
    hide Pow2;
    hide U64;
    ModMulAdd(U64(d), d, invB, 0, m);
    SameDifference(lbit, U64(sx), sx, m);
    ModMulAdd(d, lbit - sx, invB, 0, m);
  }

  lemma SameDifference(l: int, u: int, v: int, m: int)
    requires m > 0 && u % m == v % m
    ensures (l % m - u) % m == (l - v) % m
  {
    var k := ModDifference(u, v, m);
    assert l % m - u == (l - v) + (-(l / m) - k) * m;
    ModEqual(l % m - u, l - v, -(l / m) - k, m);
  }

  /** The whole list, from what has been found and what is still ahead. */
  ghost predicate Ahead(q: Search, lbit: int, full: seq<(int, int)>, found: seq<(int, int)>, i: int, j: int, z: int, h: int, columns: nat) {
    && j <= z + Span(h)
    && full == found + (Column(q, lbit, i, j, z + Span(h) - j) + Regions(q, lbit, i + 1, z, h, columns))
  }

  function Least(a: int, b: int): int {
    if a < b then a else b
  }

  /** From one candidate to the next. */
  lemma CandidateStep(q: Search, lbit: int, full: seq<(int, int)>, found: seq<(int, int)>, i: int, j: int, z: int, h: int, columns: nat, m: int)
    requires z <= j < z + Span(h) && m > 0 && Ahead(q, lbit, full, found, i, j, z, h, columns)
    requires forall k :: j < k < j + m ==> !Matches(q, lbit, i, k)
    ensures
      var found' := if Wanted(q, lbit, i, j) then found + [(i, j)] else found;
      && Ahead(q, lbit, full, found', i, Least(j + m, z + Span(h)), z, h, columns)
      && |found'| <= |full| && full[..|found'|] == found'
  {
    hide Wanted;
    var gap := Least(m - 1, z + Span(h) - j - 1);
    SkipGap(q, lbit, i, j + 1, gap, z + Span(h) - j - 1);
    var rest := Column(q, lbit, i, j + 1, z + Span(h) - j - 1) + Regions(q, lbit, i + 1, z, h, columns);
    if Wanted(q, lbit, i, j) {
      assert full == found + [(i, j)] + rest;
    } else {
      assert full == found + rest;
    }
  }

  lemma ColumnStart(q: Search, lbit: int, full: seq<(int, int)>, found: seq<(int, int)>, i: int, j: int, z: int, h: int, columns: nat)
    requires columns > 0 && full == found + Regions(q, lbit, i, z, h, columns)
    requires z <= j && forall k :: z <= k < j ==> !Matches(q, lbit, i, k)
    ensures Ahead(q, lbit, full, found, i, Least(j, z + Span(h)), z, h, columns - 1)
  {
    hide Wanted;
    SkipGap(q, lbit, i, z, Least(j, z + Span(h)) - z, Span(h));
  }

  predicate Scannable(q: Search) {
    0 < q.bits <= 48 && (q.e == HUT || q.e == POINT)
  }

  /** `j` is a candidate of column i, and everything before it is in the list. */
  ghost predicate Scanned(q: Search, lbit: nat, invB: nat, full: seq<(int, int)>, found: seq<(int, int)>, i: int, j: int,
                          z: int, h: int, columns: nat) {
    && z <= j && j % Pow2(q.bits) == (lbit - (q.s48 + A * i)) * invB % Pow2(q.bits)
    && Ahead(q, lbit, full, found, i, Least(j, z + Span(h)), z, h, columns)
  }

  lemma ScanStart(q: Search, lbit: nat, invB: nat, full: seq<(int, int)>, found: seq<(int, int)>, i: int, z: int, h: int, columns: nat)
    requires Scannable(q) && Inverse(B, invB, Pow2(q.bits))
    requires columns > 0 && full == found + Regions(q, lbit, i, z, h, columns)
    ensures Scanned(q, lbit, invB, full, found, i, FirstCandidate(q, lbit, i, z, invB), z, h, columns - 1)
    ensures z <= FirstCandidate(q, lbit, i, z, invB)
  {
    hide Matches, Regions, Inverse, FirstCandidate, Ahead, Pow2;
    var j := FirstCandidate(q, lbit, i, z, invB);
    FirstIsFirst(q, lbit, i, z, invB);
    NoMatches(q, lbit, i, j - Pow2(q.bits), j, invB, z);
    ColumnStart(q, lbit, full, found, i, j, z, h, columns);
  }

  lemma ScanNext(q: Search, lbit: nat, invB: nat, full: seq<(int, int)>, found: seq<(int, int)>, i: int, j: int,
                 z: int, h: int, columns: nat)
    requires Scannable(q) && Inverse(B, invB, Pow2(q.bits))
    requires Scanned(q, lbit, invB, full, found, i, j, z, h, columns) && j <= z + h
    ensures var found' := if Wanted(q, lbit, i, j) then found + [(i, j)] else found;
            && Scanned(q, lbit, invB, full, found', i, j + Pow2(q.bits), z, h, columns)
            && |found'| <= |full| && full[..|found'|] == found'
  {
    hide Wanted, Matches, Inverse, Ahead, Pow2;
    NextCandidate(j, Pow2(q.bits));
    NoMatches(q, lbit, i, j, j + Pow2(q.bits), invB, j);
    CandidateStep(q, lbit, full, found, i, j, z, h, columns, Pow2(q.bits));
  }

  lemma ScanEnd(q: Search, lbit: nat, invB: nat, full: seq<(int, int)>, found: seq<(int, int)>, i: int, j: int,
                z: int, h: int, columns: nat)
    requires Scanned(q, lbit, invB, full, found, i, j, z, h, columns) && j > z + h
    ensures full == found + Regions(q, lbit, i + 1, z, h, columns)
  {
    hide Regions, Pow2;
  }

  /** The inner loop of scanForQuadBits: one column, from its first candidate on. */
  method ScanColumn(q: Search, lbit: nat, invB: nat, i: int, z: int, h: int, n: int, found: seq<(int, int)>,
                    ghost full: seq<(int, int)>, ghost columns: nat) returns (qplist: seq<(int, int)>)
    requires Scannable(q) && Inverse(B, invB, Pow2(q.bits)) && |found| < n
    requires columns > 0 && full == found + Regions(q, lbit, i, z, h, columns)
    ensures |qplist| >= n ==> qplist == Take(full, n)
    ensures |qplist| < n ==> full == qplist + Regions(q, lbit, i + 1, z, h, columns - 1)
  {
    hide Wanted, Regions, Inverse, MoveStructure, FirstCandidate, Scanned, Pow2;
    qplist := found;
    var m := Pow2(q.bits);
    var j := FirstCandidate(q, lbit, i, z, invB);
    ScanStart(q, lbit, invB, full, found, i, z, h, columns);
    while j <= z + h
      invariant |qplist| < n && Scanned(q, lbit, invB, full, qplist, i, j, z, h, columns - 1)
      decreases z + h - j
    {
      ScanNext(q, lbit, invB, full, qplist, i, j, z, h, columns - 1);
      var sp := MoveStructure(q.s48, -i, -j);
      WantedIs(q, lbit, i, j);
      if sp % m == lbit % m {
        var base := IsQuadBase(q, sp);
        if base {
          qplist := qplist + [(i, j)];
          if |qplist| >= n {
            return;
          }
        }
      }
      j := j + m;
    }
    ScanEnd(q, lbit, invB, full, qplist, i, j, z, h, columns - 1);
  }

  lemma NextCandidate(j: int, m: int)
    requires m > 0
    ensures (j + m) % m == j % m
  {
    ModUnique(j / m + 1, j % m, m);
    assert (j / m + 1) * m + j % m == j + m;
  }

  /** scanForQuadBits: the first n wanted regions of the area, in order. */
  method ScanForQuadBits(q: Search, lbit: nat, invB: nat, x: int, z: int, w: int, h: int, n: int)
    returns (qplist: seq<(int, int)>)
    requires Scannable(q) && Inverse(B, invB, Pow2(q.bits))
    ensures qplist == Take(Regions(q, lbit, x, z, h, Span(w)), n)
  {
    hide Regions;
    hide Inverse;
    qplist := [];
    if n < 1 {
      return;
    }
    ghost var full := Regions(q, lbit, x, z, h, Span(w));
    var i := x;
    while i <= x + w
      invariant i <= x + Span(w)
      invariant |qplist| < n
      invariant full == qplist + Regions(q, lbit, i, z, h, x + Span(w) - i)
      decreases x + w - i
    {
      qplist := ScanColumn(q, lbit, invB, i, z, h, n, qplist, full, x + Span(w) - i);
      if |qplist| >= n {
        return;
      }
      i := i + 1;
    }
    NoRegions(q, lbit, i, z, h);
  }

  lemma NoRegions(q: Search, lbit: int, i: int, z: int, h: int)
    ensures Regions(q, lbit, i, z, h, 0) == []
  {
  }

  lemma WantedIs(q: Search, lbit: int, i: int, j: int)
    ensures
      var sp := MoveStructure(q.s48, -i, -j);
      Wanted(q, lbit, i, j) <==> sp % Pow2(q.bits) == lbit % Pow2(q.bits) && IsBase(q.salt, sp, q.e)
  {
  }

  /** Strictly between two members of the residue class, and from `from` on, nothing matches. */
  lemma NoMatches(q: Search, lbit: int, i: int, j: int, j': int, invB: int, from: int)
    requires q.bits <= 48 && Inverse(B, invB, Pow2(q.bits))
    requires j' == j + Pow2(q.bits) && j' % Pow2(q.bits) == (lbit - (q.s48 + A * i)) * invB % Pow2(q.bits)
    requires j <= from
    ensures forall k :: from <= k < j' && k != j ==> !Matches(q, lbit, i, k)
  {
    hide Pow2;
    forall k | from <= k < j' && k != j
      ensures !Matches(q, lbit, i, k)
    {
      Residue(q, lbit, i, k, invB);
      NotBetween(k, j', Pow2(q.bits));
    }
  }

  /** isQuadBase at radius 128. */
  method IsQuadBase(q: Search, seed: nat) returns (base: bool)
    requires q.e == HUT || q.e == POINT
    ensures base <==> IsBase(q.salt, seed, q.e)
  {
    base := IsQuadBaseFeature24(q.salt, seed, q.e);
  }

  // ----- all patterns

  /** The patterns up to the terminating zero. */
  function Patterns(lowBits: seq<nat>): seq<nat> {
    if lowBits == [] || lowBits[0] == 0 then [] else [lowBits[0]] + Patterns(lowBits[1..])
  }

  ghost function AllRegions(q: Search, patterns: seq<nat>, salt: int, x: int, z: int, w: int, h: int): seq<(int, int)> {
    if patterns == [] then []
    else Regions(q, U64(patterns[0] - salt), x, z, h, Span(w)) + AllRegions(q, patterns[1..], salt, x, z, w, h)
  }

  const INVERSE20 := 132477
  const INVERSE48 := 211541297333629

  /** B is odd, so it has an inverse modulo every power of two that the scan can ask for. */
  lemma BInvertible(bits: nat)
    requires bits <= 48
    ensures Inverse(B, INVERSE48, Pow2(bits))
    ensures bits == 20 ==> Inverse(B, INVERSE20, Pow2(bits))
  {
    hide Pow2;
    Pow2Word();
    ModUnique(99878905848, 1, TWO48);
    LowN(B * INVERSE48, bits);
    LowN(1, bits);
    ModUnique(16790320106, 1, 0x10_0000);
  }

  lemma Pow2AboveOne(n: nat)
    requires n > 0
    ensures Pow2(n) > 1
  {
  }

  method InverseOfB(bits: nat) returns (invB: nat)
    requires 0 < bits <= 48
    ensures Inverse(B, invB, Pow2(bits))
  {
    hide Pow2, Inverse;
    BInvertible(bits);
    LowN(0, bits);
    Pow2AboveOne(bits);
    if bits == 20 {
      invB := INVERSE20;
    } else if bits == 48 {
      invB := INVERSE48;
    } else {
      invB := MulInv(B, Pow2(bits));
    }
  }

  lemma {:induction false} TakeTail(lowBits: seq<nat>, i: nat)
    requires i <= |lowBits| && forall k :: 0 <= k < i ==> lowBits[k] != 0
    ensures |Patterns(lowBits)| >= i && Patterns(lowBits)[i..] == Patterns(lowBits[i..])
  {
    if i > 0 {
      TakeTail(lowBits[1..], i - 1);
      assert lowBits[1..][i - 1..] == lowBits[i..];
      assert Patterns(lowBits)[i..] == Patterns(lowBits[1..])[i - 1..];
    } else {
      assert lowBits[0..] == lowBits;
    }
  }

  /** scanForQuads reports the first n of all wanted regions, pattern by pattern. */
  method ScanForQuads(q: Search, lowBits: seq<nat>, salt: int, x: int, z: int, w: int, h: int, n: int)
    returns (qplist: seq<(int, int)>)
    requires Scannable(q)
    ensures qplist == Take(AllRegions(q, Patterns(lowBits), salt, x, z, w, h), n)
  {
    hide Regions;
    hide Inverse;
    hide Pow2;
    hide U64;
    var invB := InverseOfB(q.bits);
    qplist := [];
    ghost var all := AllRegions(q, Patterns(lowBits), salt, x, z, w, h);
    assert lowBits[0..] == lowBits;
    var i := 0;
    while i < |lowBits| && lowBits[i] != 0
      invariant 0 <= i <= |lowBits| && (i > 0 ==> |qplist| < n)
      invariant n <= 0 ==> qplist == []
      invariant all == qplist + AllRegions(q, Patterns(lowBits[i..]), salt, x, z, w, h)
    {
      var found := ScanForQuadBits(q, U64(lowBits[i] - salt), invB, x, z, w, h, n - |qplist|);
      assert lowBits[i..][0] == lowBits[i] && lowBits[i..][1..] == lowBits[i + 1..];
      assert Patterns(lowBits[i..])[1..] == Patterns(lowBits[i + 1..]);
      TakeMore(all, qplist, Regions(q, U64(lowBits[i] - salt), x, z, h, Span(w)),
               AllRegions(q, Patterns(lowBits[i + 1..]), salt, x, z, w, h), n);
      qplist := qplist + found;
      if |qplist| >= n {
        break;
      }
      i := i + 1;
    }
  }

  lemma TakeMore<T>(all: seq<T>, found: seq<T>, next: seq<T>, rest: seq<T>, n: int)
    requires all == found + (next + rest) && (|found| < n || found == [])
    ensures
      var found' := found + Take(next, n - |found|);
      if |found'| >= n then found' == Take(all, n) else all == found' + rest
  {
  }

  /** With room for everything, a region is reported exactly if it lies in the area, its moved
      seed has one of the patterns, and it is a quad base. */
  lemma {:induction false} ReportedExactly(q: Search, patterns: seq<nat>, salt: int, x: int, z: int, w: int, h: int, a: int, b: int)
    ensures (a, b) in AllRegions(q, patterns, salt, x, z, w, h) <==>
      x <= a <= x + w && z <= b <= z + h
      && (exists k :: 0 <= k < |patterns| && Matches(q, U64(patterns[k] - salt), a, b))
      && IsBase(q.salt, MoveStructure(q.s48, -a, -b), q.e)
  {
    hide Matches;
    hide IsBase;
    hide U64;
    hide MoveStructure;
    hide Regions;
    if patterns != [] {
      ReportedExactly(q, patterns[1..], salt, x, z, w, h, a, b);
      RegionsExact(q, U64(patterns[0] - salt), x, z, h, Span(w), a, b);
      if exists k :: 0 <= k < |patterns| && Matches(q, U64(patterns[k] - salt), a, b) {
        var k :| 0 <= k < |patterns| && Matches(q, U64(patterns[k] - salt), a, b);
        assert k > 0 ==> Matches(q, U64(patterns[1..][k - 1] - salt), a, b);
      }
      if exists k :: 0 <= k < |patterns| - 1 && Matches(q, U64(patterns[1..][k] - salt), a, b) {
        var k :| 0 <= k < |patterns| - 1 && Matches(q, U64(patterns[1..][k] - salt), a, b);
        assert Matches(q, U64(patterns[k + 1] - salt), a, b);
      }
    }
  }

  /** Patterns that differ in their low bits never report a region twice. */
  lemma {:induction false} ReportedOnce(q: Search, patterns: seq<nat>, salt: int, x: int, z: int, w: int, h: int)
    requires forall k, l :: 0 <= k < l < |patterns| ==>
      U64(patterns[k] - salt) % Pow2(q.bits) != U64(patterns[l] - salt) % Pow2(q.bits)
    ensures Distinct(AllRegions(q, patterns, salt, x, z, w, h))
  {
    hide IsBase;
    hide U64;
    hide MoveStructure;
    hide Regions;
    if patterns != [] {
      var lbit := U64(patterns[0] - salt);
      var first, rest := Regions(q, lbit, x, z, h, Span(w)), AllRegions(q, patterns[1..], salt, x, z, w, h);
      RegionsDistinct(q, lbit, x, z, h, Span(w));
      ReportedOnce(q, patterns[1..], salt, x, z, w, h);
      forall k, l | 0 <= k < |first| && 0 <= l < |rest|
        ensures first[k] != rest[l]
      {
        assert first[k] in first && rest[l] in rest;
        RegionsExact(q, lbit, x, z, h, Span(w), first[k].0, first[k].1);
        ReportedExactly(q, patterns[1..], salt, x, z, w, h, rest[l].0, rest[l].1);
      }
    }
  }

  /** Quad-hut scans in terms of the world seed alone: a reported region is one whose four
      huts, where the unmoved seed generates them, are all in reach of one block, and whose
      moved seed has one of the patterns. */
  lemma HutScanMeaning(q: Search, patterns: seq<nat>, salt: int, x: int, z: int, w: int, h: int, a: int, b: int)
    requires q.e == HUT
    ensures (a, b) in AllRegions(q, patterns, salt, x, z, w, h) <==>
      x <= a <= x + w && z <= b <= z + h
      && (exists k :: 0 <= k < |patterns| && Matches(q, U64(patterns[k] - salt), a, b))
      && HasCentre(QuadAt(q.salt, q.s48, a, b), HUT)
  {
    hide AllRegions;
    hide Matches;
    hide IsBase;
    hide QuadAt;
    hide HasCentre;
    ReportedExactly(q, patterns, salt, x, z, w, h, a, b);
    HutTestIsExact(q.salt, MoveStructure(q.s48, -a, -b));
    QuadMoved(q.salt, q.s48, a, b);
  }
}
