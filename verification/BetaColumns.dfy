/** genBiomeNoiseBetaScaled of biomenoise.c: the area is swept along its diagonals, and the
    expensive column noises are kept in a ring of 2 * minDim + 1 slots. Column (a, b) of the
    swept grid, on diagonal a + b, lives in slot ((a + b) * minDim + a) mod bufLen. */
module BetaColumns {
  import opened Products
  import opened Remainders

  // ----- the ring

  function RingLength(n: nat): nat {
    2 * n + 1
  }

  function Ring(n: nat, t: nat): (slot: nat)
    ensures slot < RingLength(n)
  {
    t % RingLength(n)
  }

  /** The slot of column a of diagonal d. */
  function Slot(n: nat, d: nat, a: nat): (slot: nat)
    ensures slot < RingLength(n)
  {
    Ring(n, Area(n, d) + a)
  }

  lemma RingAdd(n: nat, t: nat, k: nat)
    ensures (Ring(n, t) + k) % RingLength(n) == Ring(n, t + k)
  {
    var m := RingLength(n);
    ModAdd(t, k, m);
  }

  /** Positions less than a ring apart have different slots. */
  lemma RingDistinct(n: nat, t: nat, u: nat)
    requires 0 < u - t < RingLength(n)
    ensures Ring(n, t) != Ring(n, u)
  {
    var m := RingLength(n);
    var k := u - t;
    var r := t % m;
    ModAdd(t, k, m);
    if r + k < m {
      ModUnique(0, r + k, m);
    } else {
      ModUnique(1, r + k - m, m);
    }
  }

  lemma RingWrap(n: nat, t: nat)
    ensures Ring(n, t + RingLength(n)) == Ring(n, t)
  {
    var m := RingLength(n);
    assert t + m == (t / m + 1) * m + t % m;
    ModUnique(t / m + 1, t % m, m);
  }

  // ----- the swept grid: w by h cells, (w + 1) by (h + 1) columns

  datatype Sweep = Sweep(w: nat, h: nat, n: nat) {
    predicate Valid() {
      n > 0 && n <= w && n <= h && (n == w || n == h)
    }

    predicate Cell(d: nat, a: nat) {
      a < w && 0 <= d - a < h
    }

    predicate Column(d: nat, a: nat) {
      a <= w && 0 <= d - a <= h
    }

    predicate Inner(d: nat, a: nat) {
      1 <= a <= w && 1 <= d - a <= h
    }

    /** The cell of diagonal d that comes first. */
    function First(d: nat): nat {
      if d < h then 0 else d - (h - 1)
    }

    /** One past the cell that comes last. */
    function Last(d: nat): nat {
      if d < w then d + 1 else w
    }
  }

  /** Two different columns of one diagonal do not share a slot. */
  lemma SameDiagonal(g: Sweep, d: nat, a: nat, a': nat)
    requires g.Valid() && g.Column(d, a) && g.Column(d, a') && a != a'
    ensures Slot(g.n, d, a) != Slot(g.n, d, a')
  {
    hide Area;
    hide Ring;
    if a < a' {
      RingDistinct(g.n, Area(g.n, d) + a, Area(g.n, d) + a');
    } else {
      RingDistinct(g.n, Area(g.n, d) + a', Area(g.n, d) + a);
    }
  }

  /** Nor do a column and one of the next diagonal, if the first starts a cell or the second
      has a cell above and to the left. */
  lemma NextDiagonal(g: Sweep, d: nat, a: nat, a': nat)
    requires g.Valid() && g.Column(d, a) && g.Column(d + 1, a')
    requires g.Cell(d, a) || g.Inner(d + 1, a')
    ensures Slot(g.n, d, a) != Slot(g.n, d + 1, a')
  {
    hide Area;
    hide Ring;
    AreaNext(g.n, d);
    RingDistinct(g.n, Area(g.n, d) + a, Area(g.n, d + 1) + a');
  }

  /** Nor do a column and an earlier one of the diagonal after the next. */
  lemma SecondDiagonal(g: Sweep, d: nat, a: nat, a': nat)
    requires g.Valid() && g.Column(d, a) && g.Column(d + 2, a') && a' <= a
    ensures Slot(g.n, d, a) != Slot(g.n, d + 2, a')
  {
    hide Area;
    hide Ring;
    AreaNext(g.n, d);
    AreaNext(g.n, d + 1);
    RingDistinct(g.n, Area(g.n, d) + a, Area(g.n, d + 2) + a');
  }

  /** From the slot of a cell to those of its other three corners. */
  lemma Corners(n: nat, d: nat, a: nat)
    ensures (Slot(n, d, a) + n + 1) % RingLength(n) == Slot(n, d + 1, a + 1)
    ensures (Slot(n, d, a) + n) % RingLength(n) == Slot(n, d + 1, a)
    ensures Slot(n, d, a) == Slot(n, d + 2, a + 1)
    ensures (Slot(n, d, a) + 1) % RingLength(n) == Slot(n, d, a + 1)
  {
    hide Area;
    hide Ring;
    var t := Area(n, d) + a;
    AreaNext(n, d);
    AreaNext(n, d + 1);
    RingAdd(n, t, n + 1);
    RingAdd(n, t, n);
    RingAdd(n, t, 1);
    RingWrap(n, t);
  }

  /** The step of `idx` between two diagonals. */
  lemma NextStripe(g: Sweep, d: nat)
    requires g.Valid() && d + 2 <= g.w + g.h
    ensures
      var max := if g.w > g.h then g.w else g.h;
      var idx := Slot(g.n, d, g.Last(d));
      Slot(g.n, d + 1, g.First(d + 1))
      == (if d + 1 < g.n then (idx + (g.n - d - 1)) % RingLength(g.n)
          else if d + 1 > max then (idx + (d - max + 2)) % RingLength(g.n)
          else if g.First(d + 1) > 0 then (idx + 1) % RingLength(g.n)
          else idx)
  {
    hide Area;
    hide Ring;
    var max := if g.w > g.h then g.w else g.h;
    var t := Area(g.n, d) + g.Last(d);
    AreaNext(g.n, d);
    if d + 1 < g.n {
      RingAdd(g.n, t, g.n - d - 1);
    } else if d + 1 > max {
      RingAdd(g.n, t, d - max + 2);
    } else if g.First(d + 1) > 0 {
      RingAdd(g.n, t, 1);
    }
  }

  // ----- what the sweep keeps in the ring

  /** A column noise for every column of the world. */
  type Noise<T> = (int, int) -> T

  /** The slot of column a of the e-th diagonal after d holds that column's noise. */
  ghost predicate Keeps<T>(noise: Noise<T>, cx: int, cz: int, n: nat, buf: seq<T>, d: nat, e: nat, a: nat) {
    |buf| == RingLength(n) && buf[Slot(n, d + e, a)] == noise(cx + a, cz + d + e - a)
  }

  /** The columns that are still needed while the sweep stands at cell a of diagonal d:
      the rest of this diagonal, the next one, and what has been made of the one after. */
  ghost predicate Live<T>(noise: Noise<T>, cx: int, cz: int, g: Sweep, buf: seq<T>, d: nat, a: nat) {
    && |buf| == RingLength(g.n)
    && (d > 0 ==> forall k: nat :: a <= k && g.Cell(d, k) ==> Keeps(noise, cx, cz, g.n, buf, d, 0, k))
    && (forall k: nat :: g.Column(d + 1, k) && (1 <= k || 0 < a) && (k <= d || d < a) ==>
          Keeps(noise, cx, cz, g.n, buf, d, 1, k))
    && (forall k: nat :: g.Inner(d + 2, k) && k <= a ==> Keeps(noise, cx, cz, g.n, buf, d, 2, k))
  }

  /** At the end of a diagonal the next one can start. */
  lemma StripeDone<T>(noise: Noise<T>, cx: int, cz: int, g: Sweep, buf: seq<T>, d: nat)
    requires g.Valid() && d + 2 <= g.w + g.h
    requires Live(noise, cx, cz, g, buf, d, g.Last(d))
    ensures Live(noise, cx, cz, g, buf, d + 1, g.First(d + 1))
  {
    hide Slot;
    var d' := d + 1;
    forall k: nat | g.First(d') <= k && g.Cell(d', k)
      ensures Keeps(noise, cx, cz, g.n, buf, d', 0, k)
    {
      assert Keeps(noise, cx, cz, g.n, buf, d, 1, k);
    }
    forall k: nat | g.Column(d' + 1, k) && (1 <= k || 0 < g.First(d')) && (k <= d' || d' < g.First(d'))
      ensures Keeps(noise, cx, cz, g.n, buf, d', 1, k)
    {
      assert Keeps(noise, cx, cz, g.n, buf, d, 2, k);
    }
  }

  /** Storing a column noise keeps every column that lives in another slot. */
  lemma StoreKeeps<T>(noise: Noise<T>, cx: int, cz: int, n: nat, buf: seq<T>, slot: nat, v: T, d: nat, e: nat, a: nat)
    requires Keeps(noise, cx, cz, n, buf, d, e, a) && slot < |buf| && slot != Slot(n, d + e, a)
    ensures Keeps(noise, cx, cz, n, buf[slot := v], d, e, a)
  {
  }

  /** The column to the right of a cell in the top row is new; it goes where nothing lives. */
  lemma StoreRight<T>(noise: Noise<T>, cx: int, cz: int, g: Sweep, buf: seq<T>, a: nat)
    requires g.Valid() && g.Cell(a, a)
    requires Live(noise, cx, cz, g, buf, a, a)
    ensures
      var buf' := buf[Slot(g.n, a + 1, a + 1) := noise(cx + a + 1, cz)];
      && Live(noise, cx, cz, g, buf', a, a)
      && Keeps(noise, cx, cz, g.n, buf', a, 1, a + 1)
      && Slot(g.n, a, a) != Slot(g.n, a + 1, a + 1)
  {
    hide Slot;
    var slot, v := Slot(g.n, a + 1, a + 1), noise(cx + a + 1, cz);
    var buf' := buf[slot := v];
    NextDiagonal(g, a, a, a + 1);
    forall k: nat | a <= k && g.Cell(a, k) && a > 0
      ensures Keeps(noise, cx, cz, g.n, buf', a, 0, k)
    {
      NextDiagonal(g, a, k, a + 1);
      StoreKeeps(noise, cx, cz, g.n, buf, slot, v, a, 0, k);
    }
    forall k: nat | g.Column(a + 1, k) && (1 <= k || 0 < a) && k <= a
      ensures Keeps(noise, cx, cz, g.n, buf', a, 1, k)
    {
      SameDiagonal(g, a + 1, k, a + 1);
      StoreKeeps(noise, cx, cz, g.n, buf, slot, v, a, 1, k);
    }
    forall k: nat | g.Inner(a + 2, k) && k <= a
      ensures Keeps(noise, cx, cz, g.n, buf', a, 2, k)
    {
      NextDiagonal(g, a + 1, a + 1, k);
      StoreKeeps(noise, cx, cz, g.n, buf, slot, v, a, 2, k);
    }
  }

  /** So is the column below a cell in the left column. */
  lemma StoreBelow<T>(noise: Noise<T>, cx: int, cz: int, g: Sweep, buf: seq<T>, d: nat)
    requires g.Valid() && g.Cell(d, 0)
    requires Live(noise, cx, cz, g, buf, d, 0)
    ensures
      var buf' := buf[Slot(g.n, d + 1, 0) := noise(cx, cz + d + 1)];
      && Live(noise, cx, cz, g, buf', d, 0)
      && Keeps(noise, cx, cz, g.n, buf', d, 1, 0)
      && Slot(g.n, d, 0) != Slot(g.n, d + 1, 0)
      && Slot(g.n, d + 1, 1) != Slot(g.n, d + 1, 0)
  {
    hide Slot;
    var slot, v := Slot(g.n, d + 1, 0), noise(cx, cz + d + 1);
    var buf' := buf[slot := v];
    NextDiagonal(g, d, 0, 0);
    SameDiagonal(g, d + 1, 0, 1);
    forall k: nat | g.Cell(d, k) && d > 0
      ensures Keeps(noise, cx, cz, g.n, buf', d, 0, k)
    {
      NextDiagonal(g, d, k, 0);
      StoreKeeps(noise, cx, cz, g.n, buf, slot, v, d, 0, k);
    }
    forall k: nat | g.Column(d + 1, k) && 1 <= k && k <= d
      ensures Keeps(noise, cx, cz, g.n, buf', d, 1, k)
    {
      SameDiagonal(g, d + 1, k, 0);
      StoreKeeps(noise, cx, cz, g.n, buf, slot, v, d, 1, k);
    }
  }

  /** The column below and to the right replaces the cell's own, which nobody needs again. */
  lemma StoreOpposite<T>(noise: Noise<T>, cx: int, cz: int, g: Sweep, buf: seq<T>, d: nat, a: nat)
    requires g.Valid() && g.Cell(d, a)
    requires Live(noise, cx, cz, g, buf, d, a)
    requires Keeps(noise, cx, cz, g.n, buf, d, 1, a) && Keeps(noise, cx, cz, g.n, buf, d, 1, a + 1)
    ensures Live(noise, cx, cz, g, buf[Slot(g.n, d, a) := noise(cx + a + 1, cz + d - a + 1)], d, a + 1)
  {
    hide Slot;
    var slot, v := Slot(g.n, d, a), noise(cx + a + 1, cz + d - a + 1);
    var buf' := buf[slot := v];
    Corners(g.n, d, a);
    forall k: nat | a + 1 <= k && g.Cell(d, k) && d > 0
      ensures Keeps(noise, cx, cz, g.n, buf', d, 0, k)
    {
      SameDiagonal(g, d, a, k);
      StoreKeeps(noise, cx, cz, g.n, buf, slot, v, d, 0, k);
    }
    forall k: nat | g.Column(d + 1, k) && (k <= d || d < a + 1)
      ensures Keeps(noise, cx, cz, g.n, buf', d, 1, k)
    {
      NextDiagonal(g, d, a, k);
      assert Keeps(noise, cx, cz, g.n, buf, d, 1, k);
      StoreKeeps(noise, cx, cz, g.n, buf, slot, v, d, 1, k);
    }
    forall k: nat | g.Inner(d + 2, k) && k <= a
      ensures Keeps(noise, cx, cz, g.n, buf', d, 2, k)
    {
      SecondDiagonal(g, d, a, k);
      StoreKeeps(noise, cx, cz, g.n, buf, slot, v, d, 2, k);
    }
    assert Keeps(noise, cx, cz, g.n, buf', d, 2, a + 1);
  }

  // ----- the generator

  /** A 2D range at scale 1:scale, as in `Range` of biomenoise.h. */
  datatype Range = Range(scale: nat, x: int, z: int, sx: nat, sz: nat) {
    /** `4 >> cellwidth`: output cells along a side of a swept cell. */
    function Steps(): nat
      ensures Steps() > 0
    {
      if scale / 2 == 0 then 4 else 2
    }

    /** The swept cells: r.x >> (2 >> cellwidth) is a division by Steps(). */
    function CellX1(): int { x / Steps() }
    function CellZ1(): int { z / Steps() }
    function CellX2(): int { CellX1() + sx / Steps() + 1 }
    function CellZ2(): int { CellZ1() + sz / Steps() + 1 }

    function Grid(): (g: Sweep)
      ensures g.Valid()
    {
      var w, h := sx / Steps() + 1, sz / Steps() + 1;
      Sweep(w, h, if w > h then h else w)
    }

    /** Output cell (i, j) lies in a swept cell. */
    predicate Covers(i: nat, j: nat) {
      (x + i) / Steps() < CellX2() && (z + j) / Steps() < CellZ2()
    }
  }

  /** The biome at an output cell, computed from the column noises at the four corners of
      the swept cell around it and from the climate at the cell. */
  type Shade<!T> = (T, T, T, T, int, int) -> int

  /** The value of an output cell when every column noise is generated on the spot. */
  function Direct<T>(noise: Noise<T>, shade: Shade<T>, steps: nat, x: int, z: int): int
    requires steps > 0
  {
    var cx, cz := x / steps, z / steps;
    shade(noise(cx, cz), noise(cx + 1, cz), noise(cx, cz + 1), noise(cx + 1, cz + 1), x, z)
  }

  /** The swept cell of output cell (i, j) comes before cell a of diagonal d. */
  predicate Passed(r: Range, d: nat, a: nat, i: nat, j: nat) {
    var ci, cj := (r.x + i) / r.Steps() - r.CellX1(), (r.z + j) / r.Steps() - r.CellZ1();
    r.Covers(i, j) && (ci + cj < d || (ci + cj == d && ci < a))
  }

  /** Every output cell that has been passed has its value, the others are as they were. */
  ghost predicate Painted<T>(noise: Noise<T>, shade: Shade<T>, r: Range, before: seq<int>, after: seq<int>, d: nat, a: nat) {
    && |before| == |after| >= Area(r.sx, r.sz)
    && forall i: nat, j: nat :: i < r.sx && j < r.sz ==>
         Index(r.sx, i, j) < |after|
         && after[Index(r.sx, i, j)]
            == if Passed(r, d, a, i, j) then Direct(noise, shade, r.Steps(), r.x + i, r.z + j)
               else before[Index(r.sx, i, j)]
  }

  /** The swept cell of an output cell, relative to the first one. */
  lemma CellOf(r: Range, i: nat, j: nat)
    ensures
      var ci, cj := (r.x + i) / r.Steps() - r.CellX1(), (r.z + j) / r.Steps() - r.CellZ1();
      0 <= ci && 0 <= cj && (r.Covers(i, j) <==> ci < r.Grid().w && cj < r.Grid().h)
  {
  }

  /** Nothing has been passed at the start, everything that is covered has at the end, and
      nothing is passed between two diagonals. */
  lemma StripePassed(r: Range, d: nat, i: nat, j: nat)
    ensures !Passed(r, 0, 0, i, j)
    ensures var g := r.Grid(); d + 1 >= g.w + g.h - 1 ==> (Passed(r, d, g.Last(d), i, j) <==> r.Covers(i, j))
    ensures Passed(r, d, r.Grid().Last(d), i, j) <==> Passed(r, d + 1, r.Grid().First(d + 1), i, j)
  {
    CellOf(r, i, j);
  }

  lemma PassedReached(r: Range, d: nat, a: nat, i: nat, j: nat)
    requires r.Grid().Cell(d, a)
    ensures
      var x0, z0 := (r.CellX1() + a) * r.Steps(), (r.CellZ1() + d - a) * r.Steps();
      Passed(r, d, a + 1, i, j) && !Passed(r, d, a, i, j) <==> Reached(x0, z0, r.Steps(), r.Steps(), 0, r.x + i, r.z + j)
  {
    hide Passed, Range.Steps, Range.CellX1, Range.CellZ1;
    PassedAt(r, d, a, i, j);
    InCell(r.x + i, r.CellX1() + a, r.Steps());
    InCell(r.z + j, r.CellZ1() + d - a, r.Steps());
  }

  /** A cell of the range is passed with its swept cell. */
  lemma PassedAt(r: Range, d: nat, a: nat, i: nat, j: nat)
    requires r.Grid().Cell(d, a)
    ensures Passed(r, d, a + 1, i, j) && !Passed(r, d, a, i, j)
            <==> (r.x + i) / r.Steps() == r.CellX1() + a && (r.z + j) / r.Steps() == r.CellZ1() + d - a
  {
    CellOf(r, i, j);
    hide Range.Steps;
  }

  lemma InCell(x: int, c: int, steps: nat)
    requires steps > 0
    ensures x / steps == c <==> c * steps <= x < c * steps + steps
  {
    if c * steps <= x < c * steps + steps {
      ModUnique(c, x - c * steps, steps);
    }
  }

  lemma IndexInGrid(w: nat, h: nat, i: nat, j: nat)
    requires i < w && j < h
    ensures Index(w, i, j) < Area(w, h)
  {
    InGrid(w, h, i, j);
  }

  lemma DirectAt<T>(noise: Noise<T>, shade: Shade<T>, steps: nat, cx: int, cz: int, i: nat, j: nat)
    requires i < steps && j < steps
    ensures Direct(noise, shade, steps, cx * steps + i, cz * steps + j)
            == shade(noise(cx, cz), noise(cx + 1, cz), noise(cx, cz + 1), noise(cx + 1, cz + 1), cx * steps + i, cz * steps + j)
  {
    ModUnique(cx, i, steps);
    ModUnique(cz, j, steps);
  }

  /** The output after the first j rows, and i cells of row j, of the square at (x0, z0) have been painted. */
  ghost predicate SquarePainted<T>(noise: Noise<T>, shade: Shade<T>, r: Range, before: seq<int>, after: seq<int>,
                                   x0: int, z0: int, j: nat, i: nat) {
    && |after| == |before|
    && forall i': nat, j': nat :: i' < r.sx && j' < r.sz ==>
         Index(r.sx, i', j') < |after|
         && after[Index(r.sx, i', j')]
            == if Reached(x0, z0, r.Steps(), j, i, r.x + i', r.z + j')
               then Direct(noise, shade, r.Steps(), r.x + i', r.z + j') else before[Index(r.sx, i', j')]
  }

  /** One more cell of the square: written if it is inside the range, skipped if not. */
  lemma CellPainted<T>(noise: Noise<T>, shade: Shade<T>, r: Range, before: seq<int>, now: seq<int>, after: seq<int>,
                       x0: int, z0: int, j: nat, i: nat)
    requires SquarePainted(noise, shade, r, before, now, x0, z0, j, i) && |after| == |now|
    requires i < r.Steps() && j < r.Steps()
    requires r.x <= x0 + i < r.x + r.sx && r.z <= z0 + j < r.z + r.sz ==>
      var k := Index(r.sx, x0 + i - r.x, z0 + j - r.z);
      && k < |after| && after[k] == Direct(noise, shade, r.Steps(), x0 + i, z0 + j)
      && forall q :: 0 <= q < |now| && q != k ==> after[q] == now[q]
    requires !(r.x <= x0 + i < r.x + r.sx && r.z <= z0 + j < r.z + r.sz) ==> after == now
    ensures SquarePainted(noise, shade, r, before, after, x0, z0, j, i + 1)
  {
    hide Index, Direct;
    if r.x <= x0 + i < r.x + r.sx && r.z <= z0 + j < r.z + r.sz {
      forall i': nat, j': nat | i' < r.sx && j' < r.sz && Index(r.sx, i', j') == Index(r.sx, x0 + i - r.x, z0 + j - r.z)
        ensures i' == x0 + i - r.x && j' == z0 + j - r.z
      {
        IndexInjective(r.sx, i', j', x0 + i - r.x, z0 + j - r.z);
      }
    }
  }

  lemma RowPainted<T>(noise: Noise<T>, shade: Shade<T>, r: Range, before: seq<int>, after: seq<int>, x0: int, z0: int, j: nat)
    requires SquarePainted(noise, shade, r, before, after, x0, z0, j, r.Steps())
    ensures SquarePainted(noise, shade, r, before, after, x0, z0, j + 1, 0)
  {
    hide Index, Direct;
  }

  lemma NonePainted<T>(noise: Noise<T>, shade: Shade<T>, r: Range, before: seq<int>, x0: int, z0: int)
    requires Area(r.sx, r.sz) <= |before|
    ensures SquarePainted(noise, shade, r, before, before, x0, z0, 0, 0)
  {
    hide Index, Direct, Area;
    forall i: nat, j: nat | i < r.sx && j < r.sz
      ensures Index(r.sx, i, j) < |before|
    {
      IndexInGrid(r.sx, r.sz, i, j);
    }
  }

  /** The loops over the output cells of one swept cell. */
  method PaintCell<T>(noise: Noise<T>, shade: Shade<T>, out: array<int>, r: Range, d: nat, a: nat,
                      c00: T, c10: T, c01: T, c11: T)
    requires r.Grid().Cell(d, a) && Area(r.sx, r.sz) <= out.Length
    requires
      var cx, cz := r.CellX1() + a, r.CellZ1() + d - a;
      c00 == noise(cx, cz) && c10 == noise(cx + 1, cz) && c01 == noise(cx, cz + 1) && c11 == noise(cx + 1, cz + 1)
    modifies out
    ensures forall i: nat, j: nat :: i < r.sx && j < r.sz ==>
      Index(r.sx, i, j) < out.Length
      && out[Index(r.sx, i, j)]
         == if Passed(r, d, a + 1, i, j) && !Passed(r, d, a, i, j) then Direct(noise, shade, r.Steps(), r.x + i, r.z + j)
            else old(out[Index(r.sx, i, j)])
  {
    hide Index, Direct, Passed, Area, SquarePainted, Reached;
    var steps, cx, cz := r.Steps(), r.CellX1() + a, r.CellZ1() + d - a;
    var x0, z0 := cx * steps, cz * steps;
    ghost var before := out[..];
    NonePainted(noise, shade, r, before, x0, z0);
    var j := 0;
    while j < steps
      invariant j <= steps
      invariant SquarePainted(noise, shade, r, before, out[..], x0, z0, j, 0)
    {
      var z := z0 + j;
      var i := 0;
      while i < steps
        invariant i <= steps
        invariant SquarePainted(noise, shade, r, before, out[..], x0, z0, j, i)
      {
        var x := x0 + i;
        ghost var now := out[..];
        if r.z <= z < r.z + r.sz && r.x <= x < r.x + r.sx {
          DirectAt(noise, shade, steps, cx, cz, i, j);
          IndexInGrid(r.sx, r.sz, x - r.x, z - r.z);
          out[Index(r.sx, x - r.x, z - r.z)] := shade(c00, c10, c01, c11, x, z);
        }
        CellPainted(noise, shade, r, before, now, out[..], x0, z0, j, i);
        i := i + 1;
      }
      RowPainted(noise, shade, r, before, out[..], x0, z0, j);
      j := j + 1;
    }
    CellDone(noise, shade, r, before, out[..], d, a, x0, z0);
  }

  lemma CellDone<T>(noise: Noise<T>, shade: Shade<T>, r: Range, before: seq<int>, after: seq<int>, d: nat, a: nat, x0: int, z0: int)
    requires r.Grid().Cell(d, a) && x0 == (r.CellX1() + a) * r.Steps() && z0 == (r.CellZ1() + d - a) * r.Steps()
    requires SquarePainted(noise, shade, r, before, after, x0, z0, r.Steps(), 0)
    ensures |after| == |before| && forall i: nat, j: nat :: i < r.sx && j < r.sz ==>
      Index(r.sx, i, j) < |after|
      && after[Index(r.sx, i, j)]
         == if Passed(r, d, a + 1, i, j) && !Passed(r, d, a, i, j) then Direct(noise, shade, r.Steps(), r.x + i, r.z + j)
            else before[Index(r.sx, i, j)]
  {
    hide Index, Direct, Passed, Reached;
    forall i: nat, j: nat | i < r.sx && j < r.sz
      ensures Index(r.sx, i, j) < |after|
      ensures after[Index(r.sx, i, j)]
         == if Passed(r, d, a + 1, i, j) && !Passed(r, d, a, i, j) then Direct(noise, shade, r.Steps(), r.x + i, r.z + j)
            else before[Index(r.sx, i, j)]
    {
      PassedReached(r, d, a, i, j);
    }
  }

  /** (x, z) is one of the first j rows, or of the first i cells of row j, of the square of
      side `steps` at (x0, z0). */
  predicate Reached(x0: int, z0: int, steps: nat, j: nat, i: nat, x: int, z: int) {
    x0 <= x < x0 + steps && z0 <= z && (z < z0 + j || (z == z0 + j && x < x0 + i))
  }

  /** Four corners of one cell, generated where the sweep meets them first and read from the
      ring everywhere else; the cell's own slot is then reused for the opposite corner. */
  method CellColumns<T>(noise: Noise<T>, buf: array<T>, ghost g: Sweep, cx1: int, cz1: int, ghost d: nat, ghost a: nat,
                        stripe: nat, minDim: nat, idx: nat, cx: int, cz: int)
    returns (c00: T, c10: T, c01: T, c11: T)
    requires g.Valid() && g.Cell(d, a) && minDim == g.n && stripe == d
    requires buf.Length == RingLength(minDim) && idx == Slot(minDim, d, a)
    requires cx == cx1 + a && cz == cz1 + d - a
    requires Live(noise, cx1, cz1, g, buf[..], d, a)
    modifies buf
    ensures Live(noise, cx1, cz1, g, buf[..], d, a + 1)
    ensures c00 == noise(cx, cz) && c10 == noise(cx + 1, cz) && c01 == noise(cx, cz + 1) && c11 == noise(cx + 1, cz + 1)
  {
    hide Slot;
    Corners(minDim, d, a);
    var bufLen := minDim * 2 + 1;
    if stripe == 0 {
      buf[idx] := noise(cx, cz);
      assert Live(noise, cx1, cz1, g, buf[..], d, a);
    }
    assert d > 0 ==> Keeps(noise, cx1, cz1, g.n, buf[..], d, 0, a);
    c00 := buf[idx];
    var right := (idx + minDim + 1) % bufLen;
    if cz == cz1 {
      StoreRight(noise, cx1, cz1, g, buf[..], a);
      ghost var next := buf[..][right := noise(cx + 1, cz)];
      buf[right] := noise(cx + 1, cz);
      assert buf[..] == next;
    }
    assert Keeps(noise, cx1, cz1, g.n, buf[..], d, 1, a + 1);
    c10 := buf[right];
    var below := (idx + minDim) % bufLen;
    if cx == cx1 {
      StoreBelow(noise, cx1, cz1, g, buf[..], d);
      ghost var next := buf[..][below := noise(cx, cz + 1)];
      buf[below] := noise(cx, cz + 1);
      assert buf[..] == next;
    }
    assert Keeps(noise, cx1, cz1, g.n, buf[..], d, 1, a);
    c01 := buf[below];
    StoreOpposite(noise, cx1, cz1, g, buf[..], d, a);
    ghost var next := buf[..][idx := noise(cx + 1, cz + 1)];
    buf[idx] := noise(cx + 1, cz + 1);
    assert buf[..] == next;
    c11 := buf[idx];
  }

  /** One diagonal of the sweep, from its lower left to its upper right end. */
  method SweepStripe<T>(noise: Noise<T>, shade: Shade<T>, out: array<int>, buf: array<T>, r: Range, ghost before: seq<int>,
                        stripe: nat, minDim: nat, idx0: nat, xStart: int, zStart: int) returns (idx: nat)
    requires buf as object != out as object
    requires minDim == r.Grid().n && buf.Length == RingLength(minDim) && Area(r.sx, r.sz) <= out.Length
    requires stripe < r.Grid().w + r.Grid().h - 1
    requires xStart == r.CellX1() + r.Grid().First(stripe) && zStart == r.CellZ1() + stripe - r.Grid().First(stripe)
    requires idx0 == Slot(minDim, stripe, r.Grid().First(stripe))
    requires Live(noise, r.CellX1(), r.CellZ1(), r.Grid(), buf[..], stripe, r.Grid().First(stripe))
    requires Painted(noise, shade, r, before, out[..], stripe, r.Grid().First(stripe))
    modifies out, buf
    ensures idx == Slot(minDim, stripe, r.Grid().Last(stripe))
    ensures Live(noise, r.CellX1(), r.CellZ1(), r.Grid(), buf[..], stripe, r.Grid().Last(stripe))
    ensures Painted(noise, shade, r, before, out[..], stripe, r.Grid().Last(stripe))
  {
    hide Slot;
    hide Index;
    hide Direct;
    hide Passed;
    hide Area;
    hide Live;
    hide Painted;
    var cx1, cz1, cx2 := r.CellX1(), r.CellZ1(), r.CellX2();
    ghost var g := r.Grid();
    var bufLen := minDim * 2 + 1;
    idx := idx0;
    var cx, cz := xStart, zStart;
    while cx < cx2 && cz >= cz1
      invariant 0 <= cx - cx1 && g.First(stripe) <= cx - cx1 <= g.Last(stripe) && cz == cz1 + stripe - (cx - cx1)
      invariant idx == Slot(minDim, stripe, cx - cx1)
      invariant Live(noise, cx1, cz1, g, buf[..], stripe, cx - cx1)
      invariant Painted(noise, shade, r, before, out[..], stripe, cx - cx1)
    {
      ghost var a, mid := cx - cx1, out[..];
      var c00, c10, c01, c11 := CellColumns(noise, buf, g, cx1, cz1, stripe, a, stripe, minDim, idx, cx, cz);
      PaintCell(noise, shade, out, r, stripe, cx - cx1, c00, c10, c01, c11);
      PaintStep(noise, shade, r, before, mid, out[..], stripe, a);
      Corners(minDim, stripe, a);
      cx, cz := cx + 1, cz - 1;
      idx := (idx + 1) % bufLen;
    }
  }

  /** The slot that the next diagonal starts with. */
  method NextIndex(ghost g: Sweep, stripe: nat, minDim: nat, maxDim: nat, bufLen: nat, xOffset: int, idx0: nat) returns (idx: nat)
    requires g.Valid() && minDim == g.n && maxDim == (if g.w > g.h then g.w else g.h) && bufLen == RingLength(minDim)
    requires xOffset == g.First(stripe + 1) && idx0 == Slot(minDim, stripe, g.Last(stripe))
    ensures stripe + 2 <= g.w + g.h ==> idx == Slot(minDim, stripe + 1, g.First(stripe + 1))
  {
    hide Slot;
    if stripe + 2 <= g.w + g.h {
      NextStripe(g, stripe);
    }
    idx := idx0;
    if stripe + 1 < minDim {
      idx := (idx + (minDim - stripe - 1)) % bufLen;
    } else if stripe + 1 > maxDim {
      idx := (idx + (stripe - maxDim + 2)) % bufLen;
    } else if xOffset > 0 {
      idx := (idx + 1) % bufLen;
    }
  }

  /** The sweep. Every output cell it covers gets the value it would get if all four of its
      column noises were generated for it alone; the other cells stay as they were. */
  method SweepRange<T(0)>(noise: Noise<T>, shade: Shade<T>, out: array<int>, r: Range)
    requires Area(r.sx, r.sz) <= out.Length
    modifies out
    ensures forall i: nat, j: nat :: i < r.sx && j < r.sz ==>
      Index(r.sx, i, j) < out.Length
      && out[Index(r.sx, i, j)]
         == if r.Covers(i, j) then Direct(noise, shade, r.Steps(), r.x + i, r.z + j) else old(out[Index(r.sx, i, j)])
  {
    hide Slot, Index, Direct, Passed, Area, Live, Painted;
    var cx1, cz1, cx2, cz2 := r.CellX1(), r.CellZ1(), r.CellX2(), r.CellZ2();
    ghost var g := r.Grid();
    var maxDim, minDim;
    if cx2 - cx1 > cz2 - cz1 {
      maxDim, minDim := cx2 - cx1, cz2 - cz1;
    } else {
      maxDim, minDim := cz2 - cz1, cx2 - cx1;
    }
    var bufLen := minDim * 2 + 1;
    var buf := new T[bufLen];
    var xStart, zStart, idx := cx1, cz1, 0;
    SweepStarts(noise, shade, r, buf[..], out[..]);
    var stripe := 0;
    while stripe < maxDim + minDim - 1
      invariant stripe <= maxDim + minDim - 1
      invariant xStart == cx1 + g.First(stripe) && zStart == cz1 + stripe - g.First(stripe)
      invariant stripe < maxDim + minDim - 1 ==> idx == Slot(minDim, stripe, g.First(stripe))
      invariant stripe < maxDim + minDim - 1 ==> Live(noise, cx1, cz1, g, buf[..], stripe, g.First(stripe))
      invariant Painted(noise, shade, r, old(out[..]), out[..], stripe, g.First(stripe))
    {
      idx := SweepStripe(noise, shade, out, buf, r, old(out[..]), stripe, minDim, idx, xStart, zStart);
      StripePainted(noise, shade, r, old(out[..]), out[..], stripe);
      if stripe + 1 < maxDim + minDim - 1 {
        StripeDone(noise, cx1, cz1, g, buf[..], stripe);
      }
      if zStart < cz2 - 1 {
        zStart := zStart + 1;
      } else {
        xStart := xStart + 1;
      }
      idx := NextIndex(g, stripe, minDim, maxDim, bufLen, xStart - cx1, idx);
      stripe := stripe + 1;
    }
    SweepEnds(noise, shade, r, old(out[..]), out[..]);
  }

  lemma SweepStarts<T>(noise: Noise<T>, shade: Shade<T>, r: Range, buf: seq<T>, out: seq<int>)
    requires |buf| == RingLength(r.Grid().n) && Area(r.sx, r.sz) <= |out|
    ensures Live(noise, r.CellX1(), r.CellZ1(), r.Grid(), buf, 0, 0)
    ensures Painted(noise, shade, r, out, out, 0, 0)
    ensures Slot(r.Grid().n, 0, 0) == 0
  {
    AreaNext(r.Grid().n, 0);
    hide Area;
    hide Direct;
    forall i: nat, j: nat | i < r.sx && j < r.sz
      ensures Index(r.sx, i, j) < |out| && !Passed(r, 0, 0, i, j)
    {
      StripePassed(r, 0, i, j);
      InGrid(r.sx, r.sz, i, j);
    }
  }

  lemma PaintStep<T>(noise: Noise<T>, shade: Shade<T>, r: Range, before: seq<int>, mid: seq<int>, after: seq<int>, d: nat, a: nat)
    requires Painted(noise, shade, r, before, mid, d, a) && |mid| == |after|
    requires forall i: nat, j: nat :: i < r.sx && j < r.sz ==>
      Index(r.sx, i, j) < |after|
      && after[Index(r.sx, i, j)]
         == if Passed(r, d, a + 1, i, j) && !Passed(r, d, a, i, j) then Direct(noise, shade, r.Steps(), r.x + i, r.z + j)
            else mid[Index(r.sx, i, j)]
    ensures Painted(noise, shade, r, before, after, d, a + 1)
  {
    hide Index;
    hide Direct;
    hide Area;
  }

  lemma StripePainted<T>(noise: Noise<T>, shade: Shade<T>, r: Range, before: seq<int>, after: seq<int>, d: nat)
    requires Painted(noise, shade, r, before, after, d, r.Grid().Last(d))
    ensures Painted(noise, shade, r, before, after, d + 1, r.Grid().First(d + 1))
  {
    hide Index;
    hide Direct;
    hide Area;
    forall i: nat, j: nat | i < r.sx && j < r.sz
      ensures Index(r.sx, i, j) < |after|
      ensures Passed(r, d, r.Grid().Last(d), i, j) <==> Passed(r, d + 1, r.Grid().First(d + 1), i, j)
    {
      StripePassed(r, d, i, j);
    }
  }

  lemma SweepEnds<T>(noise: Noise<T>, shade: Shade<T>, r: Range, before: seq<int>, after: seq<int>)
    requires
      var d := r.Grid().w + r.Grid().h - 1;
      Painted(noise, shade, r, before, after, d, r.Grid().First(d))
    ensures forall i: nat, j: nat :: i < r.sx && j < r.sz ==>
      Index(r.sx, i, j) < |after| == |before|
      && after[Index(r.sx, i, j)]
         == if r.Covers(i, j) then Direct(noise, shade, r.Steps(), r.x + i, r.z + j) else before[Index(r.sx, i, j)]
  {
    hide Index;
    hide Direct;
    hide Area;
    forall i: nat, j: nat | i < r.sx && j < r.sz
      ensures Index(r.sx, i, j) < |after| == |before|
      ensures
        var d := r.Grid().w + r.Grid().h - 1;
        Passed(r, d, r.Grid().First(d), i, j) <==> r.Covers(i, j)
    {
      StripePassed(r, r.Grid().w + r.Grid().h - 2, i, j);
    }
  }

  // ----- scale 4 and above, and no surface sampler: cell by cell

  /** The biome at a block, with the column noise of that block if there is a sampler. */
  type Point = (int, int) -> int

  /** The value of output cell (i, j), taken at the middle of the cell. */
  function Sampled(point: Point, r: Range, i: int, j: int): int {
    point((r.x + i) * r.scale + r.scale / 2, (r.z + j) * r.scale + r.scale / 2)
  }

  /** The first j rows have their values. */
  ghost predicate RowsSampled(point: Point, r: Range, out: seq<int>, j: nat) {
    forall i': nat, j': nat :: i' < r.sx && j' < j ==>
      Index(r.sx, i', j') < |out| && out[Index(r.sx, i', j')] == Sampled(point, r, i', j')
  }

  /** A row written behind the rows before it completes them. */
  lemma RowAdded(point: Point, r: Range, now: seq<int>, after: seq<int>, j: nat)
    requires RowsSampled(point, r, now, j) && Area(r.sx, j + 1) <= |after| == |now|
    requires forall k :: 0 <= k < Area(r.sx, j) && k < |now| ==> after[k] == now[k]
    requires forall i: nat :: i < r.sx ==> Index(r.sx, i, j) < |after| && after[Index(r.sx, i, j)] == Sampled(point, r, i, j)
    ensures RowsSampled(point, r, after, j + 1)
  {
    hide Area, Index, Sampled;
    forall i': nat, j': nat | i' < r.sx && j' < j + 1
      ensures Index(r.sx, i', j') < |after| && after[Index(r.sx, i', j')] == Sampled(point, r, i', j')
    {
      if j' < j {
        IndexInGrid(r.sx, j, i', j');
      }
    }
  }

  method SampleRow(point: Point, out: array<int>, r: Range, j: nat)
    requires Area(r.sx, j + 1) <= out.Length
    requires RowsSampled(point, r, out[..], j)
    modifies out
    ensures RowsSampled(point, r, out[..], j + 1)
  {
    hide Area, RowsSampled;
    AreaNext(r.sx, j);
    var mid := r.scale / 2;
    var z := (r.z + j) * r.scale + mid;
    ghost var now := out[..];
    var i := 0;
    while i < r.sx
      invariant i <= r.sx
      invariant forall k :: 0 <= k < Area(r.sx, j) ==> out[k] == now[k]
      invariant forall i': nat :: i' < i ==> Index(r.sx, i', j) < out.Length && out[Index(r.sx, i', j)] == Sampled(point, r, i', j)
    {
      var x := (r.x + i) * r.scale + mid;
      out[Index(r.sx, i, j)] := point(x, z);
      i := i + 1;
    }
    RowAdded(point, r, now, out[..], j);
  }

  method SampleRange(point: Point, out: array<int>, r: Range)
    requires Area(r.sx, r.sz) <= out.Length
    modifies out
    ensures RowsSampled(point, r, out[..], r.sz)
  {
    hide Area, RowsSampled;
    assert RowsSampled(point, r, out[..], 0) by {
      NoRows(point, r, out[..]);
    }
    var j := 0;
    while j < r.sz
      invariant j <= r.sz
      invariant RowsSampled(point, r, out[..], j)
    {
      AreaMonotone(r.sx, j + 1, r.sx, r.sz);
      SampleRow(point, out, r, j);
      j := j + 1;
    }
  }

  lemma NoRows(point: Point, r: Range, out: seq<int>)
    ensures RowsSampled(point, r, out, 0)
  {
  }

  /** The value that output cell (i, j) is left with. */
  function Generated<T>(noise: Noise<T>, shade: Shade<T>, point: Point, surface: bool, r: Range, i: nat, j: nat, before: int): int {
    if !surface || r.scale >= 4 then Sampled(point, r, i, j)
    else if r.Covers(i, j) then Direct(noise, shade, r.Steps(), r.x + i, r.z + j)
    else before
  }

  /** Both ways of filling a range. */
  method GenBiomeNoiseBetaScaled<T(0)>(noise: Noise<T>, shade: Shade<T>, point: Point, surface: bool, out: array<int>, r: Range)
    requires Area(r.sx, r.sz) <= out.Length
    modifies out
    ensures forall i: nat, j: nat :: i < r.sx && j < r.sz ==>
      Index(r.sx, i, j) < out.Length
      && out[Index(r.sx, i, j)] == Generated(noise, shade, point, surface, r, i, j, old(out[Index(r.sx, i, j)]))
  {
    hide Index, Direct, Sampled, Area;
    forall i: nat, j: nat | i < r.sx && j < r.sz
      ensures Index(r.sx, i, j) < out.Length
    {
      IndexInGrid(r.sx, r.sz, i, j);
    }
    if !surface || r.scale >= 4 {
      SampleRange(point, out, r);
    } else {
      SweepRange(noise, shade, out, r);
    }
  }

  /** The swept cells cover the whole range exactly when the offset of the range in its first
      swept cell and the rest of its size together do not exceed one swept cell. */
  lemma Coverage(r: Range)
    requires r.sx > 0 && r.sz > 0
    ensures (forall i: nat, j: nat :: i < r.sx && j < r.sz ==> r.Covers(i, j))
            <==> r.x % r.Steps() + r.sx % r.Steps() <= r.Steps() && r.z % r.Steps() + r.sz % r.Steps() <= r.Steps()
  {
    if forall i: nat, j: nat :: i < r.sx && j < r.sz ==> r.Covers(i, j) {
      assert r.Covers(r.sx - 1, r.sz - 1);
    }
  }

  /** A range of two cells at x = 3 whose second cell is never written. */
  lemma CoverageFails()
    ensures !Range(1, 3, 0, 2, 1).Covers(1, 0)
  {
  }

  /** The block at the middle of output cell x, on one axis. */
  function BlockOf(scale: nat, x: int): int {
    x * scale + scale / 2
  }

  /** An output cell is in the swept cell of the four by four blocks that its own block is in: at scales
      1 and 2 for all cells, at scale 3, which nothing asks for, not. */
  lemma CellOfBlock(r: Range)
    requires 0 < r.scale < 4
    ensures (forall x: int :: x / r.Steps() == BlockOf(r.scale, x) / 4) <==> r.scale <= 2
  {
    if r.scale == 3 {
      assert r.Steps() == 2 && 3 / 2 == 1 && BlockOf(3, 3) / 4 == 2;
      assert 3 / r.Steps() != BlockOf(r.scale, 3) / 4;
    }
  }

  /** Shading by the climate of the block at the middle of a cell. */
  function ShadeAt<T>(byBlock: Shade<T>, scale: nat): Shade<T> {
    (a, b, c, d, x: int, z: int) => byBlock(a, b, c, d, BlockOf(scale, x), BlockOf(scale, z))
  }

  /** Whatever the scales and ranges, two cells that show the same block have the same value: it is made
      from the same four columns. */
  lemma ScalesAgree<T>(noise: Noise<T>, byBlock: Shade<T>, r: Range, r': Range, i: nat, j: nat, i': nat, j': nat)
    requires 0 < r.scale <= 2 && 0 < r'.scale <= 2
    requires BlockOf(r.scale, r.x + i) == BlockOf(r'.scale, r'.x + i') && BlockOf(r.scale, r.z + j) == BlockOf(r'.scale, r'.z + j')
    ensures Direct(noise, ShadeAt(byBlock, r.scale), r.Steps(), r.x + i, r.z + j)
            == Direct(noise, ShadeAt(byBlock, r'.scale), r'.Steps(), r'.x + i', r'.z + j')
  {
    SweptCellOf(r, r.x + i);
    SweptCellOf(r, r.z + j);
    SweptCellOf(r', r'.x + i');
    SweptCellOf(r', r'.z + j');
    hide BlockOf, Range.Steps;
  }

  function SweptCell(r: Range, x: int): int {
    x / r.Steps()
  }

  lemma SweptCellOf(r: Range, x: int)
    requires 0 < r.scale <= 2
    ensures SweptCell(r, x) == x / r.Steps() == BlockOf(r.scale, x) / 4
  {
    CellOfBlock(r);
  }

  /** The ring is as long as the space that getMinCacheSize reserves for it. */
  lemma RingFits(r: Range)
    requires r.scale < 4
    ensures
      var smin := if r.sx < r.sz then r.sx else r.sz;
      RingLength(r.Grid().n) == (smin / r.Steps() + 1) * 2 + 1
  {
  }
}
