/** The map functions of layers.c on the one buffer they share. A buffer pointer is the array
    `out` with an offset `off`. Every function asks its parent to fill the front of that
    buffer and then overwrites it in place, so each loop keeps two facts: the cells already
    written hold the layer's own window, and the cells still to be read hold the parent's. */
module LayerMaps {
  import opened LayerTree
  import opened LayerBuffers
  import opened LayerRng
  import opened LayerRules
  import opened Products
  import opened Remainders
  import opened Windows
  import opened WindowTrees
  import opened Biomes

  /** `after` holds the window `win` at `off`, and differs from `before` at most in `need`
      cells from `off` on. */
  ghost predicate Filled(win: seq<int>, before: seq<int>, after: seq<int>, off: nat, need: nat) {
    && |win| <= need && |before| == |after| && off + need <= |after|
    && (forall k :: off <= k < off + |win| ==> after[k] == win[k - off])
    && (forall k :: 0 <= k < |after| && (k < off || off + need <= k) ==> after[k] == before[k])
  }

  /** The buffer `a` holds the window `win` at `off`. */
  ghost predicate Holds(win: seq<int>, a: seq<int>, off: nat) {
    && off + |win| <= |a|
    && forall k :: off <= k < off + |win| ==> a[k] == win[k - off]
  }

  // ----- leaves

  method MapContinent(l: Layer, out: array<int>, off: nat, x: int, z: int, w: nat, h: nat) returns (ghost s: seq<int>)
    requires l.Continent?
    requires off + CacheSize(l, w, h) <= out.Length
    modifies out
    ensures Yields(l, Box(x, z, w, h), s) && Filled(s, old(out[..]), out[..], off, CacheSize(l, w, h))
    decreases l, 0
  {
    hide Area, CacheSize, GetChunkSeed, McFirstIsZero, Window, Yields, Filled;
    s := Window(Meaning(l), x, z, w, h);
    YieldsLeaf(l, Box(x, z, w, h));
    AreaNext(w, 0);
    CacheMonotone(l, w, h, w, h);
    var ss := l.seed.startSeed;
    ghost var raw := (a: int, b: int) => if McFirstIsZero(GetChunkSeed(ss, a, b), 10) then 1 else 0;
    ghost var win := Window(raw, x, z, w, h);
    NoRowsDone(win, out[..], off);
    var j, row := 0, 0;
    while j < h
      invariant j <= h && row == Area(w, j) <= Area(w, h)
      invariant RowsDone(win, old(out[..]), out[..], off, row)
    {
      AreaNext(w, j);
      AreaMonotone(w, j + 1, w, h);
      var i := 0;
      while i < w
        invariant i <= w
        invariant RowsDone(win, old(out[..]), out[..], off, row + i)
      {
        WindowAt(raw, x, z, w, h, i, j);
        out[off + row + i] := if McFirstIsZero(GetChunkSeed(ss, i + x, j + z), 10) then 1 else 0;
        i := i + 1;
      }
      j, row := j + 1, row + w;
    }
    ghost var mid, patched := out[..], -1;
    if x > 0 - w && x <= 0 && z > 0 - h && z <= 0 {
      WindowPatched(raw, Meaning(l), x, z, w, h, 0, 0);
      patched := Area(w, -z) - x;
      out[off + Area(w, -z) - x] := 1;
    } else {
      WindowCongruent(raw, Meaning(l), x, z, w, h);
    }
    ContinentFilled(s, win, old(out[..]), mid, out[..], off, CacheSize(l, w, h), patched);
  }

  /** The rows written, and one cell put right if it is in the window. */
  lemma ContinentFilled(s: seq<int>, win: seq<int>, before: seq<int>, mid: seq<int>, after: seq<int>, off: nat, need: nat, k: int)
    requires RowsDone(win, before, mid, off, |win|) && |s| == |win| <= need && off + need <= |after| == |mid|
    requires if k < 0 then s == win && after == mid else k < |win| && s == win[k := 1] && after == mid[off + k := 1]
    ensures Filled(s, before, after, off, need)
  {
  }

  method MapOceanTemp(l: Layer, out: array<int>, off: nat, x: int, z: int, w: nat, h: nat) returns (ghost s: seq<int>)
    requires l.OceanTemp?
    requires off + CacheSize(l, w, h) <= out.Length
    modifies out
    ensures Yields(l, Box(x, z, w, h), s) && Filled(s, old(out[..]), out[..], off, CacheSize(l, w, h))
    decreases l, 0
  {
    hide Area, CacheSize, Window, Yields, Filled, Outside;
    AreaNext(w, 0);
    CacheMonotone(l, w, h, w, h);
    s := Window(Meaning(l), x, z, w, h);
    YieldsLeaf(l, Box(x, z, w, h));
    NoRowsDone(s, out[..], off);
    var j, row := 0, 0;
    while j < h
      invariant j <= h && row == Area(w, j) <= Area(w, h)
      invariant RowsDone(s, old(out[..]), out[..], off, row)
    {
      AreaNext(w, j);
      AreaMonotone(w, j + 1, w, h);
      var i := 0;
      while i < w
        invariant i <= w
        invariant RowsDone(s, old(out[..]), out[..], off, row + i)
      {
        WindowAt(Meaning(l), x, z, w, h, i, j);
        var tmp := l.noise(x + i, z + j);
        out[off + row + i] :=
          if tmp > 0.4 then WARM_OCEAN
          else if tmp > 0.2 then LUKEWARM_OCEAN
          else if tmp < -0.4 then FROZEN_OCEAN
          else if tmp < -0.2 then COLD_OCEAN
          else OCEAN;
        i := i + 1;
      }
      j, row := j + 1, row + w;
    }
    NothingOutside(old(out[..]), off, CacheSize(l, w, h));
    RowsFilled(s, old(out[..]), old(out[..]), out[..], off, CacheSize(l, w, h));
  }

  // ----- stencils: one parent, a border of one cell, overwritten in place

  /** Row j of the parent's window, and everything below it, is still in the buffer. */
  ghost predicate ParentBelow(g: Plane, a: seq<int>, off: nat, x: int, z: int, w: nat, h: nat, row: nat, pRow: nat) {
    var src := Window(g, x - 1, z - 1, w + 2, h + 2);
    && row <= pRow && pRow + 3 * (w + 2) <= |src| && off + |src| <= |a|
    && forall k :: off + row <= k < off + |src| ==> a[k] == src[k - off]
  }

  /** Row j of the layer's window has been written and nothing else has changed. */
  ghost predicate RowWritten(win: seq<int>, before: seq<int>, after: seq<int>, off: nat, row: nat, w: nat) {
    && |before| == |after| && row + w <= |win| && off + row + w <= |after|
    && (forall k :: off + row <= k < off + row + w ==> after[k] == win[k - off])
    && (forall k :: 0 <= k < |after| && !(off + row <= k < off + row + w) ==> after[k] == before[k])
  }

  /** The first `row` elements of the layer's window have been written over `base`. */
  ghost predicate RowsDone(win: seq<int>, base: seq<int>, now: seq<int>, off: nat, row: nat) {
    && |base| == |now| && row <= |win| && off + |win| <= |now|
    && (forall k :: off <= k < off + row ==> now[k] == win[k - off])
    && (forall k :: 0 <= k < |now| && !(off <= k < off + row) ==> now[k] == base[k])
  }

  lemma NoRowsDone(win: seq<int>, base: seq<int>, off: nat)
    requires off + |win| <= |base|
    ensures RowsDone(win, base, base, off, 0)
  {
  }

  lemma RowsNext(win: seq<int>, base: seq<int>, mid: seq<int>, now: seq<int>, off: nat, row: nat, w: nat)
    requires RowsDone(win, base, mid, off, row) && RowWritten(win, mid, now, off, row, w)
    ensures RowsDone(win, base, now, off, row + w)
  {
  }

  /** Nothing has changed but `need` cells from `off` on. */
  ghost predicate Outside(before: seq<int>, after: seq<int>, off: nat, need: nat) {
    |before| == |after| && forall k :: 0 <= k < |after| && (k < off || off + need <= k) ==> after[k] == before[k]
  }

  lemma NothingOutside(a: seq<int>, off: nat, need: nat)
    ensures Outside(a, a, off, need)
  {
  }

  /** A parent's window, generated into a part of the layer's space. */
  lemma FilledInside(win: seq<int>, before: seq<int>, after: seq<int>, at: nat, part: nat, off: nat, need: nat)
    requires Filled(win, before, after, at, part) && off <= at && at + part <= off + need
    ensures Holds(win, after, at) && Outside(before, after, off, need)
  {
  }

  /** A second parent generated behind the first one. */
  lemma FilledBehind(first: seq<int>, win: seq<int>, before: seq<int>, mid: seq<int>, after: seq<int>,
                     at: nat, part: nat, off: nat, need: nat)
    requires Holds(first, mid, off) && off + |first| <= at
    requires Outside(before, mid, off, need)
    requires Filled(win, mid, after, at, part) && at + part <= off + need
    ensures Holds(first, after, off) && Holds(win, after, at) && Outside(before, after, off, need)
  {
  }

  lemma RowsFilled(win: seq<int>, before: seq<int>, base: seq<int>, after: seq<int>, off: nat, need: nat)
    requires Outside(before, base, off, need) && RowsDone(win, base, after, off, |win|)
    requires |win| <= need && off + need <= |after|
    ensures Filled(win, before, after, off, need)
  {
  }

  /** The rows of the layer never catch up with the rows of the parent that are still needed. */
  lemma ParentLeft(g: Plane, win: seq<int>, base: seq<int>, now: seq<int>, off: nat, x: int, z: int, w: nat, h: nat,
                   j: nat, row: nat, pRow: nat)
    requires j < h && row == Area(w, j) && pRow == Area(w + 2, j)
    requires Holds(Window(g, x - 1, z - 1, w + 2, h + 2), base, off) && RowsDone(win, base, now, off, row)
    ensures ParentBelow(g, now, off, x, z, w, h, row, pRow)
  {
    hide Area, Window;
    var pW := w + 2;
    AreaMonotone(w, j, pW, j);
    AreaNext(pW, j);
    AreaNext(pW, j + 1);
    AreaNext(pW, j + 2);
    AreaMonotone(pW, j + 3, pW, h + 2);
  }

  /** And the second parent, behind the first, is never reached. */
  lemma SecondLeft(second: seq<int>, win: seq<int>, base: seq<int>, now: seq<int>, off: nat, at: nat, row: nat)
    requires Holds(second, base, at) && RowsDone(win, base, now, off, row) && off + |win| <= at
    ensures Holds(second, now, at)
  {
  }

  predicate IsStencil(l: Layer) {
    l.Land? || l.Island? || l.Smooth? || l.Around?
  }

  /** The stencils around their inner loops. The row index of the layer never passes that of its
      parent, which is why overwriting is harmless. As in all that follow, `s` is what the window is
      left with, over whatever the parent left. */
  method MapStencil(l: Layer, out: array<int>, off: nat, x: int, z: int, w: nat, h: nat) returns (ghost s: seq<int>)
    requires IsStencil(l)
    requires off + CacheSize(l, w, h) <= out.Length
    modifies out
    ensures Yields(l, Box(x, z, w, h), s) && Filled(s, old(out[..]), out[..], off, CacheSize(l, w, h))
    decreases l, 0
  {
    hide Area, CacheSize, Window, Meaning, F, Filled, Holds, RowsDone, Outside, Yields, Shown;
    var pX, pZ, pW, pH := x - 1, z - 1, w + 2, h + 2;
    ParentFits(l, l.p, w, h, pW, pH);
    CacheMonotone(l, w, h, w, h);
    ghost var s0 := GetMap(l.p, out, off, pX, pZ, pW, pH);
    ghost var base := out[..];
    ghost var q := Shown(s0, Box(pX, pZ, pW, pH));
    ghost var m := Over(l, q, q);
    YieldsOne(l, Box(x, z, w, h), s0);
    s := Window(Meaning(m), x, z, w, h);
    FilledInside(Window(Meaning(q), pX, pZ, pW, pH), old(out[..]), base, off, CacheSize(l.p, pW, pH), off, CacheSize(l, w, h));
    NoRowsDone(s, base, off);
    AreaNext(w, 0);
    AreaNext(pW, 0);
    var j, row, pRow := 0, 0, 0;
    while j < h
      invariant j <= h && row == Area(w, j) && pRow == Area(pW, j)
      invariant RowsDone(s, base, out[..], off, row)
    {
      AreaNext(w, j);
      AreaNext(pW, j);
      ParentLeft(Meaning(q), s, base, out[..], off, x, z, w, h, j, row, pRow);
      ghost var mid := out[..];
      StencilRow(l, m, q, out, off, x, z, w, h, j, row, pRow);
      RowsNext(s, base, mid, out[..], off, row, w);
      j, row, pRow := j + 1, row + w, pRow + pW;
    }
    RowsFilled(s, old(out[..]), base, out[..], off, CacheSize(l, w, h));
  }

  method StencilRow(l: Layer, ghost m: Layer, ghost q: Layer, out: array<int>, off: nat, x: int, z: int, w: nat, h: nat, j: nat, row: nat, pRow: nat)
    requires IsStencil(l) && m == Over(l, q, q) && j < h && row == Area(w, j) && pRow == Area(w + 2, j)
    requires ParentBelow(Meaning(m.p), out[..], off, x, z, w, h, row, pRow)
    modifies out
    ensures RowWritten(Window(Meaning(m), x, z, w, h), old(out[..]), out[..], off, row, w)
  {
    hide Area, Window, Meaning, F, ParentBelow, RowWritten;
    match l {
      case Land(_, _) => LandRow(l, m, out, off, x, z, w, h, j, row, pRow);
      case Island(_, _) => IslandRow(l, m, out, off, x, z, w, h, j, row, pRow);
      case Smooth(_, _) => SmoothRow(l, m, out, off, x, z, w, h, j, row, pRow);
      case Around(_, _) => AroundRow(l, m, out, off, x, z, w, h, j, row, pRow);
    }
  }

  /** What the layer means at (i, j), in terms of the parent cells in the buffer. */
  lemma LandStep(l: Layer, x: int, z: int, w: nat, h: nat, i: nat, j: nat)
    requires l.Land? && i < w && j < h
    ensures
      var src := Window(Meaning(l.p), x - 1, z - 1, w + 2, h + 2);
      var r0 := Area(w + 2, j);
      var r1 := r0 + w + 2;
      var r2 := r1 + w + 2;
      && Area(w, j) <= r0 && r2 + i + 2 < |src| && Area(w, j) + i < Area(w, h)
      && Window(Meaning(l), x, z, w, h)[Area(w, j) + i]
         == LandCell(l.seed, i + x, j + z, src[r1 + i + 1], src[r0 + i], src[r0 + i + 2], src[r2 + i], src[r2 + i + 2])
  {
    hide LandCell;
    hide Area;
    hide Window;
    WindowAt(Meaning(l), x, z, w, h, i, j);
    NineCells(Meaning(l.p), x, z, w, h, i, j);
  }

  /** The same for the layers that look at the four direct neighbours. */
  lemma CrossStep(l: Layer, x: int, z: int, w: nat, h: nat, i: nat, j: nat)
    requires (l.Island? || l.Smooth? || l.Shore?) && i < w && j < h
    ensures
      var src := Window(Meaning(l.p), x - 1, z - 1, w + 2, h + 2);
      var r0 := Area(w + 2, j);
      var r1 := r0 + w + 2;
      var r2 := r1 + w + 2;
      && Area(w, j) <= r0 && r2 + i + 2 < |src| && Area(w, j) + i < Area(w, h)
      && src[r1 + i + 1] == F(l.p, x + i, z + j)
      && Window(Meaning(l), x, z, w, h)[Area(w, j) + i]
         == CrossCell(l, i + x, j + z, src[r1 + i + 1], src[r0 + i + 1], src[r1 + i + 2], src[r1 + i], src[r2 + i + 1])
  {
    hide IslandCell;
    hide SmoothCell;
    hide ShoreCell;
    hide Area;
    hide Window;
    WindowAt(Meaning(l), x, z, w, h, i, j);
    NineCells(Meaning(l.p), x, z, w, h, i, j);
  }

  ghost function CrossCell(l: Layer, x: int, z: int, v11: int, v10: int, v21: int, v01: int, v12: int): int
    requires l.Island? || l.Smooth? || l.Shore?
  {
    if l.Island? then IslandCell(l.seed, x, z, v11, v10, v21, v01, v12)
    else if l.Smooth? then SmoothCell(l.seed, x, z, v11, v10, v21, v01, v12)
    else ShoreCell(l.mc, v11, v10, v21, v01, v12)
  }

  /** What cell (i, j) of mapLand depends on: the parent's rows as they were before the row was begun,
      and that they still are so from the cell's own place on. */
  lemma LandRead(l: Layer, base: seq<int>, now: seq<int>, off: nat, x: int, z: int, w: nat, h: nat, i: nat, j: nat, row: nat, pRow: nat)
    requires l.Land? && i < w && j < h && row == Area(w, j) && pRow == Area(w + 2, j)
    requires ParentBelow(Meaning(l.p), base, off, x, z, w, h, row, pRow)
    requires |now| == |base| && forall k :: off + row + i <= k < |base| ==> now[k] == base[k]
    ensures
      var win := Window(Meaning(l), x, z, w, h);
      var vz0, vz1, vz2 := off + pRow, off + pRow + (w + 2), off + pRow + (w + 2) + (w + 2);
      && row <= pRow && vz2 + i + 2 < |base| && row + i < |win|
      && now[vz1 + i + 1] == base[vz1 + i + 1] && now[vz0 + i + 2] == base[vz0 + i + 2] && now[vz2 + i + 2] == base[vz2 + i + 2]
      && win[row + i] == LandCell(l.seed, i + x, j + z, base[vz1 + i + 1], base[vz0 + i], base[vz0 + i + 2], base[vz2 + i], base[vz2 + i + 2])
  {
    hide Area, Window, Meaning, F, LandCell;
    LandStep(l, x, z, w, h, i, j);
  }

  /** The inner loop of mapLand: the corners of the next cell are carried along, because
      their places in the row above may be overwritten by the time they are needed. */
  method LandRow(l: Layer, ghost m: Layer, out: array<int>, off: nat, x: int, z: int, w: nat, h: nat, j: nat, row: nat, pRow: nat)
    requires l.Land? && m.Land? && m.seed == l.seed && j < h && row == Area(w, j) && pRow == Area(w + 2, j)
    requires ParentBelow(Meaning(m.p), out[..], off, x, z, w, h, row, pRow)
    modifies out
    ensures RowWritten(Window(Meaning(m), x, z, w, h), old(out[..]), out[..], off, row, w)
  {
    hide Area, LandCell, Window, Meaning, F, ParentBelow;
    ghost var base, win := out[..], Window(Meaning(m), x, z, w, h);
    AreaNext(w, j);
    AreaMonotone(w, j + 1, w, h);
    RowInside(Meaning(m.p), base, off, x, z, w, h, row, pRow);
    var pW := w + 2;
    var vz0, vz1, vz2 := off + pRow, off + pRow + pW, off + pRow + pW + pW;
    var v00, vt0 := out[vz0], out[vz0 + 1];
    var v02, vt2 := out[vz2], out[vz2 + 1];
    var i := 0;
    while i < w
      invariant i <= w
      invariant forall k :: off + row <= k < off + row + i ==> out[k] == win[k - off]
      invariant forall k :: 0 <= k < out.Length && !(off + row <= k < off + row + i) ==> out[k] == base[k]
      invariant v00 == base[vz0 + i] && vt0 == base[vz0 + i + 1]
      invariant v02 == base[vz2 + i] && vt2 == base[vz2 + i + 1]
    {
      LandRead(m, base, out[..], off, x, z, w, h, i, j, row, pRow);
      var v11, v20, v22 := out[vz1 + i + 1], out[vz0 + i + 2], out[vz2 + i + 2];
      var v := LandValue(l.seed, i + x, j + z, v11, v00, v20, v02, v22);
      out[off + row + i] := v;
      v00, vt0 := vt0, v20;
      v02, vt2 := vt2, v22;
      i := i + 1;
    }
  }

  /** The draws of mapLand, unrolled corner by corner. */
  method LandValue(seed: Seed, x: int, z: int, v11: int, v00: int, v20: int, v02: int, v22: int) returns (v: int)
    ensures v == LandCell(seed, x, z, v11, v00, v20, v02, v22)
  {
    hide GetChunkSeed;
    hide McStepSeed;
    ghost var corners := [v00, v20, v02, v22];
    assert corners[0] in corners && corners[1] in corners && corners[2] in corners && corners[3] in corners;
    v := v11;
    var st := seed.startSalt;
    if v11 == OCEAN {
      if v00 != OCEAN || v20 != OCEAN || v02 != OCEAN || v22 != OCEAN {
        var cs := GetChunkSeed(seed.startSeed, x, z);
        ghost var all := LandCorner([v00, v20, v02, v22], 0, 1, cs, st);
        var inc := 0;
        v := 1;
        if v00 != OCEAN {
          inc, v := inc + 1, v00;
          cs := McStepSeed(cs, st);
        }
        assert [v00, v20, v02, v22][1..] == [v20, v02, v22];
        assert all == LandCorner([v20, v02, v22], inc, v, cs, st);
        if v20 != OCEAN {
          inc := inc + 1;
          if inc == 1 || McFirstIsZero(cs, 2) {
            v := v20;
          }
          cs := McStepSeed(cs, st);
        }
        assert [v20, v02, v22][1..] == [v02, v22];
        assert all == LandCorner([v02, v22], inc, v, cs, st);
        if v02 != OCEAN {
          inc := inc + 1;
          if inc == 1 || (if inc == 2 then McFirstIsZero(cs, 2) else McFirstIsZero(cs, 3)) {
            v := v02;
          }
          cs := McStepSeed(cs, st);
        }
        assert [v02, v22][1..] == [v22];
        assert all == LandCorner([v22], inc, v, cs, st);
        if v22 != OCEAN {
          inc := inc + 1;
          if inc == 1 || (if inc == 2 then McFirstIsZero(cs, 2) else if inc == 3 then McFirstIsZero(cs, 3) else McFirstIsZero(cs, 4)) {
            v := v22;
          }
          cs := McStepSeed(cs, st);
        }
        assert [v22][1..] == [];
        assert all == LandCorner([], inc, v, cs, st) == (v, cs);
        if v != FOREST {
          if !McFirstIsZero(cs, 3) {
            v := OCEAN;
          }
        }
      }
    } else if v11 != FOREST {
      if v00 == 0 || v20 == 0 || v02 == 0 || v22 == 0 {
        var cs := GetChunkSeed(seed.startSeed, x, z);
        if McFirstIsZero(cs, 5) {
          v := 0;
        }
      }
    }
  }

  method IslandRow(l: Layer, ghost m: Layer, out: array<int>, off: nat, x: int, z: int, w: nat, h: nat, j: nat, row: nat, pRow: nat)
    requires l.Island? && m.Island? && m.seed == l.seed && j < h && row == Area(w, j) && pRow == Area(w + 2, j)
    requires ParentBelow(Meaning(m.p), out[..], off, x, z, w, h, row, pRow)
    modifies out
    ensures RowWritten(Window(Meaning(m), x, z, w, h), old(out[..]), out[..], off, row, w)
  {
    hide Area;
    hide Window;
    hide Meaning;
    hide F;
    hide GetChunkSeed;
    hide McFirstIsZero;
    ghost var win := Window(Meaning(m), x, z, w, h);
    AreaNext(w, j);
    AreaMonotone(w, j + 1, w, h);
    var pW := w + 2;
    var i := 0;
    while i < w
      invariant i <= w
      invariant forall k :: off + row <= k < off + row + i ==> out[k] == win[k - off]
      invariant forall k :: 0 <= k < out.Length && !(off + row <= k < off + row + i) ==> out[k] == old(out[k])
    {
      CrossStep(m, x, z, w, h, i, j);
      var v11 := out[off + pRow + pW + i + 1];
      out[off + row + i] := v11;
      if v11 == OCEAN
         && out[off + pRow + i + 1] == OCEAN
         && out[off + pRow + pW + i + 2] == OCEAN
         && out[off + pRow + pW + i] == OCEAN
         && out[off + pRow + pW + pW + i + 1] == OCEAN
      {
        if McFirstIsZero(GetChunkSeed(l.seed.startSeed, i + x, j + z), 2) {
          out[off + row + i] := 1;
        }
      }
      i := i + 1;
    }
  }

  method SmoothRow(l: Layer, ghost m: Layer, out: array<int>, off: nat, x: int, z: int, w: nat, h: nat, j: nat, row: nat, pRow: nat)
    requires l.Smooth? && m.Smooth? && m.seed == l.seed && j < h && row == Area(w, j) && pRow == Area(w + 2, j)
    requires ParentBelow(Meaning(m.p), out[..], off, x, z, w, h, row, pRow)
    modifies out
    ensures RowWritten(Window(Meaning(m), x, z, w, h), old(out[..]), out[..], off, row, w)
  {
    hide Area;
    hide Window;
    hide Meaning;
    hide F;
    hide GetChunkSeed;
    hide Bit24;
    ghost var win := Window(Meaning(m), x, z, w, h);
    AreaNext(w, j);
    AreaMonotone(w, j + 1, w, h);
    var pW := w + 2;
    var vz0, vz1, vz2 := off + pRow, off + pRow + pW, off + pRow + pW + pW;
    var i := 0;
    while i < w
      invariant i <= w
      invariant forall k :: off + row <= k < off + row + i ==> out[k] == win[k - off]
      invariant forall k :: 0 <= k < out.Length && !(off + row <= k < off + row + i) ==> out[k] == old(out[k])
    {
      CrossStep(m, x, z, w, h, i, j);
      var v11, v01, v10 := out[vz1 + i + 1], out[vz1 + i], out[vz0 + i + 1];
      if v11 != v01 || v11 != v10 {
        var v21, v12 := out[vz1 + i + 2], out[vz2 + i + 1];
        if v01 == v21 && v10 == v12 {
          if Bit24(GetChunkSeed(l.seed.startSeed, i + x, j + z)) {
            v11 := v10;
          } else {
            v11 := v01;
          }
        } else {
          if v01 == v21 {
            v11 := v01;
          }
          if v10 == v12 {
            v11 := v10;
          }
        }
      }
      out[off + row + i] := v11;
      i := i + 1;
    }
  }

  /** What the layer means at (i, j), in terms of the nine parent cells in the buffer. */
  lemma NineStep(l: Layer, x: int, z: int, w: nat, h: nat, i: nat, j: nat)
    requires l.Around? && i < w && j < h
    ensures
      var src := Window(Meaning(l.p), x - 1, z - 1, w + 2, h + 2);
      var r0 := Area(w + 2, j);
      var r1 := r0 + w + 2;
      var r2 := r1 + w + 2;
      && Area(w, j) <= r0 && r2 + i + 2 < |src| && Area(w, j) + i < Area(w, h)
      && Window(Meaning(l), x, z, w, h)[Area(w, j) + i]
         == l.around(i + x, j + z, Nine(src[r0 + i], src[r0 + i + 1], src[r0 + i + 2], src[r1 + i], src[r1 + i + 1],
                                        src[r1 + i + 2], src[r2 + i], src[r2 + i + 1], src[r2 + i + 2]))
  {
    hide Area;
    hide Window;
    WindowAt(Meaning(l), x, z, w, h, i, j);
    NineCells(Meaning(l.p), x, z, w, h, i, j);
  }

  /** The buffer still holds the nine cells around (i, j). */
  lemma NineRead(l: Layer, base: seq<int>, now: seq<int>, off: nat, x: int, z: int, w: nat, h: nat, i: nat, j: nat, row: nat, pRow: nat)
    requires l.Around? && i < w && j < h && row == Area(w, j) && pRow == Area(w + 2, j)
    requires ParentBelow(Meaning(l.p), base, off, x, z, w, h, row, pRow)
    requires |now| == |base| && forall k :: off + row + i <= k < |base| ==> now[k] == base[k]
    ensures
      var win := Window(Meaning(l), x, z, w, h);
      var r0 := off + pRow;
      var r1 := r0 + w + 2;
      var r2 := r1 + w + 2;
      && row <= pRow && r2 + i + 2 < |now| && row + i < |win|
      && win[row + i] == l.around(i + x, j + z, Nine(now[r0 + i], now[r0 + i + 1], now[r0 + i + 2], now[r1 + i], now[r1 + i + 1],
                                                     now[r1 + i + 2], now[r2 + i], now[r2 + i + 1], now[r2 + i + 2]))
  {
    hide Area, Window, Meaning, F;
    NineStep(l, x, z, w, h, i, j);
  }

  /** One row of a layer that looks at all nine cells: the cell of the row above that is read for
      (i, j) is only overwritten by (i, j) itself, or later. */
  method AroundRow(l: Layer, ghost m: Layer, out: array<int>, off: nat, x: int, z: int, w: nat, h: nat, j: nat, row: nat, pRow: nat)
    requires l.Around? && m.Around? && m.around == l.around && j < h && row == Area(w, j) && pRow == Area(w + 2, j)
    requires ParentBelow(Meaning(m.p), out[..], off, x, z, w, h, row, pRow)
    modifies out
    ensures RowWritten(Window(Meaning(m), x, z, w, h), old(out[..]), out[..], off, row, w)
  {
    hide Area, Window, Meaning, F, ParentBelow;
    ghost var win := Window(Meaning(m), x, z, w, h);
    AreaNext(w, j);
    AreaMonotone(w, j + 1, w, h);
    RowInside(Meaning(m.p), out[..], off, x, z, w, h, row, pRow);
    var pW := w + 2;
    var vz0, vz1, vz2 := off + pRow, off + pRow + pW, off + pRow + pW + pW;
    var i := 0;
    while i < w
      invariant i <= w
      invariant forall k :: off + row <= k < off + row + i ==> out[k] == win[k - off]
      invariant forall k :: 0 <= k < out.Length && !(off + row <= k < off + row + i) ==> out[k] == old(out[k])
    {
      NineRead(m, old(out[..]), out[..], off, x, z, w, h, i, j, row, pRow);
      out[off + row + i] := l.around(i + x, j + z, Nine(out[vz0 + i], out[vz0 + i + 1], out[vz0 + i + 2], out[vz1 + i],
        out[vz1 + i + 1], out[vz1 + i + 2], out[vz2 + i], out[vz2 + i + 1], out[vz2 + i + 2]));
      i := i + 1;
    }
  }

  // ----- one cell of the parent for each cell, overwritten in place

  lemma PointRead(l: Layer, base: seq<int>, now: seq<int>, off: nat, x: int, z: int, w: nat, h: nat, i: nat, j: nat, row: nat)
    requires l.Point? && i < w && j < h && row == Area(w, j) && Holds(Window(Meaning(l.p), x, z, w, h), base, off)
    requires |now| == |base| && forall k :: off + row + i <= k < |base| ==> now[k] == base[k]
    ensures
      var win := Window(Meaning(l), x, z, w, h);
      off + row + i < |now| && row + i < |win| && win[row + i] == l.point(i + x, j + z, now[off + row + i])
  {
    hide Area, Window;
    WindowAt(Meaning(l), x, z, w, h, i, j);
    WindowAt(Meaning(l.p), x, z, w, h, i, j);
  }

  method MapPoint(l: Layer, out: array<int>, off: nat, x: int, z: int, w: nat, h: nat) returns (ghost s: seq<int>)
    requires l.Point?
    requires off + CacheSize(l, w, h) <= out.Length
    modifies out
    ensures Yields(l, Box(x, z, w, h), s) && Filled(s, old(out[..]), out[..], off, CacheSize(l, w, h))
    decreases l, 0
  {
    hide Area, CacheSize, Window, Meaning, F, Holds, Yields, Shown;
    ParentFits(l, l.p, w, h, w, h);
    CacheMonotone(l.p, w, h, w, h);
    ghost var s0 := GetMap(l.p, out, off, x, z, w, h);
    ghost var q := Shown(s0, Box(x, z, w, h));
    ghost var m := Over(l, q, q);
    YieldsOne(l, Box(x, z, w, h), s0);
    s := Window(Meaning(m), x, z, w, h);
    ghost var base := out[..];
    ghost var win := s;
    NowHolds(Window(Meaning(q), x, z, w, h), base, off);
    AreaNext(w, 0);
    var j, row := 0, 0;
    while j < h
      invariant j <= h && row == Area(w, j) <= Area(w, h)
      invariant forall k :: off <= k < off + row ==> out[k] == win[k - off]
      invariant forall k :: 0 <= k < out.Length && !(off <= k < off + row) ==> out[k] == base[k]
    {
      AreaNext(w, j);
      AreaMonotone(w, j + 1, w, h);
      var i := 0;
      while i < w
        invariant i <= w
        invariant forall k :: off <= k < off + row + i ==> out[k] == win[k - off]
        invariant forall k :: 0 <= k < out.Length && !(off <= k < off + row + i) ==> out[k] == base[k]
      {
        PointRead(m, base, out[..], off, x, z, w, h, i, j, row);
        out[off + row + i] := l.point(i + x, j + z, out[off + row + i]);
        i := i + 1;
      }
      j, row := j + 1, row + w;
    }
  }

  lemma NowHolds(win: seq<int>, a: seq<int>, off: nat)
    requires off + |win| <= |a| && forall k :: off <= k < off + |win| ==> a[k] == win[k - off]
    ensures Holds(win, a, off)
  {
  }

  /** Every window of the layer shows the plane `f`. */
  ghost predicate Shows(l: Layer, f: (int, int) -> int)
    requires l.Shore?
  {
    forall x, z, w: nat, h: nat :: ShoreResult(l, x, z, w, h) == Window(f, x, z, w, h)
  }

  ghost predicate ShowsPlane(l: Layer)
    requires l.Shore?
  {
    exists f: (int, int) -> int :: Shows(l, f)
  }

  /** A parent with a frozen ocean in one cell: two windows disagree about that cell. */
  lemma ShoreIsNoPlane(mc: int) returns (l: Layer)
    requires mc > MC_1_6
    ensures l.Shore? && l.mc == mc && ShoreSafe(l.p) && !ShoreSafe(l)
    ensures ShoreResult(l, 0, 0, 1, 1)[Index(1, 0, 0)] != ShoreResult(l, 0, -1, 1, 2)[Index(1, 0, 1)]
  {
    var noise: (int, int) -> real :=
      (a, b) => if a == 0 && b == 0 then -0.5 else if a == -1 && b == -1 then 0.5 else 0.0;
    var p := OceanTemp(noise);
    l := Shore(mc, p);
    assert ShoreSkips(mc, F(p, 0, 0));
    WindowAt(Meaning(p), 0, 0, 1, 1, 0, 0);
    WindowAt(Meaning(p), -1, -1, 3, 3, 0, 0);
    WindowAt(Meaning(p), 0, -1, 1, 2, 0, 1);
    WindowAt(Meaning(p), -1, -2, 3, 4, 1, 0);
    assert ShoreResult(l, 0, 0, 1, 1)[Index(1, 0, 0)] == F(p, -1, -1) == WARM_OCEAN;
    assert ShoreResult(l, 0, -1, 1, 2)[Index(1, 0, 1)] == F(p, 0, -2) == OCEAN;
  }

  /** mapShore is a function of the world cell for every parent exactly up to Minecraft 1.6. */
  lemma ShorePlaneLimit(mc: int)
    ensures (forall l: Layer :: l.Shore? && l.mc == mc && ShoreSafe(l.p) ==> ShowsPlane(l)) <==> mc <= MC_1_6
  {
    hide ShoreResult, Window;
    if mc <= MC_1_6 {
      forall l: Layer | l.Shore? && l.mc == mc && ShoreSafe(l.p)
        ensures ShowsPlane(l)
      {
        forall x, z, w: nat, h: nat
          ensures ShoreResult(l, x, z, w, h) == Window(Meaning(l), x, z, w, h)
        {
          ShoreSafeResult(l, x, z, w, h);
        }
        assert Shows(l, Meaning(l));
      }
    } else {
      var l := ShoreIsNoPlane(mc);
      forall f: (int, int) -> int
        ensures !Shows(l, f)
      {
        WindowAt(f, 0, 0, 1, 1, 0, 0);
        WindowAt(f, 0, -1, 1, 2, 0, 1);
        assert ShoreResult(l, 0, 0, 1, 1) != Window(f, 0, 0, 1, 1) || ShoreResult(l, 0, -1, 1, 2) != Window(f, 0, -1, 1, 2);
      }
      assert !ShowsPlane(l);
    }
  }

  method MapShore(l: Layer, out: array<int>, off: nat, x: int, z: int, w: nat, h: nat) returns (ghost s: seq<int>)
    requires l.Shore?
    requires off + CacheSize(l, w, h) <= out.Length
    modifies out
    ensures Yields(l, Box(x, z, w, h), s) && Filled(s, old(out[..]), out[..], off, CacheSize(l, w, h))
    decreases l, 0
  {
    hide Area, CacheSize, Window, Meaning, F, ShoreResult, Filled, Holds, RowsDone, Outside, ParentBelow, RowWritten, Yields, Shown;
    var pX, pZ, pW, pH := x - 1, z - 1, w + 2, h + 2;
    ParentFits(l, l.p, w, h, pW, pH);
    CacheMonotone(l, w, h, w, h);
    ghost var s0 := GetMap(l.p, out, off, pX, pZ, pW, pH);
    ghost var base := out[..];
    ghost var q := Shown(s0, Box(pX, pZ, pW, pH));
    ghost var m := Over(l, q, q);
    YieldsOne(l, Box(x, z, w, h), s0);
    s := ShoreResult(m, x, z, w, h);
    FilledInside(Window(Meaning(q), pX, pZ, pW, pH), old(out[..]), base, off, CacheSize(l.p, pW, pH), off, CacheSize(l, w, h));
    NoRowsDone(s, base, off);
    AreaNext(w, 0);
    AreaNext(pW, 0);
    var j, row, pRow := 0, 0, 0;
    while j < h
      invariant j <= h && row == Area(w, j) && pRow == Area(pW, j)
      invariant RowsDone(s, base, out[..], off, row)
    {
      AreaNext(w, j);
      AreaNext(pW, j);
      ParentLeft(Meaning(q), s, base, out[..], off, x, z, w, h, j, row, pRow);
      ghost var mid := out[..];
      ShoreRow(l, m, out, off, x, z, w, h, j, row, pRow);
      RowsNext(s, base, mid, out[..], off, row, w);
      j, row, pRow := j + 1, row + w, pRow + pW;
    }
    RowsFilled(s, old(out[..]), base, out[..], off, CacheSize(l, w, h));
  }

  method ShoreRow(l: Layer, ghost m: Layer, out: array<int>, off: nat, x: int, z: int, w: nat, h: nat, j: nat, row: nat, pRow: nat)
    requires l.Shore? && m.Shore? && m.mc == l.mc && j < h && row == Area(w, j) && pRow == Area(w + 2, j)
    requires ParentBelow(Meaning(m.p), out[..], off, x, z, w, h, row, pRow)
    modifies out
    ensures RowWritten(ShoreResult(m, x, z, w, h), old(out[..]), out[..], off, row, w)
  {
    hide Area;
    hide Window;
    hide Meaning;
    hide F;
    hide ShoreCell;
    hide ShoreSkips;
    ghost var win := ShoreResult(m, x, z, w, h);
    AreaNext(w, j);
    AreaMonotone(w, j + 1, w, h);
    var pW := w + 2;
    var vz0, vz1, vz2 := off + pRow, off + pRow + pW, off + pRow + pW + pW;
    var i := 0;
    while i < w
      invariant i <= w
      invariant forall k :: off + row <= k < off + row + i ==> out[k] == win[k - off]
      invariant forall k :: 0 <= k < out.Length && !(off + row <= k < off + row + i) ==> out[k] == old(out[k])
    {
      CrossStep(m, x, z, w, h, i, j);
      CentreStep(m.p, x, z, w, h, i, j);
      var v11, v10, v21, v01, v12 := out[vz1 + i + 1], out[vz0 + i + 1], out[vz1 + i + 2], out[vz1 + i], out[vz2 + i + 1];
      var v, written := ShoreValue(l.mc, v11, v10, v21, v01, v12);
      if written {
        out[off + row + i] := v;
      }
      i := i + 1;
    }
  }

  lemma CentreStep(p: Layer, x: int, z: int, w: nat, h: nat, i: nat, j: nat)
    requires i < w && j < h
    ensures Area(w, j) + i < Area(w, h)
    ensures Window(Meaning(p), x, z, w, h)[Area(w, j) + i] == F(p, x + i, z + j)
  {
    WindowAt(Meaning(p), x, z, w, h, i, j);
  }

  predicate Any4(id: int, a: int, b: int, c: int, d: int) {
    id == a || id == b || id == c || id == d
  }

  predicate Any4Oceanic(a: int, b: int, c: int, d: int) {
    IsOceanic(a) || IsOceanic(b) || IsOceanic(c) || IsOceanic(d)
  }

  predicate JFTO(v: int) {
    IsJungle(v) || v == FOREST || v == TAIGA || IsOceanic(v)
  }

  /** replaceOcean: returns whether it wrote the cell. */
  method ReplaceOcean(v10: int, v21: int, v01: int, v12: int, id: int, replaceID: int) returns (v: int, written: bool)
    ensures written == !IsOceanic(id)
    ensures v == if Any4Oceanic(v10, v21, v01, v12) then replaceID else id
  {
    v := if Any4Oceanic(v10, v21, v01, v12) then replaceID else id;
    written := !IsOceanic(id);
  }

  /** The body of mapShore's inner loop, and whether it writes its cell at all. */
  method ShoreValue(mc: int, v11: int, v10: int, v21: int, v01: int, v12: int) returns (v: int, written: bool)
    ensures written <==> !ShoreSkips(mc, v11)
    ensures written ==> v == ShoreCell(mc, v11, v10, v21, v01, v12)
  {
    ghost var around := [v10, v21, v01, v12];
    assert around[0] in around && around[1] in around && around[2] in around && around[3] in around;
    assert Any4(OCEAN, v10, v21, v01, v12) <==> exists u | u in around :: u == OCEAN;
    assert Any4Oceanic(v10, v21, v01, v12) <==> exists u | u in around :: IsOceanic(u);
    v, written := v11, true;
    if v11 == MUSHROOM_FIELDS {
      if Any4(OCEAN, v10, v21, v01, v12) {
        v := MUSHROOM_FIELD_SHORE;
      }
    } else if mc <= MC_1_0 {
    } else if mc <= MC_1_6 {
      if v11 == MOUNTAINS {
        if v10 != MOUNTAINS || v21 != MOUNTAINS || v01 != MOUNTAINS || v12 != MOUNTAINS {
          v := MOUNTAIN_EDGE;
        }
      } else if v11 != OCEAN && v11 != RIVER && v11 != SWAMP {
        if Any4(OCEAN, v10, v21, v01, v12) {
          v := BEACH;
        }
      }
    } else if IsJungle(v11) {
      if JFTO(v10) && JFTO(v21) && JFTO(v01) && JFTO(v12) {
        if Any4Oceanic(v10, v21, v01, v12) {
          v := BEACH;
        }
      } else {
        v := JUNGLE_EDGE;
      }
    } else if v11 == MOUNTAINS || v11 == WOODED_MOUNTAINS {
      v, written := ReplaceOcean(v10, v21, v01, v12, v11, STONE_SHORE);
    } else if IsSnowy(v11) {
      v, written := ReplaceOcean(v10, v21, v01, v12, v11, SNOWY_BEACH);
    } else if v11 == BADLANDS || v11 == WOODED_BADLANDS_PLATEAU {
      if !Any4Oceanic(v10, v21, v01, v12) {
        if !(IsMesa(v10) && IsMesa(v21) && IsMesa(v01) && IsMesa(v12)) {
          v := DESERT;
        }
      }
    } else {
      if v11 != OCEAN && v11 != DEEP_OCEAN && v11 != RIVER && v11 != SWAMP {
        if Any4Oceanic(v10, v21, v01, v12) {
          v := BEACH;
        }
      }
    }
  }

  // ----- zooms

  /** The four cells that a zoom makes of the parent cell (px, pz). */
  lemma ZoomCells(l: Layer, px: int, pz: int)
    requires ZoomFactor(l) == 2
    ensures
      var v00, v10 := F(l.p, px, pz), F(l.p, px + 1, pz);
      var v01, v11 := F(l.p, px, pz + 1), F(l.p, px + 1, pz + 1);
      var bx, bz := 2 * px, 2 * pz;
      && F(l, bx, bz) == v00
      && F(l, bx + 1, bz) == ZoomTop(l.seed, bx, bz, v00, v10)
      && F(l, bx, bz + 1) == ZoomLeft(l.seed, bx, bz, v00, v01)
      && F(l, bx + 1, bz + 1) == ZoomInner(l.ZoomFuzzy?, l.seed, bx, bz, v00, v01, v10, v11)
  {
    hide ZoomTop;
    hide ZoomLeft;
    hide ZoomInner;
    var bx, bz := 2 * px, 2 * pz;
    assert bx / 2 == px && (bx + 1) / 2 == px && bz / 2 == pz && (bz + 1) / 2 == pz;
    forall a, b | (a == bx || a == bx + 1) && (b == bz || b == bz + 1)
      ensures F(l, a, b) == ZoomAt(l.ZoomFuzzy?, l.seed, l.p, a, b)
    {
    }
  }

  /** One block of a doubled window, from parents at p0 and p1 and with its rows from r0 and r1 on:
      the top-left cell, and those whose parents to the right or below are in the parent's window. */
  ghost predicate BlockOf(l: Layer, src: seq<int>, big: seq<int>, p0: nat, p1: nat, r0: nat, r1: nat, bx: int, bz: int,
                          right: bool, below: bool)
    requires ZoomFactor(l) == 2
  {
    && p0 < |src| && r0 + 1 < r1 && r1 + 1 < |big|
    && (right ==> p0 + 1 < |src|) && (below ==> p1 < |src|) && (right && below ==> p1 + 1 < |src|)
    && big[r0] == src[p0]
    && (right ==> big[r0 + 1] == ZoomTop(l.seed, bx, bz, src[p0], src[p0 + 1]))
    && (below ==> big[r1] == ZoomLeft(l.seed, bx, bz, src[p0], src[p1]))
    && (right && below ==>
          big[r1 + 1] == ZoomInner(l.ZoomFuzzy?, l.seed, bx, bz, src[p0], src[p1], src[p0 + 1], src[p1 + 1]))
  }

  lemma BlockStep(l: Layer, pX: int, pZ: int, pW: nat, pH: nat, i: nat, j: nat)
    requires ZoomFactor(l) == 2 && i < pW && j < pH
    ensures BlockOf(l, Window(Meaning(l.p), pX, pZ, pW, pH), Window(Meaning(l), 2 * pX, 2 * pZ, 2 * pW, 2 * pH),
                    Area(pW, j) + i, Area(pW, j) + pW + i,
                    Area(2 * pW, 2 * j) + 2 * i, Area(2 * pW, 2 * j) + 2 * pW + 2 * i,
                    2 * (pX + i), 2 * (pZ + j), i + 1 < pW, j + 1 < pH)
  {
    hide Area;
    hide Window;
    hide ZoomTop;
    hide ZoomLeft;
    hide ZoomInner;
    hide F;
    ZoomCells(l, pX + i, pZ + j);
    var f, g, newW, newH := Meaning(l), Meaning(l.p), 2 * pW, 2 * pH;
    AreaNext(pW, j);
    AreaNext(newW, 2 * j);
    WindowAt(g, pX, pZ, pW, pH, i, j);
    WindowAt(f, 2 * pX, 2 * pZ, newW, newH, 2 * i, 2 * j);
    WindowAt(f, 2 * pX, 2 * pZ, newW, newH, 2 * i + 1, 2 * j + 1);
    if i + 1 < pW {
      WindowAt(g, pX, pZ, pW, pH, i + 1, j);
      WindowAt(f, 2 * pX, 2 * pZ, newW, newH, 2 * i + 1, 2 * j);
    }
    if j + 1 < pH {
      WindowAt(g, pX, pZ, pW, pH, i, j + 1);
      WindowAt(f, 2 * pX, 2 * pZ, newW, newH, 2 * i, 2 * j + 1);
      if i + 1 < pW {
        WindowAt(g, pX, pZ, pW, pH, i + 1, j + 1);
      }
    }
  }

  /** The shortcut of the zooms: four equal parents leave nothing to draw. */
  lemma UniformBlock(fuzzy: bool, seed: Seed, bx: int, bz: int, v: int)
    ensures ZoomTop(seed, bx, bz, v, v) == ZoomLeft(seed, bx, bz, v, v) == ZoomInner(fuzzy, seed, bx, bz, v, v, v, v) == v
  {
    hide ZoomSeed;
    hide ZoomStep;
    hide Draw2;
    hide Draw4;
  }

  /** One block of the zooms: the shortcut, or the draws in the order of the source. */
  method ZoomBlock(l: Layer, chunkX: int, chunkZ: int, v00: int, v01: int, v10: int, v11: int)
    returns (a: int, b: int, c: int, d: int)
    requires ZoomFactor(l) == 2
    ensures a == v00
    ensures b == ZoomTop(l.seed, chunkX, chunkZ, v00, v10)
    ensures c == ZoomLeft(l.seed, chunkX, chunkZ, v00, v01)
    ensures d == ZoomInner(l.ZoomFuzzy?, l.seed, chunkX, chunkZ, v00, v01, v10, v11)
  {
    hide ZoomSeed;
    hide ZoomStep;
    hide Draw2;
    hide ZoomCorner;
    if v00 == v01 && v00 == v10 && v00 == v11 {
      UniformBlock(l.ZoomFuzzy?, l.seed, chunkX, chunkZ, v00);
      a, b, c, d := v00, v00, v00, v00;
    } else {
      var st := l.seed.startSalt;
      var cs := ZoomSeed(l.seed, chunkX, chunkZ);
      a := v00;
      c := if Draw2(cs) == 1 then v01 else v00;
      cs := ZoomStep(cs, st);
      b := if Draw2(cs) == 1 then v10 else v00;
      d := ZoomCorner(l.ZoomFuzzy?, cs, st, v00, v01, v10, v11);
    }
  }

  /** Row r of the doubled buffer is right, up to its last cell. */
  ghost predicate BigRow(a: seq<int>, big: seq<int>, base: nat, newW: nat, r: nat) {
    && base + Area(newW, r) + newW <= |a| && Area(newW, r) + newW <= |big|
    && forall k :: base + Area(newW, r) <= k < base + Area(newW, r) + newW - 1 ==> a[k] == big[k - base]
  }

  method StoreBlock(out: array<int>, idx: nat, newW: nat, a: int, b: int, c: int, d: int)
    requires 2 <= newW && idx + newW + 1 < out.Length
    modifies out
    ensures out[idx] == a && out[idx + 1] == b && out[idx + newW] == c && out[idx + newW + 1] == d
    ensures forall k :: 0 <= k < out.Length && !(idx <= k < idx + 2) && !(idx + newW <= k < idx + newW + 2) ==>
      out[k] == old(out[k])
  {
    out[idx] := a;
    out[idx + newW] := c;
    out[idx + 1] := b;
    out[idx + newW + 1] := d;
  }

  /** The same zoom, of another parent. */
  predicate ZoomLike(l: Layer, m: Layer) {
    ZoomFactor(l) == 2 && ZoomFactor(m) == 2 && m.ZoomFuzzy? == l.ZoomFuzzy? && m.seed == l.seed
  }

  /** Block i of a pair of rows: two parents are carried in, two are read, four cells are
      written. Those that lie within the border of the parent's window are right. */
  method ZoomBlockAt(l: Layer, ghost m: Layer, out: array<int>, off: nat, pX: int, pZ: int, pW: nat, pH: nat,
                     i: nat, j: nat, idx: nat, v00: int, v01: int) returns (v10: int, v11: int)
    requires ZoomFactor(l) == 2 && ZoomLike(l, m) && i < pW && j < pH
    requires Holds(Window(Meaning(m.p), pX, pZ, pW, pH), out[..], off)
    requires off + 5 * Area(pW, pH) <= out.Length
    requires idx == off + Area(pW, pH) + Area(2 * pW, 2 * j) + 2 * i
    requires off + Area(pW, j) + i < out.Length && v00 == out[off + Area(pW, j) + i]
    requires j + 1 < pH ==> off + Area(pW, j) + pW + i < out.Length && v01 == out[off + Area(pW, j) + pW + i]
    modifies out
    ensures BlockWritten(Window(Meaning(m), 2 * pX, 2 * pZ, 2 * pW, 2 * pH), old(out[..]), out[..],
                         off + Area(pW, pH), 2 * pW, i, j, j + 1 == pH)
    ensures i + 1 < pW ==> off + Area(pW, j) + i + 1 < out.Length && v10 == out[off + Area(pW, j) + i + 1]
    ensures i + 1 < pW && j + 1 < pH ==>
      off + Area(pW, j) + pW + i + 1 < out.Length && v11 == out[off + Area(pW, j) + pW + i + 1]
  {
    hide Area;
    hide Window;
    hide Meaning;
    hide F;
    hide ZoomTop;
    hide ZoomLeft;
    hide ZoomInner;
    AreaQuadruple(pW, pH);
    AreaNext(pW, j);
    AreaMonotone(pW, j + 1, pW, pH);
    AreaMonotone(pW, 1, pW, pH);
    AreaNext(pW, 0);
    BlockStep(m, pX, pZ, pW, pH, i, j);
    v10, v11 := out[off + Area(pW, j) + i + 1], out[off + Area(pW, j) + pW + i + 1];
    var a, b, c, d := ZoomBlock(l, (i + pX) * 2, (j + pZ) * 2, v00, v01, v10, v11);
    StoreBlock(out, idx, 2 * pW, a, b, c, d);
  }

  /** The first `n` cells of rows 2j and 2j + 1 of the doubled buffer have been written and
      nothing outside these rows has changed. The last column is arbitrary, and so is the
      second row when it is the last of all. */
  ghost predicate PairUpTo(big: seq<int>, before: seq<int>, after: seq<int>, base: nat, newW: nat, j: nat, last: bool, n: nat) {
    var r0 := base + Area(newW, 2 * j);
    var r1 := r0 + newW;
    && |before| == |after| && Area(newW, 2 * j) + newW + newW <= |big| && base + |big| <= |after|
    && (forall k :: r0 <= k < r0 + n && k < r0 + newW - 1 ==> after[k] == big[k - base])
    && (!last ==> forall k :: r1 <= k < r1 + n && k < r1 + newW - 1 ==> after[k] == big[k - base])
    && (forall k :: 0 <= k < |after| && !(r0 <= k < r1 + newW) ==> after[k] == before[k])
  }

  /** Only the four cells of block i have changed, and those inside the border are right. */
  ghost predicate BlockWritten(big: seq<int>, before: seq<int>, after: seq<int>, base: nat, newW: nat, i: nat, j: nat, last: bool) {
    var idx := base + Area(newW, 2 * j) + 2 * i;
    && |before| == |after| && idx + newW + 1 < base + |big| <= |after|
    && after[idx] == big[idx - base]
    && (2 * i + 2 < newW ==> after[idx + 1] == big[idx + 1 - base])
    && (!last ==> after[idx + newW] == big[idx + newW - base])
    && (2 * i + 2 < newW && !last ==> after[idx + newW + 1] == big[idx + newW + 1 - base])
    && (forall k :: 0 <= k < |after| && !(idx <= k < idx + 2) && !(idx + newW <= k < idx + newW + 2) ==>
          after[k] == before[k])
  }

  lemma PairStep(big: seq<int>, before: seq<int>, mid: seq<int>, after: seq<int>, base: nat, newW: nat, i: nat, j: nat, last: bool)
    requires 2 * i + 2 <= newW
    requires PairUpTo(big, before, mid, base, newW, j, last, 2 * i)
    requires BlockWritten(big, mid, after, base, newW, i, j, last)
    ensures PairUpTo(big, before, after, base, newW, j, last, 2 * i + 2)
  {
    hide Area;
  }

  /** The parent's window in front of the doubled buffer survives. */
  lemma PairKeeps(win: seq<int>, off: nat, big: seq<int>, before: seq<int>, after: seq<int>, base: nat, newW: nat, j: nat, last: bool, n: nat)
    requires PairUpTo(big, before, after, base, newW, j, last, n)
    requires Holds(win, before, off) && off + |win| <= base
    ensures Holds(win, after, off)
  {
    hide Area;
  }

  /** Two rows of the doubled buffer. The parents read past the right and lower border of
      the parent's window are arbitrary; only the last column and the last row see them. */
  method ZoomBlockRow(l: Layer, ghost m: Layer, out: array<int>, off: nat, pX: int, pZ: int, pW: nat, pH: nat, j: nat)
    requires ZoomFactor(l) == 2 && ZoomLike(l, m) && 0 < pW && j < pH
    requires Holds(Window(Meaning(m.p), pX, pZ, pW, pH), out[..], off)
    requires off + 5 * Area(pW, pH) <= out.Length
    modifies out
    ensures PairUpTo(Window(Meaning(m), 2 * pX, 2 * pZ, 2 * pW, 2 * pH), old(out[..]), out[..],
                     off + Area(pW, pH), 2 * pW, j, j + 1 == pH, 2 * pW)
  {
    hide Area;
    hide Window;
    hide Meaning;
    hide F;
    hide BlockWritten, Holds, PairUpTo;
    var newW := 2 * pW;
    ghost var big := Window(Meaning(m), 2 * pX, 2 * pZ, newW, 2 * pH);
    ghost var base := off + Area(pW, pH);
    AreaQuadruple(pW, pH);
    AreaNext(pW, j);
    AreaMonotone(pW, j + 1, pW, pH);
    AreaMonotone(pW, 1, pW, pH);
    AreaNext(pW, 0);
    AreaNext(newW, 2 * j);
    AreaNext(newW, 2 * j + 1);
    AreaMonotone(newW, 2 * j + 2, newW, 2 * pH);
    if j + 1 < pH {
      AreaNext(pW, j + 1);
      AreaMonotone(pW, j + 2, pW, pH);
    }
    var idx := off + Area(pW, pH) + Area(newW, 2 * j);
    var v00, v01 := out[off + Area(pW, j)], out[off + Area(pW, j) + pW];
    var i := 0;
    PairNone(big, out[..], base, newW, j, j + 1 == pH);
    while i < pW
      invariant i <= pW && idx == base + Area(newW, 2 * j) + 2 * i
      invariant i < pW ==> v00 == out[off + Area(pW, j) + i]
      invariant i < pW && j + 1 < pH ==> v01 == out[off + Area(pW, j) + pW + i]
      invariant PairUpTo(big, old(out[..]), out[..], base, newW, j, j + 1 == pH, 2 * i)
      invariant Holds(Window(Meaning(m.p), pX, pZ, pW, pH), out[..], off)
    {
      ghost var mid := out[..];
      v00, v01 := ZoomBlockAt(l, m, out, off, pX, pZ, pW, pH, i, j, idx, v00, v01);
      PairStep(big, old(out[..]), mid, out[..], base, newW, i, j, j + 1 == pH);
      PairKeeps(Window(Meaning(m.p), pX, pZ, pW, pH), off, big, old(out[..]), out[..], base, newW, j, j + 1 == pH, 2 * i + 2);
      idx := idx + 2;
      i := i + 1;
    }
  }

  lemma PairNone(big: seq<int>, a: seq<int>, base: nat, newW: nat, j: nat, last: bool)
    requires Area(newW, 2 * j) + newW + newW <= |big| && base + |big| <= |a|
    ensures PairUpTo(big, a, a, base, newW, j, last, 0)
  {
    hide Area;
  }

  ghost predicate BigRows(a: seq<int>, big: seq<int>, base: nat, newW: nat, rows: int) {
    forall r :: 0 <= r < rows ==> BigRow(a, big, base, newW, r)
  }

  lemma BigRowKept(a: seq<int>, b: seq<int>, big: seq<int>, base: nat, newW: nat, r: nat, r': nat)
    requires BigRow(a, big, base, newW, r) && r < r' && |a| == |b|
    requires forall k :: 0 <= k < |a| && k < base + Area(newW, r') ==> b[k] == a[k]
    ensures BigRow(b, big, base, newW, r)
  {
    hide Area;
    AreaNext(newW, r);
    AreaMonotone(newW, r + 1, newW, r');
  }

  /** mapZoom and mapZoomFuzzy: the parent's window is doubled into the space behind it, and
      the wanted part is then moved, row by row, to the front. */
  method MapZoom(l: Layer, out: array<int>, off: nat, x: int, z: int, w: nat, h: nat) returns (ghost s: seq<int>)
    requires ZoomFactor(l) == 2
    requires off + CacheSize(l, w, h) <= out.Length
    modifies out
    ensures Yields(l, Box(x, z, w, h), s) && Filled(s, old(out[..]), out[..], off, CacheSize(l, w, h))
    decreases l, 0
  {
    hide Area, CacheSize, Window, Meaning, F, Yields, Shown, Filled, Holds, Outside;
    var pX, pZ := x / 2, z / 2;
    var pW, pH := (x + w) / 2 - pX + 1, (z + h) / 2 - pZ + 1;
    ZoomFits(l, w, h, pW, pH);
    CacheMonotone(l, w, h, w, h);
    AreaQuadruple(pW, pH);
    ghost var s0 := GetMap(l.p, out, off, pX, pZ, pW, pH);
    ghost var q := Shown(s0, Box(pX, pZ, pW, pH));
    ghost var m := Over(l, q, q);
    YieldsOne(l, Box(x, z, w, h), s0);
    s := Window(Meaning(m), x, z, w, h);
    ghost var before := out[..];
    FilledInside(s0, old(out[..]), before, off, CacheSize(l.p, pW, pH), off, CacheSize(l, w, h));
    DoubleRows(l, m, out, off, pX, pZ, pW, pH);
    ghost var doubled := out[..];
    MoveRows(m, out, off, x, z, w, h, pW, pH);
    ZoomFilled(s, old(out[..]), before, doubled, out[..], off, Area(w, h), off + Area(pW, pH), off + 5 * Area(pW, pH), CacheSize(l, w, h));
  }

  /** The whole of the doubled buffer. */
  method DoubleRows(l: Layer, ghost m: Layer, out: array<int>, off: nat, pX: int, pZ: int, pW: nat, pH: nat)
    requires ZoomFactor(l) == 2 && ZoomLike(l, m) && 0 < pW
    requires Holds(Window(Meaning(m.p), pX, pZ, pW, pH), out[..], off)
    requires off + 5 * Area(pW, pH) <= out.Length
    modifies out
    ensures BigRows(out[..], Window(Meaning(m), 2 * pX, 2 * pZ, 2 * pW, 2 * pH), off + Area(pW, pH), 2 * pW, 2 * pH - 1)
    ensures forall k :: 0 <= k < out.Length && !(off + Area(pW, pH) <= k < off + 5 * Area(pW, pH)) ==> out[k] == old(out[k])
  {
    hide Area, Window, Meaning, F, Holds, PairUpTo, BigRow;
    ghost var before := out[..];
    var newW := 2 * pW;
    ghost var base := off + Area(pW, pH);
    ghost var big, win := Window(Meaning(m), 2 * pX, 2 * pZ, newW, 2 * pH), Window(Meaning(m.p), pX, pZ, pW, pH);
    AreaQuadruple(pW, pH);
    var j := 0;
    while j < pH
      invariant j <= pH
      invariant Holds(win, out[..], off)
      invariant forall r :: 0 <= r < 2 * j && r < 2 * pH - 1 ==> BigRow(out[..], big, base, newW, r)
      invariant forall k :: 0 <= k < out.Length && !(base <= k < off + 5 * Area(pW, pH)) ==> out[k] == before[k]
    {
      ghost var prev := out[..];
      ZoomBlockRow(l, m, out, off, pX, pZ, pW, pH, j);
      AreaNext(newW, 2 * j);
      AreaNext(newW, 2 * j + 1);
      AreaMonotone(newW, 2 * j + 2, newW, 2 * pH);
      PairKeeps(win, off, big, prev, out[..], base, newW, j, j + 1 == pH, newW);
      PairRows(big, prev, out[..], base, newW, j, j + 1 == pH);
      forall r | 0 <= r < 2 * j
        ensures BigRow(out[..], big, base, newW, r)
      {
        BigRowKept(prev, out[..], big, base, newW, r, 2 * j);
      }
      j := j + 1;
    }
  }

  /** What a finished pair of rows says about them and about the rest. */
  lemma PairRows(big: seq<int>, before: seq<int>, after: seq<int>, base: nat, newW: nat, j: nat, last: bool)
    requires PairUpTo(big, before, after, base, newW, j, last, newW) && newW > 0
    ensures BigRow(after, big, base, newW, 2 * j) && (!last ==> BigRow(after, big, base, newW, 2 * j + 1))
    ensures |before| == |after|
    ensures forall k :: 0 <= k < |after| && !(base + Area(newW, 2 * j) <= k < base + Area(newW, 2 * j) + newW + newW) ==> after[k] == before[k]
  {
    hide Area;
    AreaNext(newW, 2 * j);
  }

  /** The parent's window, the doubled buffer behind it, and the rows moved to the front. */
  lemma ZoomFilled(win: seq<int>, start: seq<int>, before: seq<int>, doubled: seq<int>, after: seq<int>,
                   off: nat, part: nat, from: nat, to: nat, need: nat)
    requires Outside(start, before, off, need) && off <= from && to <= off + need && part <= need && off + need <= |before|
    requires |doubled| == |before| && forall k :: 0 <= k < |before| && !(from <= k < to) ==> doubled[k] == before[k]
    requires Filled(win, doubled, after, off, part)
    ensures Filled(win, start, after, off, need)
  {
  }

  lemma MovedCell(l: Layer, x: int, z: int, w: nat, h: nat, pW: nat, pH: nat, i: nat, j: nat)
    requires pW == (x + w) / 2 - x / 2 + 1 && pH == (z + h) / 2 - z / 2 + 1
    requires i < w && j < h
    ensures
      var win, big := Window(Meaning(l), x, z, w, h), Window(Meaning(l), 2 * (x / 2), 2 * (z / 2), 2 * pW, 2 * pH);
      var r := j + z % 2;
      && Area(w, j) + i < |win| && Area(2 * pW, r) + x % 2 + i < |big|
      && win[Area(w, j) + i] == big[Area(2 * pW, r) + x % 2 + i]
  {
    hide Area;
    hide Window;
    hide Meaning;
    WindowAt(Meaning(l), x, z, w, h, i, j);
    WindowAt(Meaning(l), 2 * (x / 2), 2 * (z / 2), 2 * pW, 2 * pH, i + x % 2, j + z % 2);
  }

  /** The final memmove loop. A row is copied as a whole, and no row lands on a later one. */
  method MoveRows(ghost l: Layer, out: array<int>, off: nat, x: int, z: int, w: nat, h: nat, pW: nat, pH: nat)
    requires pW == (x + w) / 2 - x / 2 + 1 && pH == (z + h) / 2 - z / 2 + 1
    requires off + 5 * Area(pW, pH) <= out.Length
    requires BigRows(out[..], Window(Meaning(l), 2 * (x / 2), 2 * (z / 2), 2 * pW, 2 * pH),
                     off + Area(pW, pH), 2 * pW, 2 * pH - 1)
    modifies out
    ensures Area(w, h) <= 5 * Area(pW, pH)
    ensures Filled(Window(Meaning(l), x, z, w, h), old(out[..]), out[..], off, Area(w, h))
  {
    hide Area;
    hide Window;
    hide Meaning;
    var newW, base := 2 * pW, off + Area(pW, pH);
    ghost var win, big := Window(Meaning(l), x, z, w, h), Window(Meaning(l), 2 * (x / 2), 2 * (z / 2), newW, 2 * pH);
    AreaQuadruple(pW, pH);
    AreaMonotone(w, h, newW, 2 * pH);
    AreaNext(w, 0);
    var j, row := 0, 0;
    while j < h
      invariant j <= h && row == Area(w, j) <= Area(w, h)
      invariant forall k :: off <= k < off + row ==> out[k] == win[k - off]
      invariant forall k :: 0 <= k < out.Length && !(off <= k < off + row) ==> out[k] == old(out[k])
    {
      var r := j + z % 2;
      AreaNext(w, j);
      AreaMonotone(w, j + 1, w, h);
      AreaMonotone(w, j, newW, r);
      AreaNext(newW, r);
      AreaMonotone(newW, r + 1, newW, 2 * pH);
      var from := base + Area(newW, r) + x % 2;
      assert r < 2 * pH - 1 && BigRow(old(out[..]), big, base, newW, r);
      forall k | from <= k < from + w
        ensures out[k] == win[row + k - from]
      {
        MovedCell(l, x, z, w, h, pW, pH, k - from, j);
      }
      forall k | off + row <= k < off + row + w {
        out[k] := out[k - off - row + from];
      }
      j, row := j + 1, row + w;
    }
  }

  // ----- two parents

  method MapRiverMix(l: Layer, out: array<int>, off: nat, x: int, z: int, w: nat, h: nat) returns (ghost s: seq<int>)
    requires l.RiverMix?
    requires off + CacheSize(l, w, h) <= out.Length
    modifies out
    ensures Yields(l, Box(x, z, w, h), s) && Filled(s, old(out[..]), out[..], off, CacheSize(l, w, h))
    decreases l, 0
  {
    hide Area, CacheSize, Window, Meaning, F, Filled, Holds, RowsDone, Outside, RiverMixCell, Mixed, Yields, Shown;
    ParentFits(l, l.p, w, h, w, h);
    ParentFits(l, l.p2, w, h, w, h);
    CacheMonotone(l, w, h, w, h);
    var len := Area(w, h);
    var buf := off + len;
    ghost var box := Box(x, z, w, h);
    ghost var s0 := GetMap(l.p, out, off, x, z, w, h);
    ghost var g := Window(Meaning(Shown(s0, box)), x, z, w, h);
    YieldsSize(l.p, box, s0);
    ShownWindow(s0, box);
    ghost var first := out[..];
    FilledInside(g, old(out[..]), first, off, CacheSize(l.p, w, h), off, CacheSize(l, w, h));
    ghost var s1 := GetMap(l.p2, out, buf, x, z, w, h);
    ghost var r := Window(Meaning(Shown(s1, box)), x, z, w, h);
    ghost var m := Over(l, Shown(s0, box), Shown(s1, box));
    YieldsTwo(l, box, s0, s1);
    ghost var win := Window(Meaning(m), x, z, w, h);
    s := win;
    ghost var base := out[..];
    FilledBehind(g, r, old(out[..]), first, base, buf, CacheSize(l.p2, w, h), off, CacheSize(l, w, h));
    RiverMixWindow(m, x, z, w, h);
    NoRowsDone(win, base, off);
    var idx := 0;
    while idx < len
      invariant idx <= len
      invariant RowsDone(win, base, out[..], off, idx)
    {
      RiverRead(l.mc, g, r, win, base, out[..], off, buf, idx);
      ghost var mid := out[..];
      var v := RiverMixValue(l.mc, out[off + idx], out[buf + idx]);
      out[off + idx] := v;
      CellWritten(win, mid, out[..], off, idx);
      RowsNext(win, base, mid, out[..], off, idx, 1);
      idx := idx + 1;
    }
    RowsFilled(win, old(out[..]), base, out[..], off, CacheSize(l, w, h));
  }

  /** Both parents still hold the element that comes next. */
  lemma RiverRead(mc: int, g: seq<int>, r: seq<int>, win: seq<int>, base: seq<int>, now: seq<int>, off: nat, buf: nat, idx: nat)
    requires Holds(g, base, off) && Holds(r, base, buf) && RowsDone(win, base, now, off, idx)
    requires Mixed(mc, win, g, r) && idx < |win| && off + |win| <= buf
    ensures off + idx < buf + idx < |now| && win[idx] == RiverMixCell(mc, now[off + idx], now[buf + idx])
  {
    hide RiverMixCell;
  }

  lemma CellWritten(win: seq<int>, before: seq<int>, after: seq<int>, off: nat, idx: nat)
    requires |before| == |after| && idx < |win| && off + idx < |after| && after[off + idx] == win[idx]
    requires forall k :: 0 <= k < |after| && k != off + idx ==> after[k] == before[k]
    ensures RowWritten(win, before, after, off, idx, 1)
  {
  }

  /** The body of mapRiverMix's loop. */
  method RiverMixValue(mc: int, land: int, river: int) returns (v: int)
    ensures v == RiverMixCell(mc, land, river)
  {
    v := land;
    if river == RIVER && v != OCEAN && (mc <= MC_1_6 || !IsOceanic(v)) {
      if v == SNOWY_TUNDRA {
        v := FROZEN_RIVER;
      } else if v == MUSHROOM_FIELDS || v == MUSHROOM_FIELD_SHORE {
        v := MUSHROOM_FIELD_SHORE;
      } else {
        v := RIVER;
      }
    }
  }

  /** mapHills: the biome branch is overwritten in place, the river branch lies behind it. */
  method MapHills(l: Layer, out: array<int>, off: nat, x: int, z: int, w: nat, h: nat) returns (ghost s: seq<int>)
    requires l.Hills?
    requires off + CacheSize(l, w, h) <= out.Length
    modifies out
    ensures Yields(l, Box(x, z, w, h), s) && Filled(s, old(out[..]), out[..], off, CacheSize(l, w, h))
    decreases l, 0
  {
    hide Area, CacheSize, Window, Meaning, F, Filled, Holds, RowsDone, Outside, ParentBelow, RowWritten, Yields, Shown;
    var pX, pZ, pW, pH := x - 1, z - 1, w + 2, h + 2;
    ParentFits(l, l.p, w, h, pW, pH);
    ParentFits(l, l.p2, w, h, pW, pH);
    CacheMonotone(l, w, h, w, h);
    AreaMonotone(w, h, pW, pH);
    var riv := off + Area(pW, pH);
    ghost var box := Box(pX, pZ, pW, pH);
    ghost var s0 := GetMap(l.p, out, off, pX, pZ, pW, pH);
    ghost var bio := Window(Meaning(Shown(s0, box)), pX, pZ, pW, pH);
    ghost var first := out[..];
    YieldsSize(l.p, box, s0);
    ShownWindow(s0, box);
    FilledInside(bio, old(out[..]), first, off, CacheSize(l.p, pW, pH), off, CacheSize(l, w, h));
    ghost var s1 := GetMap(l.p2, out, riv, pX, pZ, pW, pH);
    ghost var rivers := Window(Meaning(Shown(s1, box)), pX, pZ, pW, pH);
    ghost var m := Over(l, Shown(s0, box), Shown(s1, box));
    YieldsTwo(l, Box(x, z, w, h), s0, s1);
    ghost var win := Window(Meaning(m), x, z, w, h);
    s := win;
    ghost var base := out[..];
    FilledBehind(bio, rivers, old(out[..]), first, base, riv, CacheSize(l.p2, pW, pH), off, CacheSize(l, w, h));
    NoRowsDone(win, base, off);
    AreaNext(w, 0);
    AreaNext(pW, 0);
    var j, row, pRow := 0, 0, 0;
    while j < h
      invariant j <= h && row == Area(w, j) && pRow == Area(pW, j)
      invariant RowsDone(win, base, out[..], off, row)
    {
      AreaNext(w, j);
      AreaNext(pW, j);
      ParentLeft(Meaning(m.p), win, base, out[..], off, x, z, w, h, j, row, pRow);
      SecondLeft(rivers, win, base, out[..], off, riv, row);
      ghost var mid := out[..];
      HillsRow(l, m, out, off, x, z, w, h, j, row, pRow, riv);
      RowsNext(win, base, mid, out[..], off, row, w);
      j, row, pRow := j + 1, row + w, pRow + pW;
    }
    RowsFilled(win, old(out[..]), base, out[..], off, CacheSize(l, w, h));
  }

  /** What the layer means at (i, j), in terms of the parent cells in the buffer. */
  lemma HillsStep(l: Layer, x: int, z: int, w: nat, h: nat, i: nat, j: nat)
    requires l.Hills? && i < w && j < h
    ensures
      var src := Window(Meaning(l.p), x - 1, z - 1, w + 2, h + 2);
      var riv := Window(Meaning(l.p2), x - 1, z - 1, w + 2, h + 2);
      var r0 := Area(w + 2, j);
      var r1 := r0 + w + 2;
      var r2 := r1 + w + 2;
      && Area(w, j) <= r0 && r2 + i + 2 < |src| == |riv| && Area(w, j) + i < Area(w, h)
      && Window(Meaning(l), x, z, w, h)[Area(w, j) + i]
         == HillsCell(l.similar, l.mc, l.seed, i + x, j + z, src[r1 + i + 1], src[r0 + i + 1], src[r1 + i + 2], src[r1 + i],
                      src[r2 + i + 1], riv[r1 + i + 1])
  {
    hide HillsCell;
    hide Area;
    hide Window;
    WindowAt(Meaning(l), x, z, w, h, i, j);
    NineCells(Meaning(l.p), x, z, w, h, i, j);
    NineCells(Meaning(l.p2), x, z, w, h, i, j);
  }

  /** The buffer still holds what cell (i, j) of the layer depends on. */
  lemma HillsRead(l: Layer, base: seq<int>, now: seq<int>, off: nat, x: int, z: int, w: nat, h: nat, i: nat, j: nat,
                  row: nat, pRow: nat, riv: nat)
    requires l.Hills? && i < w && j < h && row == Area(w, j) && pRow == Area(w + 2, j) && riv == off + Area(w + 2, h + 2)
    requires ParentBelow(Meaning(l.p), base, off, x, z, w, h, row, pRow)
    requires Holds(Window(Meaning(l.p2), x - 1, z - 1, w + 2, h + 2), base, riv)
    requires |now| == |base| && forall k :: off + row + i <= k < |base| ==> now[k] == base[k]
    ensures
      var win := Window(Meaning(l), x, z, w, h);
      var r1 := pRow + w + 2;
      && row <= pRow && off + r1 + w + 2 + i + 1 < |now| && riv + r1 + i + 1 < |now| && row + i < |win|
      && win[row + i] == HillsCell(l.similar, l.mc, l.seed, i + x, j + z, now[off + r1 + i + 1], now[off + pRow + i + 1],
                                   now[off + r1 + i + 2], now[off + r1 + i], now[off + r1 + w + 2 + i + 1], now[riv + r1 + i + 1])
  {
    hide Area, Window, Meaning, F, HillsCell;
    HillsStep(l, x, z, w, h, i, j);
  }

  method HillsRow(l: Layer, ghost m: Layer, out: array<int>, off: nat, x: int, z: int, w: nat, h: nat, j: nat, row: nat, pRow: nat, riv: nat)
    requires l.Hills? && m.Hills? && m.mc == l.mc && m.seed == l.seed && m.similar == l.similar && j < h && row == Area(w, j) && pRow == Area(w + 2, j) && riv == off + Area(w + 2, h + 2)
    requires ParentBelow(Meaning(m.p), out[..], off, x, z, w, h, row, pRow)
    requires Holds(Window(Meaning(m.p2), x - 1, z - 1, w + 2, h + 2), out[..], riv)
    modifies out
    ensures RowWritten(Window(Meaning(m), x, z, w, h), old(out[..]), out[..], off, row, w)
  {
    hide Area, Window, Meaning, F, HillsCell, ParentBelow, Holds;
    ghost var win := Window(Meaning(m), x, z, w, h);
    AreaNext(w, j);
    AreaMonotone(w, j + 1, w, h);
    RowInside(Meaning(m.p), out[..], off, x, z, w, h, row, pRow);
    var pW := w + 2;
    var vz0, vz1, vz2 := off + pRow, off + pRow + pW, off + pRow + pW + pW;
    var i := 0;
    while i < w
      invariant i <= w
      invariant forall k :: off + row <= k < off + row + i ==> out[k] == win[k - off]
      invariant forall k :: 0 <= k < out.Length && !(off + row <= k < off + row + i) ==> out[k] == old(out[k])
    {
      HillsRead(m, old(out[..]), out[..], off, x, z, w, h, i, j, row, pRow, riv);
      var a11, a10, a21, a01, a12 := out[vz1 + i + 1], out[vz0 + i + 1], out[vz1 + i + 2], out[vz1 + i], out[vz2 + i + 1];
      var v := HillsValue(l.similar, l.mc, l.seed, i + x, j + z, a11, a10, a21, a01, a12, out[riv + pRow + pW + i + 1]);
      out[off + row + i] := v;
      i := i + 1;
    }
  }

  lemma RowInside(g: Plane, a: seq<int>, off: nat, x: int, z: int, w: nat, h: nat, row: nat, pRow: nat)
    requires ParentBelow(g, a, off, x, z, w, h, row, pRow)
    ensures off + row + w <= |a| && off + pRow + 3 * (w + 2) <= |a|
  {
    hide Window;
  }

  /** The remainder in C, which takes the sign of the dividend. */
  function Rem(a: int, m: nat): int
    requires m > 0
  {
    if a >= 0 then a % m else -((-a) % m)
  }

  /** The body of mapHills' inner loop. */
  method HillsValue(similar: Similar, mc: int, seed: Seed, x: int, z: int, a11: int, a10: int, a21: int, a01: int, a12: int, b11: int)
    returns (v: int)
    ensures v == HillsCell(similar, mc, seed, x, z, a11, a10, a21, a01, a12, b11)
  {
    hide McFirstIsZero, GetChunkSeed, HillOf;
    var bn := -1;
    if mc >= MC_1_7 {
      bn := Rem(b11 - 2, 29);
    }
    SameRemainder(b11 - 2);
    if bn == 1 && b11 >= 2 && !IsShallowOcean(a11) {
      var m := GetMutated(mc, a11);
      return if m > 0 then m else a11;
    }
    var cs := GetChunkSeed(seed.startSeed, x, z);
    if !(bn == 0 || McFirstIsZero(cs, 3)) {
      return a11;
    }
    var hillID := HillID(similar, mc, cs, seed.startSalt, a11);
    if bn == 0 && hillID != a11 {
      hillID := GetMutated(mc, hillID);
      if hillID < 0 {
        hillID := a11;
      }
    }
    if hillID == a11 {
      return a11;
    }
    var equals := 0;
    if similar(mc, a10, a11) { equals := equals + 1; }
    if similar(mc, a21, a11) { equals := equals + 1; }
    if similar(mc, a01, a11) { equals := equals + 1; }
    if similar(mc, a12, a11) { equals := equals + 1; }
    CountFour(similar, mc, a11, a10, a21, a01, a12);
    return if equals >= 3 + (if mc <= MC_1_6 then 1 else 0) then hillID else a11;
  }

  lemma SameRemainder(a: int)
    ensures Rem(a, 29) == 0 <==> a % 29 == 0
    ensures a >= 0 ==> Rem(a, 29) == a % 29
  {
    var q, r := (-a) / 29, (-a) % 29;
    if r == 0 {
      ModUnique(-q, 0, 29);
    } else {
      ModUnique(-q - 1, 29 - r, 29);
    }
  }

  lemma CountFour(similar: Similar, mc: int, v: int, a: int, b: int, c: int, d: int)
    ensures SimilarCount(similar, mc, v, [a, b, c, d])
            == (if similar(mc, a, v) then 1 else 0) + (if similar(mc, b, v) then 1 else 0)
             + (if similar(mc, c, v) then 1 else 0) + (if similar(mc, d, v) then 1 else 0)
  {
    var one := (u: int) => if similar(mc, u, v) then 1 else 0;
    assert [a, b, c, d][1..] == [b, c, d] && [b, c, d][1..] == [c, d] && [c, d][1..] == [d] && [d][1..] == [];
    assert SimilarCount(similar, mc, v, [d]) == one(d);
    assert SimilarCount(similar, mc, v, [c, d]) == one(c) + one(d);
    assert SimilarCount(similar, mc, v, [b, c, d]) == one(b) + one(c) + one(d);
  }

  /** The switch of mapHills, with the draws where the source makes them. */
  method HillID(similar: Similar, mc: int, cs0: nat, st: nat, a11: int) returns (hillID: int)
    ensures hillID == HillOf(similar, mc, cs0, st, a11)
  {
    hide McFirstIsZero, McStepSeed;
    var cs := cs0;
    hillID := a11;
    if a11 == DESERT { hillID := DESERT_HILLS; }
    else if a11 == FOREST { hillID := WOODED_HILLS; }
    else if a11 == BIRCH_FOREST { hillID := BIRCH_FOREST_HILLS; }
    else if a11 == DARK_FOREST { hillID := PLAINS; }
    else if a11 == TAIGA { hillID := TAIGA_HILLS; }
    else if a11 == GIANT_TREE_TAIGA { hillID := GIANT_TREE_TAIGA_HILLS; }
    else if a11 == SNOWY_TAIGA { hillID := SNOWY_TAIGA_HILLS; }
    else if a11 == PLAINS {
      if mc <= MC_1_6 {
        hillID := FOREST;
      } else {
        cs := McStepSeed(cs, st);
        hillID := if McFirstIsZero(cs, 3) then WOODED_HILLS else FOREST;
      }
    }
    else if a11 == SNOWY_TUNDRA { hillID := SNOWY_MOUNTAINS; }
    else if a11 == JUNGLE { hillID := JUNGLE_HILLS; }
    else if a11 == BAMBOO_JUNGLE { hillID := BAMBOO_JUNGLE_HILLS; }
    else if a11 == OCEAN { if mc >= MC_1_7 { hillID := DEEP_OCEAN; } }
    else if a11 == MOUNTAINS { if mc >= MC_1_7 { hillID := WOODED_MOUNTAINS; } }
    else if a11 == SAVANNA { hillID := SAVANNA_PLATEAU; }
    else if similar(mc, a11, WOODED_BADLANDS_PLATEAU) { hillID := BADLANDS; }
    else if IsDeepOcean(a11) {
      cs := McStepSeed(cs, st);
      if McFirstIsZero(cs, 3) {
        cs := McStepSeed(cs, st);
        hillID := if McFirstIsZero(cs, 2) then PLAINS else FOREST;
      }
    }
  }

  /** Both parents are asked for the same window, so the mix is element by element. */
  ghost predicate Mixed(mc: int, f: seq<int>, g: seq<int>, r: seq<int>) {
    |f| == |g| == |r| && forall k :: 0 <= k < |f| ==> f[k] == RiverMixCell(mc, g[k], r[k])
  }

  lemma RiverMixWindow(l: Layer, x: int, z: int, w: nat, h: nat)
    requires l.RiverMix?
    ensures Mixed(l.mc, Window(Meaning(l), x, z, w, h), Window(Meaning(l.p), x, z, w, h), Window(Meaning(l.p2), x, z, w, h))
  {
    hide RiverMixCell;
    hide Window;
    WindowPointwise(Meaning(l), Meaning(l.p), Meaning(l.p2), (u, v) => RiverMixCell(l.mc, u, v), x, z, w, h);
  }

  method MapOceanMix(l: Layer, out: array<int>, off: nat, x: int, z: int, w: nat, h: nat) returns (ghost s: seq<int>)
    requires l.OceanMix?
    requires off + CacheSize(l, w, h) <= out.Length
    modifies out
    ensures Yields(l, Box(x, z, w, h), s) && Filled(s, old(out[..]), out[..], off, CacheSize(l, w, h))
    decreases l, 0
  {
    hide Area, CacheSize, Window, Meaning, F, Filled, Holds, RowsDone, Outside, RowWritten, Yields, Shown, BorderAround;
    ParentFits(l, l.p2, w, h, w, h);
    CacheMonotone(l, w, h, w, h);
    ghost var box := Box(x, z, w, h);
    AreaMonotone(w, h, w + 17, h + 17);
    ghost var s1 := GetMap(l.p2, out, off, x, z, w, h);
    ghost var q2 := Shown(s1, box);
    ghost var sea := Window(Meaning(q2), x, z, w, h);
    YieldsSize(l.p2, box, s1);
    ShownWindow(s1, box);
    ghost var first := out[..];
    FilledInside(sea, old(out[..]), first, off, CacheSize(l.p2, w, h), off, CacheSize(l, w, h));
    var lx0, lx1, lz0, lz1 := OceanBorder(q2, out, off, x, z, w, h);
    var lw, lh := lx1 - lx0, lz1 - lz0;
    ParentFits(l, l.p, w, h, lw, lh);
    var land := off + Area(w, h);
    BorderIs(q2, x, z, w, h, lx0, lx1, lz0, lz1);
    ghost var field := Box(x + lx0, z + lz0, lw, lh);
    ghost var s0 := GetMap(l.p, out, land, x + lx0, z + lz0, lw, lh);
    ghost var m := Over(l, Shown(s0, field), q2);
    YieldsOcean(l, box, field, s0, s1);
    ghost var win := Window(Meaning(m), x, z, w, h);
    s := win;
    ghost var lands := Window(Meaning(Shown(s0, field)), x + lx0, z + lz0, lw, lh);
    ghost var base := out[..];
    FilledBehind(sea, lands, old(out[..]), first, base, land, CacheSize(l.p, lw, lh), off, CacheSize(l, w, h));
    NoRowsDone(win, base, off);
    AreaNext(w, 0);
    var j, row := 0, 0;
    while j < h
      invariant j <= h && row == Area(w, j)
      invariant RowsDone(win, base, out[..], off, row)
    {
      AreaNext(w, j);
      SecondLeft(lands, win, base, out[..], off, land, row);
      FirstLeft(sea, win, base, out[..], off, row);
      ghost var mid := out[..];
      OceanMixRow(m, out, off, x, z, w, h, lx0, lz0, lw, lh, land, j, row);
      RowsNext(win, base, mid, out[..], off, row, w);
      j, row := j + 1, row + w;
    }
    RowsFilled(win, old(out[..]), base, out[..], off, CacheSize(l, w, h));
  }

  lemma FirstLeft(first: seq<int>, win: seq<int>, base: seq<int>, now: seq<int>, off: nat, row: nat)
    requires Holds(first, base, off) && RowsDone(win, base, now, off, row) && |first| == |win|
    ensures HoldsFrom(first, now, off, row)
  {
  }

  /** So it does for all extreme cells of the first b rows, and of the first a cells of row b. */
  ghost predicate BorderSeen(p2: Layer, x: int, z: int, w: nat, lx0: int, lx1: int, lz0: int, lz1: int, a: int, b: int) {
    forall a', b' :: 0 <= a' < w && 0 <= b' && (b' < b || (b' == b && a' < a)) && ExtremeAt(p2, x, z, a', b') ==>
      Within(lx0, lx1, lz0, lz1, a', b')
  }

  /** A wider box that also reaches past the next cell. */
  lemma BorderStep(p2: Layer, x: int, z: int, w: nat, lx0: int, lx1: int, lz0: int, lz1: int,
                   nx0: int, nx1: int, nz0: int, nz1: int, a: int, b: int)
    requires BorderSeen(p2, x, z, w, lx0, lx1, lz0, lz1, a, b)
    requires nx0 <= lx0 && lx1 <= nx1 && nz0 <= lz0 && lz1 <= nz1
    requires ExtremeAt(p2, x, z, a, b) ==> Within(nx0, nx1, nz0, nz1, a, b)
    ensures BorderSeen(p2, x, z, w, nx0, nx1, nz0, nz1, a + 1, b)
  {
    hide ExtremeAt;
  }

  predicate BorderRange(w: nat, h: nat, lx0: int, lx1: int, lz0: int, lz1: int) {
    -8 <= lx0 <= 0 && w <= lx1 <= w + 8 && -8 <= lz0 <= 0 && h <= lz1 <= h + 8
  }

  /** The minimum land area: the border is only added around warm or frozen ocean, and cells
      deep inside the window are not even looked at. */
  method OceanBorder(ghost p2: Layer, out: array<int>, off: nat, x: int, z: int, w: nat, h: nat)
    returns (lx0: int, lx1: int, lz0: int, lz1: int)
    requires Holds(Window(Meaning(p2), x, z, w, h), out[..], off)
    ensures BorderRange(w, h, lx0, lx1, lz0, lz1)
    ensures forall a, b :: 0 <= a < w && 0 <= b < h && ExtremeAt(p2, x, z, a, b) ==> Within(lx0, lx1, lz0, lz1, a, b)
  {
    hide Area, Window, ExtremeAt, Within;
    lx0, lx1, lz0, lz1 := 0, w, 0, h;
    AreaNext(w, 0);
    var j, row := 0, 0;
    while j < h
      invariant j <= h && row == Area(w, j)
      invariant BorderRange(w, h, lx0, lx1, lz0, lz1) && BorderSeen(p2, x, z, w, lx0, lx1, lz0, lz1, 0, j)
    {
      AreaNext(w, j);
      AreaMonotone(w, j + 1, w, h);
      var jcentre := j - 8 > 0 && j + 9 < h;
      var i := 0;
      while i < w
        invariant i <= w
        invariant BorderRange(w, h, lx0, lx1, lz0, lz1) && BorderSeen(p2, x, z, w, lx0, lx1, lz0, lz1, i, j)
      {
        lx0, lx1, lz0, lz1 := BorderCell(p2, out, off, x, z, w, h, lx0, lx1, lz0, lz1, i, j, row, jcentre);
        i := i + 1;
      }
      j, row := j + 1, row + w;
    }
  }

  method BorderCell(ghost p2: Layer, out: array<int>, off: nat, x: int, z: int, w: nat, h: nat,
                    lx0: int, lx1: int, lz0: int, lz1: int, i: nat, j: nat, row: nat, jcentre: bool)
    returns (nx0: int, nx1: int, nz0: int, nz1: int)
    requires Holds(Window(Meaning(p2), x, z, w, h), out[..], off)
    requires i < w && j < h && row == Area(w, j) && (jcentre <==> j - 8 > 0 && j + 9 < h)
    requires BorderRange(w, h, lx0, lx1, lz0, lz1) && BorderSeen(p2, x, z, w, lx0, lx1, lz0, lz1, i, j)
    ensures BorderRange(w, h, nx0, nx1, nz0, nz1) && BorderSeen(p2, x, z, w, nx0, nx1, nz0, nz1, i + 1, j)
  {
    hide Area, Window, F, BorderSeen;
    nx0, nx1, nz0, nz1 := lx0, lx1, lz0, lz1;
    if !(jcentre && i - 8 > 0 && i + 9 < w) {
      WindowAt(Meaning(p2), x, z, w, h, i, j);
      var oceanID := out[off + row + i];
      if oceanID == WARM_OCEAN || oceanID == FROZEN_OCEAN {
        if i - 8 < nx0 {
          nx0 := i - 8;
        }
        if i + 9 > nx1 {
          nx1 := i + 9;
        }
        if j - 8 < nz0 {
          nz0 := j - 8;
        }
        if j + 9 > nz1 {
          nz1 := j + 9;
        }
      }
    }
    BorderStep(p2, x, z, w, lx0, lx1, lz0, lz1, nx0, nx1, nz0, nz1, i, j);
  }

  /** The buffer still holds the window from its element `row` on. */
  ghost predicate HoldsFrom(win: seq<int>, a: seq<int>, off: nat, row: nat) {
    && row <= |win| && off + |win| <= |a|
    && forall k :: off + row <= k < off + |win| ==> a[k] == win[k - off]
  }

  /** One row of mapOceanMix: the land window lies behind the ocean window in the buffer. */
  method OceanMixRow(ghost l: Layer, out: array<int>, off: nat, x: int, z: int, w: nat, h: nat,
                     lx0: int, lz0: int, lw: nat, lh: nat, land: nat, j: nat, row: nat)
    requires l.OceanMix? && j < h && row == Area(w, j) && land == off + Area(w, h)
    requires BorderAround(l.p2, x, z, w, h, lx0, lz0, lw, lh)
    requires Holds(Window(Meaning(l.p), x + lx0, z + lz0, lw, lh), out[..], land)
    requires HoldsFrom(Window(Meaning(l.p2), x, z, w, h), out[..], off, row)
    modifies out
    ensures RowWritten(Window(Meaning(l), x, z, w, h), old(out[..]), out[..], off, row, w)
  {
    hide Area, Window, BorderAround, F;
    ghost var win := Window(Meaning(l), x, z, w, h);
    AreaNext(w, j);
    AreaMonotone(w, j + 1, w, h);
    var i := 0;
    while i < w
      invariant i <= w
      invariant forall k :: off + row <= k < off + row + i ==> out[k] == win[k - off]
      invariant forall k :: 0 <= k < out.Length && !(off + row <= k < off + row + i) ==> out[k] == old(out[k])
    {
      WindowAt(Meaning(l), x, z, w, h, i, j);
      WindowAt(Meaning(l.p2), x, z, w, h, i, j);
      var v := OceanMixAt(l, out, x, z, w, h, lx0, lz0, lw, lh, land, i, j, out[off + row + i]);
      out[off + row + i] := v;
      i := i + 1;
    }
  }

  /** One cell of mapOceanMix. */
  method OceanMixAt(ghost l: Layer, out: array<int>, x: int, z: int, w: nat, h: nat,
                    lx0: int, lz0: int, lw: nat, lh: nat, land: nat, i: nat, j: nat, oceanID: int) returns (v: int)
    requires l.OceanMix? && i < w && j < h && oceanID == F(l.p2, x + i, z + j)
    requires BorderAround(l.p2, x, z, w, h, lx0, lz0, lw, lh)
    requires Holds(Window(Meaning(l.p), x + lx0, z + lz0, lw, lh), out[..], land)
    ensures v == F(l, x + i, z + j)
  {
    hide Area, Window, LandNear;
    assert ExtremeAt(l.p2, x, z, i, j) <==> Extreme(oceanID);
    WindowAt(Meaning(l.p), x + lx0, z + lz0, lw, lh, i - lx0, j - lz0);
    var landID := out[land + Area(lw, j - lz0) + (i - lx0)];
    v := landID;
    if IsOceanic(landID) {
      var replaceID := if oceanID == WARM_OCEAN then LUKEWARM_OCEAN else if oceanID == FROZEN_OCEAN then COLD_OCEAN else 0;
      var near := false;
      if replaceID != 0 {
        near := ScanLand(l.p, out, land, x, z, lx0, lz0, lw, lh, i, j);
      }
      v := if near then replaceID else DeepVariant(landID, oceanID);
    }
  }

  /** The five by five scan of mapOceanMix, with its early exit. */
  method ScanLand(ghost p: Layer, out: array<int>, land: nat, x: int, z: int,
                  lx0: int, lz0: int, lw: nat, lh: nat, i: int, j: int) returns (near: bool)
    requires lx0 <= i - 8 && i + 9 <= lx0 + lw && lz0 <= j - 8 && j + 9 <= lz0 + lh
    requires Holds(Window(Meaning(p), x + lx0, z + lz0, lw, lh), out[..], land)
    ensures near <==> LandNear(p, x + i, z + j)
  {
    hide Area;
    hide Window;
    hide F;
    ghost var cx, cz := x + i, z + j;
    var a := 0;
    while a < 5
      invariant 0 <= a <= 5
      invariant forall a', b' :: 0 <= a' < a && 0 <= b' < 5 ==> IsOceanic(Near(p, cx, cz, a', b'))
    {
      var ii := -8 + 4 * a;
      var b := 0;
      while b < 5
        invariant 0 <= b <= 5
        invariant forall b' :: 0 <= b' < b ==> IsOceanic(Near(p, cx, cz, a, b'))
      {
        var jj := -8 + 4 * b;
        WindowAt(Meaning(p), x + lx0, z + lz0, lw, lh, i + ii - lx0, j + jj - lz0);
        var id := out[land + Area(lw, j + jj - lz0) + (i + ii - lx0)];
        assert id == Near(p, cx, cz, a, b);
        if !IsOceanic(id) {
          return true;
        }
        b := b + 1;
      }
      a := a + 1;
    }
    near := false;
  }

  // ----- dispatch

  method GetMap(l: Layer, out: array<int>, off: nat, x: int, z: int, w: nat, h: nat) returns (ghost s: seq<int>)
    requires off + CacheSize(l, w, h) <= out.Length
    modifies out
    ensures Yields(l, Box(x, z, w, h), s) && Filled(s, old(out[..]), out[..], off, CacheSize(l, w, h))
    ensures ShoreSafe(l) ==> s == Window(Meaning(l), x, z, w, h)
    decreases l, 1
  {
    hide Yields, Filled, CacheSize, Window, Meaning;
    match l {
      case Continent(_) => s := MapContinent(l, out, off, x, z, w, h);
      case OceanTemp(_) => s := MapOceanTemp(l, out, off, x, z, w, h);
      case ZoomFuzzy(_, _) => s := MapZoom(l, out, off, x, z, w, h);
      case Zoom(_, _) => s := MapZoom(l, out, off, x, z, w, h);
      case Shore(_, _) => s := MapShore(l, out, off, x, z, w, h);
      case Point(_, _, _) => s := MapPoint(l, out, off, x, z, w, h);
      case Hills(_, _, _, _, _) => s := MapHills(l, out, off, x, z, w, h);
      case RiverMix(_, _, _) => s := MapRiverMix(l, out, off, x, z, w, h);
      case OceanMix(_, _) => s := MapOceanMix(l, out, off, x, z, w, h);
      case _ => s := MapStencil(l, out, off, x, z, w, h);
    }
    if ShoreSafe(l) {
      YieldsSafe(l, Box(x, z, w, h), s);
    }
  }

  /** genArea: for every tree and window the result is one of the contents that the tree can leave,
      within the first getMinLayerCacheSize cells of the buffer; the rest of the buffer is never
      touched. Without stale cells it is the layer's plane, whatever the window. */
  method GenArea(l: Layer, out: array<int>, x: int, z: int, w: nat, h: nat) returns (ghost s: seq<int>)
    requires CacheSize(l, w, h) <= out.Length
    modifies out
    ensures Yields(l, Box(x, z, w, h), s) && Area(w, h) <= out.Length && out[..Area(w, h)] == s
    ensures ShoreSafe(l) ==> forall i: nat, j: nat :: i < w && j < h ==>
      Index(w, i, j) < out.Length && out[Index(w, i, j)] == F(l, x + i, z + j)
    ensures forall k :: CacheSize(l, w, h) <= k < out.Length ==> out[k] == old(out[k])
  {
    hide Area, CacheSize, Window, Filled, Yields, ShoreSafe;
    CacheMonotone(l, w, h, w, h);
    forall k | 0 <= k < Area(w, h) {
      out[k] := 0;
    }
    ghost var zeroed := out[..];
    s := GetMap(l, out, 0, x, z, w, h);
    YieldsSize(l, Box(x, z, w, h), s);
    FilledBeyond(s, zeroed, out[..], CacheSize(l, w, h));
    if ShoreSafe(l) {
      forall i: nat, j: nat | i < w && j < h
        ensures Index(w, i, j) < out.Length && out[Index(w, i, j)] == F(l, x + i, z + j)
      {
        FilledCell(l, zeroed, out[..], x, z, w, h, i, j);
      }
    }
  }

  lemma FilledCell(l: Layer, before: seq<int>, after: seq<int>, x: int, z: int, w: nat, h: nat, i: nat, j: nat)
    requires i < w && j < h && Filled(Window(Meaning(l), x, z, w, h), before, after, 0, CacheSize(l, w, h))
    ensures Index(w, i, j) < |after| && after[Index(w, i, j)] == F(l, x + i, z + j)
  {
    hide Area, CacheSize, Window, F;
    WindowAt(Meaning(l), x, z, w, h, i, j);
  }

  lemma FilledBeyond(win: seq<int>, before: seq<int>, after: seq<int>, need: nat)
    requires Filled(win, before, after, 0, need)
    ensures |before| == |after| && forall k :: need <= k < |after| ==> after[k] == before[k]
    ensures |win| <= |after| && after[..|win|] == win
  {
  }
}
