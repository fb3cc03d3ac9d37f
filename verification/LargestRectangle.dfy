/** The largest rectangle search of finders.c: for each column, from the right, the lengths of the
    runs that start there are swept downwards with a stack of open bars. */
module LargestRectangle {
  import opened Points
  import opened Products

  /** A grid listed row by row, and the value to look for. */
  datatype Grid = Grid(ids: seq<int>, sx: nat, sz: nat, target: int) {
    predicate Valid() {
      Area(sx, sz) <= |ids|
    }
  }

  predicate Hit(g: Grid, x: int, z: int) {
    0 <= x < g.sx && 0 <= z < g.sz && Area(g.sx, z) + x < |g.ids| && g.ids[Area(g.sx, z) + x] == g.target
  }

  /** The w by d rectangle at (x, z) holds nothing but matches. */
  predicate AllHit(g: Grid, x: nat, z: nat, w: nat, d: nat) {
    forall u, v :: x <= u < x + w && z <= v < z + d ==> Hit(g, u, v)
  }

  /** Some row further down has a gap in the rectangle's columns. */
  ghost predicate Blocked(g: Grid, x: nat, z: nat, w: nat, d: nat) {
    exists u, r :: x <= u < x + w && z + d <= r < g.sz && !Hit(g, u, r)
  }

  // ----- the runs

  /** How many matches follow each other to the right from (i, j). */
  function Run(g: Grid, i: nat, j: nat): nat
    decreases g.sx - i
  {
    if i < g.sx && Hit(g, i, j) then 1 + Run(g, i + 1, j) else 0
  }

  lemma {:induction false} RunMeans(g: Grid, i: nat, j: nat, w: nat)
    ensures w <= Run(g, i, j) <==> forall u :: i <= u < i + w ==> Hit(g, u, j)
    decreases g.sx - i
  {
    if w > 0 {
      if i < g.sx && Hit(g, i, j) {
        RunMeans(g, i + 1, j, w - 1);
        assert i + w == i + 1 + (w - 1);
      } else {
        assert !Hit(g, i, j);
      }
    }
  }

  function Heights(g: Grid, i: nat): (h: seq<nat>)
    ensures |h| == g.sz
  {
    seq(g.sz, j requires 0 <= j => Run(g, i, j))
  }

  predicate AtLeast(h: seq<nat>, a: nat, b: nat, v: nat) {
    b <= |h| && forall r :: a <= r < b ==> h[r] >= v
  }

  lemma HeightsMean(g: Grid, i: nat, a: nat, d: nat, v: nat)
    requires a + d <= g.sz
    ensures AtLeast(Heights(g, i), a, a + d, v) <==> AllHit(g, i, a, v, d)
  {
    hide Hit, Run;
    var h := Heights(g, i);
    if AtLeast(h, a, a + d, v) {
      forall u, r | i <= u < i + v && a <= r < a + d
        ensures Hit(g, u, r)
      {
        assert h[r] >= v;
        RunMeans(g, i, r, v);
      }
    }
    if AllHit(g, i, a, v, d) {
      forall r | a <= r < a + d
        ensures h[r] >= v
      {
        RunMeans(g, i, r, v);
      }
    }
  }

  // ----- the open bars

  /** A bar that starts in row `j`; `w` is the width of the bar under it on the stack. */
  datatype Entry = Entry(j: nat, w: nat)

  /** The width of the bar at position `t`, `w` being that of the top one. */
  function Level(st: seq<Entry>, w: nat, t: nat): nat {
    if t + 1 < |st| then st[t + 1].w else w
  }

  predicate Bar(h: seq<nat>, j: nat, e: Entry, level: nat) {
    e.j < j && e.w <= level && AtLeast(h, e.j, j, level)
  }

  /** A bar at least as wide as `v` has been open since row `a` or before. */
  ghost predicate Covered(st: seq<Entry>, base: nat, w: nat, a: nat, v: nat) {
    exists t :: base <= t < |st| && st[t].j <= a && Level(st, w, t) >= v
  }

  /** The stack above `base` grows in starts and widths, and is empty when no bar is open. */
  predicate Stacked(st: seq<Entry>, base: nat, w: nat) {
    && base <= |st| && (w == 0 <==> |st| == base) && (base < |st| ==> st[base].w == 0)
    && forall s, t :: base <= s < t < |st| ==> st[s].j < st[t].j && st[s].w <= st[t].w && 0 < st[t].w
  }

  predicate Bars(h: seq<nat>, st: seq<Entry>, base: nat, w: nat, j: nat) {
    forall t :: base <= t < |st| ==> Bar(h, j, st[t], Level(st, w, t))
  }

  /** Every rectangle of matches that reaches row `j` lies in an open bar. */
  ghost predicate Covers(h: seq<nat>, st: seq<Entry>, base: nat, w: nat, j: nat) {
    forall a: nat, v: nat :: a < j && v > 0 && AtLeast(h, a, j, v) ==> Covered(st, base, w, a, v)
  }

  ghost predicate Open(h: seq<nat>, st: seq<Entry>, base: nat, w: nat, j: nat) {
    j <= |h| && Stacked(st, base, w) && Bars(h, st, base, w, j) && Covers(h, st, base, w, j)
  }

  /** No bar is wider than the top one. */
  lemma LevelBelow(h: seq<nat>, st: seq<Entry>, base: nat, w: nat, j: nat, t: nat)
    requires Stacked(st, base, w) && Bars(h, st, base, w, j) && base <= t < |st|
    ensures Level(st, w, t) <= w && st[t].w <= w && st[t].j < j && AtLeast(h, st[t].j, j, Level(st, w, t))
  {
    hide AtLeast;
    var top := |st| - 1;
    assert Bar(h, j, st[top], Level(st, w, top)) && Bar(h, j, st[t], Level(st, w, t));
  }

  lemma AtLeastMore(h: seq<nat>, a: nat, j: nat, v: nat)
    requires AtLeast(h, a, j, v) && j < |h| && a <= j
    ensures AtLeast(h, a, j + 1, v) <==> v <= h[j]
  {
  }

  lemma AtLeastLess(h: seq<nat>, a: nat, j: nat, v: nat)
    requires AtLeast(h, a, j + 1, v) && j < |h| && a <= j
    ensures AtLeast(h, a, j, v) && v <= h[j]
  {
  }

  lemma AtLeastWeaker(h: seq<nat>, a: nat, j: nat, v: nat, v1: nat)
    requires AtLeast(h, a, j, v) && v1 <= v
    ensures AtLeast(h, a, j, v1)
  {
  }

  /** A longer run opens a bar. */
  lemma PushOpen(h: seq<nat>, st: seq<Entry>, base: nat, w: nat, j: nat)
    requires Open(h, st, base, w, j) && j < |h| && h[j] > w
    ensures Open(h, st + [Entry(j, w)], base, h[j], j + 1)
  {
    hide AtLeast, Covers, Covered, Level;
    var st1, n := st + [Entry(j, w)], h[j];
    forall t | base <= t < |st|
      ensures st[t].j < j && st[t].w <= w
    {
      LevelBelow(h, st, base, w, j, t);
    }
    forall t | base <= t < |st1|
      ensures Bar(h, j + 1, st1[t], Level(st1, n, t))
    {
      PushLevel(st, w, j, n, t);
      if t < |st| {
        LevelBelow(h, st, base, w, j, t);
        assert Bar(h, j, st[t], Level(st, w, t));
        AtLeastMore(h, st[t].j, j, Level(st, w, t));
      } else {
        AtLeastMore(h, j, j, n) by { Nothing(h, j, n); }
      }
    }
    PushCovers(h, st, base, w, j);
  }

  lemma Nothing(h: seq<nat>, j: nat, n: nat)
    requires j <= |h|
    ensures AtLeast(h, j, j, n)
  {
  }

  lemma PushLevel(st: seq<Entry>, w: nat, j: nat, n: nat, t: nat)
    requires t <= |st|
    ensures Level(st + [Entry(j, w)], n, t) == if t < |st| then Level(st, w, t) else n
  {
  }

  lemma PushCovers(h: seq<nat>, st: seq<Entry>, base: nat, w: nat, j: nat)
    requires Open(h, st, base, w, j) && j < |h| && h[j] > w
    ensures Covers(h, st + [Entry(j, w)], base, h[j], j + 1)
  {
    hide AtLeast, Level, Bars, Bar, Stacked;
    var st1, n := st + [Entry(j, w)], h[j];
    assert base <= |st| by { Above(st, base, w); }
    forall a: nat, v: nat | a < j + 1 && v > 0 && AtLeast(h, a, j + 1, v)
      ensures Covered(st1, base, n, a, v)
    {
      AtLeastLess(h, a, j, v);
      if a < j {
        assert Covered(st, base, w, a, v);
        var t :| base <= t < |st| && st[t].j <= a && Level(st, w, t) >= v;
        PushLevel(st, w, j, n, t);
        assert st1[t].j <= a && Level(st1, n, t) >= v;
      } else {
        PushLevel(st, w, j, n, |st|);
        assert st1[|st|].j <= a && Level(st1, n, |st|) >= v;
      }
    }
  }

  lemma Above(st: seq<Entry>, base: nat, w: nat)
    requires Stacked(st, base, w)
    ensures base <= |st| && (w == 0 <==> |st| == base)
  {
  }

  /** A run of the same length keeps the bars open. */
  lemma KeepOpen(h: seq<nat>, st: seq<Entry>, base: nat, w: nat, j: nat)
    requires Open(h, st, base, w, j) && j < |h| && h[j] == w
    ensures Open(h, st, base, w, j + 1)
  {
    hide AtLeast, Level, Stacked, Covered;
    Above(st, base, w);
    forall t | base <= t < |st|
      ensures Bar(h, j + 1, st[t], Level(st, w, t))
    {
      LevelBelow(h, st, base, w, j, t);
      AtLeastMore(h, st[t].j, j, Level(st, w, t));
    }
    forall a: nat, v: nat | a < j + 1 && v > 0 && AtLeast(h, a, j + 1, v)
      ensures Covered(st, base, w, a, v)
    {
      AtLeastLess(h, a, j, v);
      if a == j {
        TopCovers(h, st, base, w, j, v);
      }
    }
  }

  lemma TopCovers(h: seq<nat>, st: seq<Entry>, base: nat, w: nat, j: nat, v: nat)
    requires Stacked(st, base, w) && Bars(h, st, base, w, j) && 0 < v <= w
    ensures Covered(st, base, w, j, v)
  {
    hide AtLeast;
    var top := |st| - 1;
    assert Bar(h, j, st[top], Level(st, w, top));
  }

  /** The stack after a shorter run has closed the bars above position `m`, and cut the one there to its length. */
  function Popped(st: seq<Entry>, m: nat, n: nat): seq<Entry>
    requires m < |st|
  {
    if n > 0 then st[..m + 1] else st[..m]
  }

  lemma PoppedLevel(st: seq<Entry>, base: nat, w: nat, m: nat, n: nat, t: nat)
    requires Stacked(st, base, w) && base <= m < |st| && 0 < n && t <= m
    ensures Level(Popped(st, m, n), n, t) == if t < m then Level(st, w, t) else n
    ensures base <= t < m ==> Level(st, w, t) <= st[m].w
  {
  }

  lemma PopOpen(h: seq<nat>, st: seq<Entry>, base: nat, w: nat, j: nat, m: nat)
    requires Open(h, st, base, w, j) && j < |h| && base <= m < |st|
    requires st[m].w <= h[j] < Level(st, w, m)
    ensures Open(h, Popped(st, m, h[j]), base, h[j], j + 1)
  {
    hide AtLeast, Covers, Level, Covered;
    var n := h[j];
    var st1 := Popped(st, m, n);
    if n > 0 {
      forall t | base <= t < |st1|
        ensures Bar(h, j + 1, st1[t], Level(st1, n, t))
      {
        PoppedLevel(st, base, w, m, n, t);
        LevelBelow(h, st, base, w, j, t);
        assert Bar(h, j, st[t], Level(st, w, t));
        AtLeastWeaker(h, st[t].j, j, Level(st, w, t), Level(st1, n, t));
        AtLeastMore(h, st[t].j, j, Level(st1, n, t));
      }
    }
    PopCovers(h, st, base, w, j, m);
  }

  lemma PopCovers(h: seq<nat>, st: seq<Entry>, base: nat, w: nat, j: nat, m: nat)
    requires Open(h, st, base, w, j) && j < |h| && base <= m < |st|
    requires st[m].w <= h[j] < Level(st, w, m)
    ensures Covers(h, Popped(st, m, h[j]), base, h[j], j + 1)
  {
    hide AtLeast, Level, Bars, Bar, Stacked;
    var n := h[j];
    var st1 := Popped(st, m, n);
    LevelBelow(h, st, base, w, j, m);
    forall a: nat, v: nat | a < j + 1 && v > 0 && AtLeast(h, a, j + 1, v)
      ensures Covered(st1, base, n, a, v)
    {
      AtLeastLess(h, a, j, v);
      PoppedLevel(st, base, w, m, n, m);
      if a < j {
        assert Covered(st, base, w, a, v);
        var t :| base <= t < |st| && st[t].j <= a && Level(st, w, t) >= v;
        if t < m {
          PoppedLevel(st, base, w, m, n, t);
          assert st1[t].j <= a && Level(st1, n, t) >= v;
        } else {
          StartsRise(st, base, w, m, t);
          assert st1[m].j <= a && Level(st1, n, m) >= v;
        }
      } else {
        assert st1[m].j <= a && Level(st1, n, m) >= v;
      }
    }
  }

  lemma StartsRise(st: seq<Entry>, base: nat, w: nat, s: nat, t: nat)
    requires Stacked(st, base, w) && base <= s <= t < |st|
    ensures st[s].j <= st[t].j
  {
  }

  /** Every rectangle that row `j` blocks lies in one of the bars it closes. */
  lemma ClosedBar(h: seq<nat>, st: seq<Entry>, base: nat, w: nat, j: nat, m: nat, a: nat, v: nat)
    requires Open(h, st, base, w, j) && base <= m < |st| && a < j < |h|
    requires st[m].w <= h[j] < v && AtLeast(h, a, j, v)
    ensures exists t :: m <= t < |st| && st[t].j <= a && Level(st, w, t) >= v
  {
    hide AtLeast, Level, Bars, Bar, Stacked;
    assert Covered(st, base, w, a, v);
    var t :| base <= t < |st| && st[t].j <= a && Level(st, w, t) >= v;
    if t < m {
      PoppedLevel(st, base, w, m, 1, t);
      assert false;
    }
  }

  // ----- how many entries the stack has

  /** What is left of the widths under the bars when all wider than n have been closed. */
  function KeptBars(ws: seq<nat>, n: nat): seq<nat> {
    if ws == [] || ws[|ws| - 1] <= n then ws else KeptBars(ws[..|ws| - 1], n)
  }

  /** The widths under the open bars after a row with a run of n, the row before it having one of w. */
  function Restacked(ws: seq<nat>, w: nat, n: nat): seq<nat> {
    if n > w then ws + [w] else if n == w then ws else if n == 0 then [] else KeptBars(ws, n)
  }

  /** The widths under the bars of a column that are open after j rows. */
  function Widths(h: seq<nat>, j: nat): seq<nat>
    requires j <= |h|
  {
    if j == 0 then [] else Restacked(Widths(h, j - 1), if j == 1 then 0 else h[j - 2], h[j - 1])
  }

  function Max(a: nat, b: nat): nat {
    if a < b then b else a
  }

  /** The most bars of a column that are open after any of the first j rows. */
  function ColumnPeak(h: seq<nat>, j: nat): nat
    requires j <= |h|
  {
    if j == 0 then 0 else Max(ColumnPeak(h, j - 1), |Widths(h, j)|)
  }

  /** The entries that the columns from i on leave on the stack. */
  function LeftOver(g: Grid, i: nat): nat
    decreases g.sx - i
  {
    if i >= g.sx then 0 else LeftOver(g, i + 1) + |Widths(Heights(g, i), g.sz)|
  }

  /** The most entries the stack ever has during the columns from i on. */
  function StackPeak(g: Grid, i: nat): nat
    decreases g.sx - i
  {
    if i >= g.sx then 0 else Max(StackPeak(g, i + 1), LeftOver(g, i + 1) + ColumnPeak(Heights(g, i), g.sz))
  }

  /** The widths on the stack above `base`. */
  function Unders(st: seq<Entry>, base: nat): (ws: seq<nat>)
    requires base <= |st|
    ensures |ws| == |st| - base
  {
    seq<nat>(|st| - base, k requires 0 <= k < |st| - base => st[base + k].w)
  }

  lemma WidthsNext(h: seq<nat>, j: nat)
    requires j < |h|
    ensures Widths(h, j + 1) == Restacked(Widths(h, j), if j == 0 then 0 else h[j - 1], h[j])
    ensures ColumnPeak(h, j + 1) == Max(ColumnPeak(h, j), |Widths(h, j + 1)|)
  {
  }

  lemma NoWidths(h: seq<nat>)
    ensures Widths(h, 0) == [] && ColumnPeak(h, 0) == 0
  {
  }

  lemma UndersPushed(st: seq<Entry>, base: nat, e: Entry)
    requires base <= |st|
    ensures Unders(st + [e], base) == Unders(st, base) + [e.w]
  {
  }

  lemma {:induction false} KeptIs(ws: seq<nat>, n: nat, m: nat)
    requires m < |ws| && ws[m] <= n && forall t :: m < t < |ws| ==> ws[t] > n
    ensures KeptBars(ws, n) == ws[..m + 1]
    decreases |ws|
  {
    if m < |ws| - 1 {
      KeptIs(ws[..|ws| - 1], n, m);
      assert ws[..|ws| - 1][..m + 1] == ws[..m + 1];
    } else {
      assert ws[..m + 1] == ws;
    }
  }

  /** Closing the bars down to position m leaves these widths. */
  lemma ClosedWidths(st: seq<Entry>, base: nat, w: nat, m: nat, n: nat)
    requires Stacked(st, base, w) && base <= m < |st| && st[m].w <= n < w && n < Level(st, w, m)
    ensures Restacked(Unders(st, base), w, n) == Unders(if n > 0 then st[..m + 1] else st[..m], base)
  {
    var ws := Unders(st, base);
    if n > 0 {
      forall t | m - base < t < |ws|
        ensures ws[t] > n
      {
        assert st[m + 1].w <= st[base + t].w;
      }
      KeptIs(ws, n, m - base);
      assert Unders(st[..m + 1], base) == ws[..m - base + 1];
    } else {
      LevelAt(st, base, w, m);
      assert Unders(st[..m], base) == [];
    }
  }

  // ----- the sweep of a column

  /** Rows a to b - 1 have runs of at least `v`, row b has not. */
  predicate Gap(h: seq<nat>, a: nat, b: nat, v: nat) {
    a < b < |h| && h[b] < v && AtLeast(h, a, b, v)
  }

  ghost predicate Done(h: seq<nat>, j: nat, ret: nat) {
    forall a: nat, b: nat, v: nat :: b < j && Gap(h, a, b, v) ==> Area(v, b - a) <= ret
  }

  /** The corners bound a blocked rectangle of `ret` matches. */
  ghost predicate Found(g: Grid, p0: Pos, p1: Pos, ret: nat) {
    && 0 <= p0.x <= p1.x && 0 <= p0.z <= p1.z
    && AllHit(g, p0.x, p0.z, p1.x + 1 - p0.x, p1.z + 1 - p0.z)
    && Blocked(g, p0.x, p0.z, p1.x + 1 - p0.x, p1.z + 1 - p0.z)
    && ret == Area(p1.x + 1 - p0.x, p1.z + 1 - p0.z)
  }

  /** The best rectangle so far, or the corners the caller passed in. */
  ghost predicate Best(g: Grid, start0: Pos, start1: Pos, p0: Pos, p1: Pos, ret: nat) {
    if ret == 0 then p0 == start0 && p1 == start1 else Found(g, p0, p1, ret)
  }

  lemma BarFound(g: Grid, i: nat, a: nat, j: nat, w: nat)
    requires a < j < g.sz && w > 0 && AtLeast(Heights(g, i), a, j, w) && Heights(g, i)[j] < w
    ensures Found(g, Pos(i, a), Pos(i + w - 1, j - 1), Area(w, j - a))
  {
    hide Area, Hit, AtLeast;
    assert a + (j - a) == j;
    HeightsMean(g, i, a, j - a, w);
    RunMeans(g, i, j, w);
  }

  /** Closes the bars that are wider than row `j` allows. */
  method CloseBars(g: Grid, i: nat, st0: seq<Entry>, ghost base: nat, w0: nat, j: nat, ret0: nat, q0: Pos, q1: Pos,
                   n: nat, ghost start0: Pos, ghost start1: Pos)
    returns (st: seq<Entry>, ret: nat, p0: Pos, p1: Pos)
    requires j < g.sz && Open(Heights(g, i), st0, base, w0, j) && n == Heights(g, i)[j] && n < w0
    requires Best(g, start0, start1, q0, q1, ret0)
    ensures Best(g, start0, start1, p0, p1, ret) && ret0 <= ret
    ensures Open(Heights(g, i), st, base, n, j + 1) && |st| <= |st0|
    ensures Unders(st, base) == Restacked(Unders(st0, base), w0, n)
    ensures forall a: nat, v: nat :: Gap(Heights(g, i), a, j, v) ==> Area(v, j - a) <= ret
  {
    hide Heights, Hit, Found, Level, Area, AtLeast, Covers, Stacked;
    ghost var h := Heights(g, i);
    Above(st0, base, w0);
    var w, m := w0, |st0|;
    ret, p0, p1 := ret0, q0, q1;
    while n < w
      invariant base <= m <= |st0| && (m == |st0| ==> n < w)
      invariant w == (if m < |st0| then st0[m].w else w0) && (m == base ==> w == 0 || m == |st0|)
      invariant m < |st0| ==> n < Level(st0, w0, m)
      invariant ret0 <= ret && Best(g, start0, start1, p0, p1, ret)
      invariant forall t :: m <= t < |st0| ==> st0[t].j < j && Area(Level(st0, w0, t), j - st0[t].j) <= ret
      decreases m
    {
      m := m - 1;
      var e := st0[m];
      LevelBelow(h, st0, base, w0, j, m);
      LevelAt(st0, base, w0, m);
      var area := Area(w, j - e.j);
      if area > ret {
        BarFound(g, i, e.j, j, w);
        p0, p1 := Pos(i, e.j), Pos(i + w - 1, j - 1);
        ret := area;
      }
      w := e.w;
    }
    st := st0[..m];
    if n > 0 {
      st := st0[..m + 1];
    }
    ClosedWidths(st0, base, w0, m, n);
    PopOpen(h, st0, base, w0, j, m);
    forall a: nat, v: nat | Gap(h, a, j, v)
      ensures Area(v, j - a) <= ret
    {
      ClosedBar(h, st0, base, w0, j, m, a, v);
      var t :| m <= t < |st0| && st0[t].j <= a && Level(st0, w0, t) >= v;
      AreaMonotone(v, j - a, Level(st0, w0, t), j - st0[t].j);
    }
  }

  lemma LevelAt(st: seq<Entry>, base: nat, w: nat, m: nat)
    requires Stacked(st, base, w) && base <= m < |st|
    ensures Level(st, w, m) == if m + 1 < |st| then st[m + 1].w else w
    ensures st[m].w == 0 <==> m == base
  {
  }

  /** Sweeps one column; the stack is not emptied at its end. */
  method SweepColumn(g: Grid, i: nat, h: seq<nat>, st0: seq<Entry>, ret0: nat, q0: Pos, q1: Pos,
                     ghost start0: Pos, ghost start1: Pos)
    returns (st: seq<Entry>, ret: nat, p0: Pos, p1: Pos, ghost peak: nat)
    requires h == Heights(g, i) && Best(g, start0, start1, q0, q1, ret0)
    ensures Best(g, start0, start1, p0, p1, ret) && ret0 <= ret
    ensures Done(h, |h|, ret)
    ensures |st| == |st0| + |Widths(h, |h|)| && peak == |st0| + ColumnPeak(h, |h|)
  {
    hide Best, Heights, Open, Gap, Done, Widths, ColumnPeak, Unders, KeptBars;
    ghost var base := |st0|;
    st, ret, p0, p1, peak := st0, ret0, q0, q1, |st0|;
    var w, j := 0, 0;
    StartOpen(h, st, ret);
    NoWidths(h);
    while j < |h|
      invariant 0 <= j <= |h| && base <= |st| && Open(h, st, base, w, j) && w == (if j == 0 then 0 else h[j - 1])
      invariant Unders(st, base) == Widths(h, j) && peak == base + ColumnPeak(h, j)
      invariant Best(g, start0, start1, p0, p1, ret) && ret0 <= ret && Done(h, j, ret)
    {
      var n := h[j];
      ghost var before := ret;
      WidthsNext(h, j);
      if n > w {
        PushOpen(h, st, base, w, j);
        NoGap(h, st, base, w, j);
        UndersPushed(st, base, Entry(j, w));
        st := st + [Entry(j, w)];
      } else if n == w {
        KeepOpen(h, st, base, w, j);
        NoGap(h, st, base, w, j);
      } else {
        st, ret, p0, p1 := CloseBars(g, i, st, base, w, j, ret, p0, p1, n, start0, start1);
      }
      DoneNext(h, j, before, ret);
      peak := if peak < |st| then |st| else peak;
      w := n;
      j := j + 1;
    }
  }

  lemma DoneNext(h: seq<nat>, j: nat, ret0: nat, ret: nat)
    requires Done(h, j, ret0) && ret0 <= ret && forall a: nat, v: nat :: Gap(h, a, j, v) ==> Area(v, j - a) <= ret
    ensures Done(h, j + 1, ret)
  {
    hide Gap, Area;
  }

  lemma StartOpen(h: seq<nat>, st: seq<Entry>, ret: nat)
    ensures Open(h, st, |st|, 0, 0) && Done(h, 0, ret) && Unders(st, |st|) == []
  {
  }

  /** A run at least as long as the open bars blocks none of them. */
  lemma NoGap(h: seq<nat>, st: seq<Entry>, base: nat, w: nat, j: nat)
    requires Open(h, st, base, w, j) && j < |h| && h[j] >= w
    ensures forall a: nat, v: nat :: !Gap(h, a, j, v)
  {
    forall a: nat, v: nat
      ensures !Gap(h, a, j, v)
    {
      if Gap(h, a, j, v) {
        assert Covered(st, base, w, a, v);
        var t :| base <= t < |st| && st[t].j <= a && Level(st, w, t) >= v;
        LevelBelow(h, st, base, w, j, t);
        assert false;
      }
    }
  }

  // ----- the whole grid

  lemma {:induction false} FirstGap(h: seq<nat>, a: nat, b: nat, r: nat, v: nat)
    requires a < b <= r < |h| && AtLeast(h, a, b, v) && h[r] < v
    ensures exists c :: b <= c <= r && Gap(h, a, c, v)
    decreases r - b
  {
    if h[b] < v {
      assert Gap(h, a, b, v);
    } else {
      FirstGap(h, a, b + 1, r, v);
    }
  }

  /** What the sweep of the column of its left edge says about a blocked rectangle. */
  lemma BlockedDone(g: Grid, x: nat, z: nat, w: nat, d: nat, ret: nat)
    requires w > 0 && d > 0 && AllHit(g, x, z, w, d) && Blocked(g, x, z, w, d) && Done(Heights(g, x), g.sz, ret)
    ensures Area(w, d) <= ret
  {
    hide Area, Hit, Gap, AtLeast;
    var h := Heights(g, x);
    var u, r :| x <= u < x + w && z + d <= r < g.sz && !Hit(g, u, r);
    HeightsMean(g, x, z, d, w);
    RunMeans(g, x, r, w);
    FirstGap(h, z, z + d, r, w);
    var c :| z + d <= c <= r && Gap(h, z, c, w);
    AreaMonotone(w, d, w, c - z);
  }

  predicate RowEmpty(g: Grid, z: int) {
    forall x :: 0 <= x < g.sx ==> !Hit(g, x, z)
  }

  predicate LastRowEmpty(g: Grid) {
    RowEmpty(g, g.sz - 1)
  }

  /** `ret` is the size of the largest blocked rectangle of matches, and 0 if there is none. */
  ghost predicate LargestBlocked(g: Grid, ret: nat) {
    && (forall x: nat, z: nat, w: nat, d: nat :: w > 0 && d > 0 && AllHit(g, x, z, w, d) && Blocked(g, x, z, w, d) ==> Area(w, d) <= ret)
    && (ret > 0 ==> exists p0, p1 :: Found(g, p0, p1, ret))
  }

  method CountRuns(g: Grid, n: array<nat>, i: nat)
    requires g.Valid() && i < g.sx && n.Length == g.sz && n[..] == Heights(g, i + 1)
    modifies n
    ensures n[..] == Heights(g, i)
  {
    hide Area;
    var j := 0;
    while j < g.sz
      invariant 0 <= j <= g.sz
      invariant forall k :: 0 <= k < j ==> n[k] == Run(g, i, k)
      invariant forall k :: j <= k < g.sz ==> n[k] == Run(g, i + 1, k)
    {
      InGrid(g.sx, g.sz, i, j);
      n[j] := if g.ids[Area(g.sx, j) + i] == g.target then n[j] + 1 else 0;
      j := j + 1;
    }
  }

  /** Finds the largest blocked rectangle of matches; the corners are left alone if there is none.
      `peak` is the most entries the stack ever held. */
  method GetLargestRec(g: Grid, q0: Pos, q1: Pos) returns (ret: nat, p0: Pos, p1: Pos, ghost peak: nat)
    requires g.Valid()
    ensures Best(g, q0, q1, p0, p1, ret) && LargestBlocked(g, ret)
    ensures peak == StackPeak(g, 0)
  {
    hide Run, Hit, Area, Found, Done;
    var n := new nat[g.sz](_ => 0);
    var st: seq<Entry> := [];
    ret, p0, p1, peak := 0, q0, q1, 0;
    var i := g.sx;
    NoRuns(g);
    while i > 0
      invariant 0 <= i <= g.sx && n[..] == Heights(g, i)
      invariant Best(g, q0, q1, p0, p1, ret)
      invariant forall x :: i <= x < g.sx ==> Done(Heights(g, x), g.sz, ret)
      invariant |st| == LeftOver(g, i) && peak == StackPeak(g, i)
    {
      i := i - 1;
      CountRuns(g, n, i);
      ghost var before := ret;
      ghost var top;
      st, ret, p0, p1, top := SweepColumn(g, i, n[..], st, ret, p0, p1, q0, q1);
      peak := if peak < top then top else peak;
      forall x | i <= x < g.sx
        ensures Done(Heights(g, x), g.sz, ret)
      {
        if x > i {
          DoneMore(Heights(g, x), before, ret);
        }
      }
    }
    AllDone(g, ret);
  }

  lemma NoRuns(g: Grid)
    ensures Heights(g, g.sx) == seq(g.sz, _ => 0)
  {
  }

  lemma DoneMore(h: seq<nat>, ret0: nat, ret: nat)
    requires Done(h, |h|, ret0) && ret0 <= ret
    ensures Done(h, |h|, ret)
  {
    hide Gap, Area;
  }

  lemma AllDone(g: Grid, ret: nat)
    requires forall x :: 0 <= x < g.sx ==> Done(Heights(g, x), g.sz, ret)
    ensures forall x: nat, z: nat, w: nat, d: nat :: w > 0 && d > 0 && AllHit(g, x, z, w, d) && Blocked(g, x, z, w, d) ==> Area(w, d) <= ret
  {
    hide Area, Done, Blocked;
    forall x: nat, z: nat, w: nat, d: nat | w > 0 && d > 0 && AllHit(g, x, z, w, d) && Blocked(g, x, z, w, d)
      ensures Area(w, d) <= ret
    {
      assert Hit(g, x, z);
      BlockedDone(g, x, z, w, d, ret);
    }
  }

  // ----- when the answer is the largest of all rectangles

  /** `ret` is the size of the largest rectangle of matches, and 0 if there is none. */
  ghost predicate LargestOfAll(g: Grid, ret: nat) {
    && (forall x: nat, z: nat, w: nat, d: nat :: w > 0 && d > 0 && AllHit(g, x, z, w, d) ==> Area(w, d) <= ret)
    && (ret > 0 ==> exists p0, p1 :: Found(g, p0, p1, ret))
  }

  /** A last row without a match blocks every rectangle. */
  lemma LastRowBlocks(g: Grid, ret: nat)
    requires LargestBlocked(g, ret) && LastRowEmpty(g)
    ensures LargestOfAll(g, ret)
  {
    hide Area, Found, Hit;
    forall x: nat, z: nat, w: nat, d: nat | w > 0 && d > 0 && AllHit(g, x, z, w, d)
      ensures Area(w, d) <= ret
    {
      var last := g.sz - 1;
      assert Hit(g, x, z + d - 1);
      HitInside(g, x, z + d - 1);
      assert !Hit(g, x, last);
      assert Blocked(g, x, z, w, d);
    }
  }

  lemma HitInside(g: Grid, x: int, z: int)
    requires Hit(g, x, z)
    ensures 0 <= x < g.sx && 0 <= z < g.sz
  {
  }

  /** A grid whose last row is given and whose other rows hold no match. */
  function OnlyLast(row: seq<int>, sz: nat, target: int): Grid
    requires sz > 0
  {
    Grid(seq(Area(|row|, sz - 1), _ => target + 1) + row, |row|, sz, target)
  }

  lemma OnlyLastHit(row: seq<int>, sz: nat, target: int, x: nat, z: nat)
    requires sz > 0 && x < |row| && z < sz
    ensures OnlyLast(row, sz, target).Valid()
    ensures Hit(OnlyLast(row, sz, target), x, z) <==> z == sz - 1 && row[x] == target
  {
    hide Area;
    AreaNext(|row|, sz - 1);
    if z < sz - 1 {
      InGrid(|row|, sz - 1, x, z);
    }
  }

  predicate RowIs(g: Grid, row: seq<int>, z: int) {
    forall x :: 0 <= x < |row| ==> (Hit(g, x, z) <==> row[x] == g.target)
  }

  predicate HasLastRow(g: Grid, row: seq<int>) {
    && g.Valid() && g.sx == |row| && g.sz > 0
    && RowIs(g, row, g.sz - 1)
  }

  /** For every grid with a given last row the answer is the largest of all rectangles, exactly
      when that row has no match. */
  lemma LastRowDecides(row: seq<int>, sz: nat, target: int)
    requires sz > 0
    ensures (forall x :: 0 <= x < |row| ==> row[x] != target)
       <==> (forall g: Grid, ret: nat :: HasLastRow(g, row) && g.sz == sz && g.target == target && LargestBlocked(g, ret)
               ==> LargestOfAll(g, ret))
  {
    hide LargestBlocked, LargestOfAll, Hit;
    if forall x :: 0 <= x < |row| ==> row[x] != target {
      forall g: Grid, ret: nat | HasLastRow(g, row) && g.target == target && LargestBlocked(g, ret)
        ensures LargestOfAll(g, ret)
      {
        assert RowEmpty(g, g.sz - 1);
        LastRowBlocks(g, ret);
      }
    } else {
      var x :| 0 <= x < |row| && row[x] == target;
      var g := OnlyLast(row, sz, target);
      forall u | 0 <= u < |row|
        ensures Hit(g, u, sz - 1) <==> row[u] == target
      {
        OnlyLastHit(row, sz, target, u, sz - 1);
      }
      OnlyLastHit(row, sz, target, x, sz - 1);
      assert HasLastRow(g, row);
      NothingBlocked(row, sz, target);
      MissedMatch(g, x, sz - 1);
    }
  }

  lemma NothingBlocked(row: seq<int>, sz: nat, target: int)
    requires sz > 0
    ensures LargestBlocked(OnlyLast(row, sz, target), 0)
  {
    hide Hit, Area, OnlyLast, Found;
    var g := OnlyLast(row, sz, target);
    OnlyLastSize(row, sz, target);
    forall x: nat, z: nat, w: nat, d: nat | w > 0 && d > 0 && AllHit(g, x, z, w, d)
      ensures !Blocked(g, x, z, w, d)
    {
      assert Hit(g, x, z);
      HitInside(g, x, z);
      OnlyLastHit(row, sz, target, x, z);
    }
  }

  lemma OnlyLastSize(row: seq<int>, sz: nat, target: int)
    requires sz > 0
    ensures OnlyLast(row, sz, target).sx == |row| && OnlyLast(row, sz, target).sz == sz
  {
  }

  lemma MissedMatch(g: Grid, x: nat, z: nat)
    requires Hit(g, x, z)
    ensures !LargestOfAll(g, 0)
  {
    assert AllHit(g, x, z, 1, 1) && Area(1, 1) == 1;
  }
}
