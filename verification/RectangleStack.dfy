/** For which last rows the stack of the largest rectangle search stays inside its buffer, which has
    as many entries as the longer side of the grid. */
module RectangleStack {
  import opened LargestRectangle
  import opened Products
  import opened Remainders

  // ----- bounds on the open bars of one column

  lemma {:induction false} KeptLess(ws: seq<nat>, n: nat)
    ensures |KeptBars(ws, n)| <= |ws|
  {
    if ws != [] && ws[|ws| - 1] > n {
      KeptLess(ws[..|ws| - 1], n);
    }
  }

  /** Every row opens one bar at most; only ever longer runs open one in each row; no bar is open
      after a row without a run. */
  lemma {:induction false} BarsBound(h: seq<nat>, j: nat)
    requires j <= |h|
    ensures |Widths(h, j)| <= j
    ensures j > 0 && |Widths(h, j)| == j ==> h[j - 1] >= j
    ensures j > 0 && h[j - 1] == 0 ==> Widths(h, j) == []
  {
    hide KeptBars;
    if j > 0 {
      BarsBound(h, j - 1);
      KeptLess(Widths(h, j - 1), h[j - 1]);
    }
  }

  lemma {:induction false} PeakBound(h: seq<nat>, j: nat)
    requires j <= |h|
    ensures ColumnPeak(h, j) <= j
  {
    hide Widths;
    if j > 0 {
      PeakBound(h, j - 1);
      BarsBound(h, j);
    }
  }

  predicate Low(h: seq<nat>) {
    forall k :: 0 <= k < |h| ==> h[k] <= 1
  }

  /** Runs of one cell never have two bars open. */
  lemma {:induction false} OneBar(h: seq<nat>, j: nat)
    requires j <= |h| && Low(h)
    ensures |Widths(h, j)| <= 1 && ColumnPeak(h, j) <= 1
  {
    hide KeptBars;
    if j > 0 {
      OneBar(h, j - 1);
      if j > 1 {
        BarsBound(h, j - 1);
      }
    }
  }

  // ----- last rows that are safe

  /** Matches in the last column, and in the first if there is none beside it. */
  predicate EdgesOnly(row: seq<int>, target: int) {
    forall u :: 0 <= u < |row| && row[u] == target ==> u == |row| - 1 || (u == 0 && row[1] != target)
  }

  lemma LastColumn(g: Grid)
    requires g.sx > 0
    ensures Low(Heights(g, g.sx - 1))
  {
    hide Hit;
    var h := Heights(g, g.sx - 1);
    forall k | 0 <= k < |h|
      ensures h[k] <= 1
    {
      assert Run(g, g.sx, k) == 0;
    }
  }

  /** What the columns right of the first leave, and the most entries they have. */
  lemma {:induction false} InnerColumns(g: Grid, row: seq<int>, i: nat)
    requires HasLastRow(g, row) && EdgesOnly(row, g.target) && 1 <= i <= g.sx
    ensures LeftOver(g, i) <= 1 && StackPeak(g, i) <= g.sz
    decreases g.sx - i
  {
    hide Hit, Heights, Widths, ColumnPeak;
    if i == g.sx - 1 {
      LastColumn(g);
      OneBar(Heights(g, i), g.sz);
    } else if i < g.sx {
      InnerColumns(g, row, i + 1);
      InnerRun(g, row, i);
      BarsBound(Heights(g, i), g.sz);
      PeakBelow(Heights(g, i), g.sz);
    }
  }

  lemma InnerRun(g: Grid, row: seq<int>, i: nat)
    requires HasLastRow(g, row) && EdgesOnly(row, g.target) && 1 <= i < g.sx - 1
    ensures Heights(g, i)[g.sz - 1] == 0
  {
    hide Hit;
    assert !Hit(g, i, g.sz - 1);
  }

  /** A column whose last run does not open the last of as many bars as rows. */
  lemma PeakBelow(h: seq<nat>, j: nat)
    requires 0 < j <= |h| && h[j - 1] < j
    ensures ColumnPeak(h, j) <= j - 1
  {
    hide Widths;
    BarsBound(h, j);
    PeakBound(h, j - 1);
  }

  lemma FirstColumn(g: Grid, row: seq<int>)
    requires HasLastRow(g, row) && EdgesOnly(row, g.target) && g.sx > 1
    ensures Heights(g, 0)[g.sz - 1] <= 1
  {
    hide Hit;
    if Hit(g, 0, g.sz - 1) {
      assert !Hit(g, 1, g.sz - 1);
      assert Run(g, 1, g.sz - 1) == 0;
    }
  }

  lemma EdgesFit(g: Grid, row: seq<int>)
    requires HasLastRow(g, row) && EdgesOnly(row, g.target)
    ensures StackPeak(g, 0) <= Max(g.sx, g.sz)
  {
    hide Hit, Heights, Widths, ColumnPeak, EdgesOnly;
    if g.sx == 1 {
      LastColumn(g);
      OneBar(Heights(g, 0), g.sz);
      assert StackPeak(g, 1) == 0 && LeftOver(g, 1) == 0;
    } else if g.sx > 1 {
      InnerColumns(g, row, 1);
      FirstColumn(g, row);
      if g.sz > 1 {
        PeakBelow(Heights(g, 0), g.sz);
      } else {
        PeakBound(Heights(g, 0), g.sz);
      }
    }
  }

  // ----- last rows that are not

  /** Columns c - 1 and c match in all rows but the last, column c + 1 in every second one. */
  function AltCell(row: seq<int>, c: nat, sz: nat, target: int, x: int, z: int): int {
    if z == sz - 1 then (if 0 <= x < |row| then row[x] else target + 1)
    else if x == c - 1 || x == c || (x == c + 1 && z % 2 == 1) then target else target + 1
  }

  function Alternating(row: seq<int>, c: nat, sz: nat, target: int): Grid
    requires |row| > 0
  {
    Grid(seq(Area(|row|, sz), k requires 0 <= k => AltCell(row, c, sz, target, k % |row|, k / |row|)), |row|, sz, target)
  }

  lemma AlternatingHit(row: seq<int>, c: nat, sz: nat, target: int, x: nat, z: nat)
    requires x < |row| && z < sz
    ensures Hit(Alternating(row, c, sz, target), x, z) <==> AltCell(row, c, sz, target, x, z) == target
  {
    hide AltCell;
    InGrid(|row|, sz, x, z);
    ModUnique(z, x, |row|);
    assert z * |row| + x == Area(|row|, z) + x;
  }

  /** Runs a and a + 1 by turns. */
  predicate ByTurns(h: seq<nat>, j: nat, a: nat) {
    j <= |h| && forall k :: 0 <= k < j ==> h[k] == if k % 2 == 0 then a else a + 1
  }

  lemma {:induction false} TurnsOpen(h: seq<nat>, j: nat, a: nat)
    requires ByTurns(h, j, a) && a > 0 && j > 0
    ensures |Widths(h, j)| == 1 + j / 2
    ensures forall k :: 0 <= k < |Widths(h, j)| ==> Widths(h, j)[k] <= a
  {
    if j > 1 {
      TurnsOpen(h, j - 1, a);
    } else {
      assert Widths(h, 0) == [];
    }
  }

  /** A last row with a run closes none of those bars. */
  lemma TurnsLeft(h: seq<nat>)
    requires |h| > 1 && ByTurns(h, |h| - 1, 1) && h[|h| - 1] >= 1
    ensures |Widths(h, |h|)| >= |Widths(h, |h| - 1)|
  {
    TurnsOpen(h, |h| - 1, 1);
  }

  lemma AlternatingRuns(row: seq<int>, c: nat, sz: nat, target: int, z: nat)
    requires 1 <= c < |row| - 1 && z < sz - 1
    ensures Run(Alternating(row, c, sz, target), c, z) == if z % 2 == 0 then 1 else 2
    ensures Run(Alternating(row, c, sz, target), c - 1, z) == if z % 2 == 0 then 2 else 3
  {
    hide Alternating, Hit;
    var g := Alternating(row, c, sz, target);
    AlternatingSize(row, c, sz, target);
    AlternatingHit(row, c, sz, target, c - 1, z);
    AlternatingHit(row, c, sz, target, c, z);
    AlternatingHit(row, c, sz, target, c + 1, z);
    if c + 2 < |row| {
      AlternatingHit(row, c, sz, target, c + 2, z);
    }
    assert Run(g, c + 2, z) == 0;
    assert Run(g, c + 1, z) == if z % 2 == 0 then 0 else 1;
  }

  lemma AlternatingSize(row: seq<int>, c: nat, sz: nat, target: int)
    requires |row| > 0
    ensures var g := Alternating(row, c, sz, target); g.sx == |row| && g.sz == sz && g.target == target && g.Valid()
  {
  }

  lemma AlternatingLast(row: seq<int>, c: nat, sz: nat, target: int)
    requires |row| > 0 && sz > 0
    ensures HasLastRow(Alternating(row, c, sz, target), row)
  {
    hide Alternating, Hit;
    AlternatingSize(row, c, sz, target);
    forall x | 0 <= x < |row|
      ensures Hit(Alternating(row, c, sz, target), x, sz - 1) <==> row[x] == target
    {
      AlternatingHit(row, c, sz, target, x, sz - 1);
    }
  }

  lemma {:induction false} PeakGrows(g: Grid, i: nat)
    requires i <= g.sx
    ensures StackPeak(g, 0) >= StackPeak(g, i)
  {
    hide ColumnPeak, Heights, LeftOver;
    if i > 0 {
      PeakGrows(g, i - 1);
    }
  }

  lemma AlternatingTurns(row: seq<int>, c: nat, sz: nat, target: int)
    requires 1 <= c < |row| - 1 && sz > 1 && row[c] == target
    ensures
      var g := Alternating(row, c, sz, target);
      ByTurns(Heights(g, c), sz - 1, 1) && ByTurns(Heights(g, c - 1), sz - 1, 2) && Heights(g, c)[sz - 1] >= 1
  {
    hide Alternating, Hit, Run;
    var g := Alternating(row, c, sz, target);
    AlternatingSize(row, c, sz, target);
    AlternatingLast(row, c, sz, target);
    forall z: nat | z < sz - 1
      ensures Run(g, c, z) == (if z % 2 == 0 then 1 else 2) && Run(g, c - 1, z) == if z % 2 == 0 then 2 else 3
    {
      AlternatingRuns(row, c, sz, target, z);
    }
    assert Hit(g, c, sz - 1);
    RunStarts(g, c, sz - 1);
  }

  /** What two columns side by side need together. */
  lemma TwoColumns(g: Grid, c: nat)
    requires 1 <= c < g.sx && g.sz > 1
    ensures StackPeak(g, c - 1) >= |Widths(Heights(g, c), g.sz)| + |Widths(Heights(g, c - 1), g.sz - 1)|
  {
    hide Heights, Widths;
    var left := Heights(g, c - 1);
    assert ColumnPeak(left, g.sz) >= ColumnPeak(left, g.sz - 1) >= |Widths(left, g.sz - 1)|;
  }

  /** An inner column c with a match: in a high enough grid, what it leaves and what the column before
      it opens are together more than the rows. */
  lemma InnerOverflows(row: seq<int>, c: nat, target: int) returns (g: Grid)
    requires 1 <= c < |row| - 1 && row[c] == target
    ensures HasLastRow(g, row) && g.target == target && StackPeak(g, 0) > Max(g.sx, g.sz)
  {
    hide Alternating, Heights, Widths, ByTurns, StackPeak, HasLastRow;
    var sz := 2 * |row| + 1;
    g := Alternating(row, c, sz, target);
    AlternatingSize(row, c, sz, target);
    AlternatingLast(row, c, sz, target);
    AlternatingTurns(row, c, sz, target);
    TurnsOpen(Heights(g, c), sz - 1, 1);
    TurnsLeft(Heights(g, c));
    TurnsOpen(Heights(g, c - 1), sz - 1, 2);
    TwoColumns(g, c);
    PeakGrows(g, c - 1);
  }

  lemma RunStarts(g: Grid, i: nat, j: nat)
    requires i < g.sx && Hit(g, i, j)
    ensures Run(g, i, j) >= 1
  {
  }

  /** Two columns that both match in the last row: three entries in a grid of two rows. */
  lemma PairOverflows(row: seq<int>, target: int) returns (g: Grid)
    requires row == [target, target]
    ensures HasLastRow(g, row) && g.target == target && g.sz == 2 && StackPeak(g, 0) == 3
  {
    g := Grid([target, target + 1, target, target], 2, 2, target);
    assert Hit(g, 0, 0) && !Hit(g, 1, 0) && Hit(g, 0, 1) && Hit(g, 1, 1);
    assert Run(g, 2, 0) == 0 && Run(g, 2, 1) == 0;
    assert Run(g, 1, 0) == 0 && Run(g, 1, 1) == 1;
    assert Run(g, 0, 0) == 1 && Run(g, 0, 1) == 2;
    PairPeak(Heights(g, 1), 0, 1);
    PairPeak(Heights(g, 0), 1, 2);
    assert LeftOver(g, 2) == 0 && StackPeak(g, 2) == 0;
    assert LeftOver(g, 1) == 1 && StackPeak(g, 1) == 1;
  }

  lemma PairPeak(h: seq<nat>, a: nat, b: nat)
    requires h == [a, b] && a < b
    ensures |Widths(h, 2)| == ColumnPeak(h, 2) == if a == 0 then 1 else 2
  {
    assert Widths(h, 0) == [];
    assert |Widths(h, 1)| == if a == 0 then 0 else 1;
    assert ColumnPeak(h, 0) == 0;
    assert ColumnPeak(h, 1) == |Widths(h, 1)|;
  }

  /** The stack stays inside its buffer for every grid with a given last row, of any height, exactly
      if that row has no match but in the last column, or in the first without one beside it. */
  lemma StackFits(row: seq<int>, target: int)
    ensures (forall g: Grid :: HasLastRow(g, row) && g.target == target ==> StackPeak(g, 0) <= Max(g.sx, g.sz))
            <==> EdgesOnly(row, target)
  {
    hide HasLastRow, StackPeak;
    if EdgesOnly(row, target) {
      forall g: Grid | HasLastRow(g, row) && g.target == target
        ensures StackPeak(g, 0) <= Max(g.sx, g.sz)
      {
        EdgesFit(g, row);
      }
    } else {
      var u :| 0 <= u < |row| && row[u] == target && u != |row| - 1 && (u != 0 || row[1] == target);
      if u == 0 && |row| == 2 {
        var g := PairOverflows(row, target);
        SidesOf(g, row);
      } else {
        var g := InnerOverflows(row, if u == 0 then 1 else u, target);
      }
    }
  }

  lemma SidesOf(g: Grid, row: seq<int>)
    requires HasLastRow(g, row)
    ensures g.sx == |row|
  {
  }
}
