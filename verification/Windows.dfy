/** A rectangle of a function on the plane, listed row by row: what a `getMap` call is
    expected to leave in its buffer. */
module Windows {
  import opened Products

  type Plane = (int, int) -> int

  /** `f` at (x, z), (x + 1, z), ..., w cells. */
  function Row(f: Plane, x: int, z: int, w: nat): (r: seq<int>)
    ensures |r| == w
  {
    seq(w, i => f(x + i, z))
  }

  function Window(f: Plane, x: int, z: int, w: nat, h: nat): (r: seq<int>)
    ensures |r| == Area(w, h)
  {
    AreaNext(w, 0);
    if h == 0 then []
    else
      AreaNext(w, h - 1);
      Window(f, x, z, w, h - 1) + Row(f, x, z + h - 1, w)
  }

  /** Cell (i, j) of a window is the plane's value at the world cell (x + i, z + j). */
  lemma {:induction false} WindowAt(f: Plane, x: int, z: int, w: nat, h: nat, i: nat, j: nat)
    requires i < w && j < h
    ensures Area(w, j) + i < Area(w, h)
    ensures Window(f, x, z, w, h)[Area(w, j) + i] == f(x + i, z + j)
  {
    hide Area;
    InGrid(w, h, i, j);
    AreaNext(w, h - 1);
    if j < h - 1 {
      WindowAt(f, x, z, w, h - 1, i, j);
    } else {
      LastRow(Window(f, x, z, w, h - 1), Row(f, x, z + h - 1, w), Area(w, j), i);
    }
  }

  lemma LastRow(done: seq<int>, row: seq<int>, start: nat, i: nat)
    requires |done| == start && i < |row|
    ensures (done + row)[start + i] == row[i]
  {
  }

  /** Two windows that share a world cell agree on it, wherever it falls in either. */
  lemma OverlapsAgree(f: Plane, x: int, z: int, w: nat, h: nat, x': int, z': int, w': nat, h': nat, wx: int, wz: int)
    requires x <= wx < x + w && z <= wz < z + h
    requires x' <= wx < x' + w' && z' <= wz < z' + h'
    ensures Area(w, wz - z) + (wx - x) < Area(w, h)
    ensures Area(w', wz - z') + (wx - x') < Area(w', h')
    ensures Window(f, x, z, w, h)[Area(w, wz - z) + (wx - x)] == Window(f, x', z', w', h')[Area(w', wz - z') + (wx - x')]
  {
    WindowAt(f, x, z, w, h, wx - x, wz - z);
    WindowAt(f, x', z', w', h', wx - x', wz - z');
  }

  /** A window only depends on the plane inside it. */
  lemma {:induction false} WindowCongruent(f: Plane, g: Plane, x: int, z: int, w: nat, h: nat)
    requires forall a, b | x <= a < x + w && z <= b < z + h :: f(a, b) == g(a, b)
    ensures Window(f, x, z, w, h) == Window(g, x, z, w, h)
  {
    if h > 0 {
      WindowCongruent(f, g, x, z, w, h - 1);
      assert Row(f, x, z + h - 1, w) == Row(g, x, z + h - 1, w);
    }
  }

  /** A value the plane never takes does not turn up in a window. */
  lemma {:induction false} WindowAvoids(f: Plane, v: int, x: int, z: int, w: nat, h: nat)
    requires forall a, b :: f(a, b) != v
    ensures v !in Window(f, x, z, w, h)
  {
    if h > 0 {
      WindowAvoids(f, v, x, z, w, h - 1);
      assert v !in Row(f, x, z + h - 1, w);
    }
  }

  /** Element by element, `f` is computed from `g` and `r`. */
  ghost predicate Pointwise(f: seq<int>, g: seq<int>, r: seq<int>, op: Plane) {
    && |f| == |g| == |r|
    && forall k :: 0 <= k < |f| ==> f[k] == op(g[k], r[k])
  }

  /** A plane computed cell by cell from two others gives a window computed the same way. */
  lemma {:induction false} WindowPointwise(f: Plane, g: Plane, r: Plane, op: Plane, x: int, z: int, w: nat, h: nat)
    requires forall a, b :: f(a, b) == op(g(a, b), r(a, b))
    ensures Pointwise(Window(f, x, z, w, h), Window(g, x, z, w, h), Window(r, x, z, w, h), op)
  {
    hide Area;
    if h > 0 {
      WindowPointwise(f, g, r, op, x, z, w, h - 1);
      assert Pointwise(Row(f, x, z + h - 1, w), Row(g, x, z + h - 1, w), Row(r, x, z + h - 1, w), op);
    }
  }

  /** Changing the plane at one cell changes one element of a window that contains it. */
  lemma {:induction false} WindowPatched(f: Plane, g: Plane, x: int, z: int, w: nat, h: nat, cx: int, cz: int)
    requires forall a, b | (a, b) != (cx, cz) :: f(a, b) == g(a, b)
    requires x <= cx < x + w && z <= cz < z + h
    ensures Area(w, cz - z) + (cx - x) < Area(w, h)
    ensures Window(g, x, z, w, h) == Window(f, x, z, w, h)[Area(w, cz - z) + (cx - x) := g(cx, cz)]
  {
    hide Area;
    InGrid(w, h, cx - x, cz - z);
    AreaNext(w, h - 1);
    if cz < z + h - 1 {
      WindowPatched(f, g, x, z, w, h - 1, cx, cz);
      assert Row(f, x, z + h - 1, w) == Row(g, x, z + h - 1, w);
    } else {
      WindowCongruent(f, g, x, z, w, h - 1);
      assert Row(g, x, cz, w) == Row(f, x, cz, w)[cx - x := g(cx, cz)];
    }
  }

  /** The nine cells around (x + i, z + j), in a window with a border of one cell. */
  lemma NineCells(g: Plane, x: int, z: int, w: nat, h: nat, i: nat, j: nat)
    requires i < w && j < h
    ensures
      var src := Window(g, x - 1, z - 1, w + 2, h + 2);
      var r0 := Area(w + 2, j);
      var r1 := r0 + w + 2;
      var r2 := r1 + w + 2;
      && Area(w, j) + i <= r0 + i && r2 + i + 2 < |src|
      && src[r0 + i] == g(x + i - 1, z + j - 1) && src[r0 + i + 1] == g(x + i, z + j - 1)
      && src[r0 + i + 2] == g(x + i + 1, z + j - 1)
      && src[r1 + i] == g(x + i - 1, z + j) && src[r1 + i + 1] == g(x + i, z + j)
      && src[r1 + i + 2] == g(x + i + 1, z + j)
      && src[r2 + i] == g(x + i - 1, z + j + 1) && src[r2 + i + 1] == g(x + i, z + j + 1)
      && src[r2 + i + 2] == g(x + i + 1, z + j + 1)
  {
    hide Area;
    hide Window;
    var pW, pH := w + 2, h + 2;
    AreaMonotone(w, j, pW, j);
    AreaNext(pW, j);
    AreaNext(pW, j + 1);
    Column(g, x - 1, z - 1, pW, pH, i, j);
    Column(g, x - 1, z - 1, pW, pH, i + 1, j);
    Column(g, x - 1, z - 1, pW, pH, i + 2, j);
  }

  /** Three cells of one column. */
  lemma Column(g: Plane, x: int, z: int, w: nat, h: nat, i: nat, j: nat)
    requires i < w && j + 2 < h
    ensures
      var src := Window(g, x, z, w, h);
      var r0 := Area(w, j);
      && r0 + w + w + i < |src|
      && src[r0 + i] == g(x + i, z + j)
      && src[r0 + w + i] == g(x + i, z + j + 1)
      && src[r0 + w + w + i] == g(x + i, z + j + 2)
  {
    hide Area;
    hide Window;
    AreaNext(w, j);
    AreaNext(w, j + 1);
    WindowAt(g, x, z, w, h, i, j);
    WindowAt(g, x, z, w, h, i, j + 1);
    WindowAt(g, x, z, w, h, i, j + 2);
  }
}
