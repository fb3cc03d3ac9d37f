/** The biome lookup of 1.18 and later (biomenoise.c): a branch-and-bound search for the
    parameter box nearest to a climate point, over a tree flattened into one array. */
module ClimateTree {
  import opened Wrappers
  import opened Words
  import opened Products

  /** A node word holds six byte indices into `param` and, in its top 16 bits, the first child
      of an inner node. `steps` lists the distance between siblings, level by level. */
  datatype BiomeTree = BiomeTree(steps: seq<nat>, param: seq<(int, int)>, nodes: seq<nat>, order: nat)

  type Point = p: seq<int> | |p| == 6 witness [0, 0, 0, 0, 0, 0]

  function ParamIndex(node: nat, i: nat): nat
    requires i < 6
  {
    (node / [1, 0x100, 0x1_0000, 0x100_0000, 0x1_0000_0000, 0x100_0000_0000][i]) % 0x100
  }

  function FirstChild(node: nat): nat {
    node / TWO48 % 0x1_0000
  }

  /** A node word put together: six bytes from the lowest on, and 16 bits for the first child, of which
      a leaf uses eight for its biome. */
  function NodeWord(b: seq<nat>, child: nat): nat
    requires |b| == 6
  {
    b[0] + 0x100 * (b[1] + 0x100 * (b[2] + 0x100 * (b[3] + 0x100 * (b[4] + 0x100 * (b[5] + 0x100 * child)))))
  }

  /** What is put into a node word is read out of it again, and every 64-bit word is one. */
  lemma NodeFields(b: seq<nat>, child: nat, node: nat)
    requires |b| == 6 && (forall i :: 0 <= i < 6 ==> b[i] < 0x100) && child < 0x1_0000
    ensures node == NodeWord(b, child)
            <==> node < TWO64 && FirstChild(node) == child && forall i: nat :: i < 6 ==> ParamIndex(node, i) == b[i]
  {
    if node == NodeWord(b, child) {
      WordFields(b, child);
    }
    if node < TWO64 && FirstChild(node) == child && forall i: nat :: i < 6 ==> ParamIndex(node, i) == b[i] {
      assert ParamIndex(node, 0) == b[0] && ParamIndex(node, 1) == b[1] && ParamIndex(node, 2) == b[2];
      assert ParamIndex(node, 3) == b[3] && ParamIndex(node, 4) == b[4] && ParamIndex(node, 5) == b[5];
      FieldsWord(node);
      assert b == seq(6, i requires 0 <= i < 6 => ParamIndex(node, i));
    }
  }

  lemma WordFields(b: seq<nat>, child: nat)
    requires |b| == 6 && (forall i :: 0 <= i < 6 ==> b[i] < 0x100) && child < 0x1_0000
    ensures var node := NodeWord(b, child);
            node < TWO64 && FirstChild(node) == child && forall i: nat :: i < 6 ==> ParamIndex(node, i) == b[i]
  {
    hide ParamIndex;
    var r5 := b[5] + 0x100 * child;
    var r4 := b[4] + 0x100 * r5;
    var r3 := b[3] + 0x100 * r4;
    var r2 := b[2] + 0x100 * r3;
    var r1 := b[1] + 0x100 * r2;
    var node := b[0] + 0x100 * r1;
    LastByte(b[0], r1);
    LastByte(b[1], r2);
    LastByte(b[2], r3);
    LastByte(b[3], r4);
    LastByte(b[4], r5);
    LastByte(b[5], child);
    BytesOf(node, r1, r2, r3, r4, r5, child);
    forall i: nat | i < 6
      ensures ParamIndex(node, i) == b[i]
    {
      assert i == 0 || i == 1 || i == 2 || i == 3 || i == 4 || i == 5;
    }
  }

  lemma BytesOf(node: nat, q1: nat, q2: nat, q3: nat, q4: nat, q5: nat, q6: nat)
    requires node / 0x100 == q1 && q1 / 0x100 == q2 && q2 / 0x100 == q3 && q3 / 0x100 == q4 && q4 / 0x100 == q5 && q5 / 0x100 == q6
    ensures ParamIndex(node, 0) == node % 0x100 && ParamIndex(node, 1) == q1 % 0x100 && ParamIndex(node, 2) == q2 % 0x100
    ensures ParamIndex(node, 3) == q3 % 0x100 && ParamIndex(node, 4) == q4 % 0x100 && ParamIndex(node, 5) == q5 % 0x100
    ensures FirstChild(node) == q6 % 0x1_0000
  {
    Quotients(node);
  }

  lemma LastByte(b: nat, rest: nat)
    requires b < 0x100
    ensures (b + 0x100 * rest) / 0x100 == rest && (b + 0x100 * rest) % 0x100 == b
  {
  }

  lemma FieldsWord(node: nat)
    requires node < TWO64
    ensures node == NodeWord(seq(6, i requires 0 <= i < 6 => ParamIndex(node, i)), FirstChild(node))
  {
    Quotients(node);
    var q1, q2, q3 := node / 0x100, node / 0x1_0000, node / 0x100_0000;
    var q4, q5, q6 := node / 0x1_0000_0000, node / 0x100_0000_0000, node / TWO48;
    assert node == ParamIndex(node, 0) + 0x100 * q1;
    assert q1 == ParamIndex(node, 1) + 0x100 * q2;
    assert q2 == ParamIndex(node, 2) + 0x100 * q3;
    assert q3 == ParamIndex(node, 3) + 0x100 * q4;
    assert q4 == ParamIndex(node, 4) + 0x100 * q5;
    assert q5 == ParamIndex(node, 5) + 0x100 * q6;
    assert q6 == FirstChild(node);
  }

  /** Shifting by a byte more is shifting the shifted word by a byte. */
  lemma Quotients(node: nat)
    ensures node / 0x100 / 0x100 == node / 0x1_0000
    ensures node / 0x1_0000 / 0x100 == node / 0x100_0000
    ensures node / 0x100_0000 / 0x100 == node / 0x1_0000_0000
    ensures node / 0x1_0000_0000 / 0x100 == node / 0x100_0000_0000
    ensures node / 0x100_0000_0000 / 0x100 == node / TWO48
  {
  }

  predicate HasBoxes(bt: BiomeTree) {
    && |bt.nodes| < 0x1_0000
    && (forall k :: 0 <= k < |bt.param| ==> bt.param[k].0 <= bt.param[k].1)
    && forall idx: nat, i: nat :: idx < |bt.nodes| && i < 6 ==> ParamIndex(bt.nodes[idx], i) < |bt.param|
  }

  /** Side i of the box of node idx. */
  function Side(bt: BiomeTree, idx: nat, i: nat): (int, int)
    requires HasBoxes(bt) && idx < |bt.nodes| && i < 6
  {
    bt.param[ParamIndex(bt.nodes[idx], i)]
  }

  // ----- the distance

  /** How far v lies outside of an interval. */
  function Outside(v: int, side: (int, int)): int {
    if v > side.1 then v - side.1 else if side.0 > v then side.0 - v else 0
  }

  /** The sum of squares over the first i dimensions. */
  function PartDist(np: Point, bt: BiomeTree, idx: nat, i: nat): int
    requires HasBoxes(bt) && idx < |bt.nodes| && i <= 6
  {
    if i == 0 then 0 else PartDist(np, bt, idx, i - 1) + Square(Outside(np[i - 1], Side(bt, idx, i - 1)))
  }

  function Dist(np: Point, bt: BiomeTree, idx: nat): int
    requires HasBoxes(bt) && idx < |bt.nodes|
  {
    PartDist(np, bt, idx, 6)
  }

  const BOUND := 0x2000_0000

  /** Inputs small enough for the squares and their sum to stay within 64 bits. */
  predicate Bounded(np: Point, bt: BiomeTree) {
    && (forall i :: 0 <= i < 6 ==> -BOUND <= np[i] <= BOUND)
    && (forall k :: 0 <= k < |bt.param| ==> -BOUND <= bt.param[k].0 <= BOUND && -BOUND <= bt.param[k].1 <= BOUND)
  }

  lemma SmallSquare(x: int)
    requires 0 <= x <= 2 * BOUND
    ensures 0 <= Square(x) <= 0x1000_0000_0000_0000
  {
    SquareBound(x, 2 * BOUND);
  }

  lemma {:induction false} PartDistBound(np: Point, bt: BiomeTree, idx: nat, i: nat)
    requires HasBoxes(bt) && Bounded(np, bt) && idx < |bt.nodes| && i <= 6
    ensures 0 <= PartDist(np, bt, idx, i) <= i * 0x1000_0000_0000_0000
  {
    if i > 0 {
      PartDistBound(np, bt, idx, i - 1);
      SmallSquare(Outside(np[i - 1], Side(bt, idx, i - 1)));
    }
  }

  /** The wrapped differences, with their signs read back, say how far a value is outside. */
  lemma OutsideExact(v: int, side: (int, int))
    requires -BOUND <= v <= BOUND && -BOUND <= side.0 <= side.1 <= BOUND
    ensures var a, b := U64(U64(v) - U64(side.1)), U64(U64(side.0) - U64(v));
            (if Signed64(a) > 0 then a else if Signed64(b) > 0 then b else 0) == Outside(v, side)
  {
    hide U64, Signed64;
    WrapExact(v, side.1);
    WrapExact(side.0, v);
  }

  /** One more square does not wrap. */
  lemma PartExact(np: Point, bt: BiomeTree, idx: nat, i: nat)
    requires HasBoxes(bt) && Bounded(np, bt) && idx < |bt.nodes| && i < 6
    ensures var d := Outside(np[i], Side(bt, idx, i));
            U64(PartDist(np, bt, idx, i) + U64(Square(d))) == PartDist(np, bt, idx, i + 1)
  {
    hide ParamIndex, Square;
    SmallSquare(Outside(np[i], Side(bt, idx, i)));
    PartDistBound(np, bt, idx, i);
    PartDistBound(np, bt, idx, i + 1);
  }

  /** get_np_dist in wrapping 64-bit arithmetic, with the signs read back from the wrapped
      differences, computes the distance to the box. */
  method GetNpDist(np: Point, bt: BiomeTree, idx: nat) returns (ds: nat)
    requires HasBoxes(bt) && Bounded(np, bt) && idx < |bt.nodes|
    ensures ds == Dist(np, bt, idx) < TWO63
  {
    hide ParamIndex, Square, U64, Signed64, Outside;
    PartDistBound(np, bt, idx, 0);
    ds := 0;
    var i := 0;
    while i < 6
      invariant 0 <= i <= 6
      invariant ds == PartDist(np, bt, idx, i)
    {
      var side := Side(bt, idx, i);
      var a, b := U64(U64(np[i]) - U64(side.1)), U64(U64(side.0) - U64(np[i]));
      var d := if Signed64(a) > 0 then a else if Signed64(b) > 0 then b else 0;
      OutsideExact(np[i], side);
      PartExact(np, bt, idx, i);
      d := U64(Square(d));
      ds := U64(ds + d);
      i := i + 1;
    }
    PartDistBound(np, bt, idx, 6);
  }

  lemma WrapExact(x: int, y: int)
    requires -BOUND <= x <= BOUND && -BOUND <= y <= BOUND
    ensures
      var w := U64(U64(x) - U64(y));
      Signed64(w) == x - y && (x - y >= 0 ==> w == x - y)
  {
  }

  // ----- the flattened tree

  /** The level the search uses below a node: the first one, from `depth` on, whose step stays
      inside the array. */
  function Level(bt: BiomeTree, idx: nat, depth: nat): (d: nat)
    ensures d >= depth
    decreases |bt.steps| - depth
  {
    if depth < |bt.steps| && idx + bt.steps[depth] >= |bt.nodes| then Level(bt, idx, depth + 1) else depth
  }

  /** Up to `count` nodes, `step` apart, inside the array. */
  function Siblings(bt: BiomeTree, first: nat, step: nat, count: nat): seq<nat>
    decreases count
  {
    if count == 0 || first >= |bt.nodes| then [] else [first] + Siblings(bt, first + step, step, count - 1)
  }

  function Kids(bt: BiomeTree, idx: nat, depth: nat): seq<nat>
    requires idx < |bt.nodes|
  {
    var d := Level(bt, idx, depth);
    Siblings(bt, FirstChild(bt.nodes[idx]), if d < |bt.steps| then bt.steps[d] else 0, bt.order)
  }

  predicate Contains(bt: BiomeTree, outer: nat, inner: nat)
    requires HasBoxes(bt) && outer < |bt.nodes| && inner < |bt.nodes|
  {
    forall i: nat :: i < 6 ==> Side(bt, outer, i).0 <= Side(bt, inner, i).0 && Side(bt, inner, i).1 <= Side(bt, outer, i).1
  }

  /** The part of the tree below (idx, depth) is complete, and every box in it contains the
      boxes below; the box of `idx` itself only has to if `boxed`. The root of the shipped
      tables is the single point 0, so it is the one node that is not. */
  ghost predicate NodeOk(bt: BiomeTree, idx: nat, depth: nat, boxed: bool)
    requires HasBoxes(bt)
    decreases |bt.steps| - depth
  {
    && idx < |bt.nodes| && depth < |bt.steps|
    && (bt.steps[depth] > 0 ==>
          var d := Level(bt, idx, depth);
          && d + 1 < |bt.steps| && 0 < bt.steps[d] && |bt.nodes| + bt.steps[d] < 0x1_0000
          && Kids(bt, idx, depth) != []
          && var kids := Kids(bt, idx, depth);
             forall i :: 0 <= i < |kids| ==> NodeOk(bt, kids[i], d + 1, true) && (boxed ==> Contains(bt, idx, kids[i])))
  }

  ghost predicate AllOk(bt: BiomeTree, kids: seq<nat>, depth: nat)
    requires HasBoxes(bt)
  {
    forall i :: 0 <= i < |kids| ==> NodeOk(bt, kids[i], depth, true)
  }

  /** All leaves below a node, in the order of the array. */
  ghost function Leaves(bt: BiomeTree, idx: nat, depth: nat, boxed: bool): seq<nat>
    requires HasBoxes(bt) && NodeOk(bt, idx, depth, boxed)
    decreases |bt.steps| - depth, 0
  {
    if bt.steps[depth] == 0 then [idx] else LeavesOf(bt, Kids(bt, idx, depth), Level(bt, idx, depth) + 1)
  }

  ghost function LeavesOf(bt: BiomeTree, kids: seq<nat>, depth: nat): seq<nat>
    requires HasBoxes(bt) && AllOk(bt, kids, depth)
    decreases |bt.steps| - depth, 1, |kids|
  {
    if kids == [] then [] else Leaves(bt, kids[0], depth, true) + LeavesOf(bt, kids[1..], depth)
  }

  /** A box is never farther away than a box inside it. */
  lemma {:induction false} ContainsCloser(np: Point, bt: BiomeTree, outer: nat, inner: nat, i: nat)
    requires HasBoxes(bt) && outer < |bt.nodes| && inner < |bt.nodes| && Contains(bt, outer, inner) && i <= 6
    ensures PartDist(np, bt, outer, i) <= PartDist(np, bt, inner, i)
  {
    hide ParamIndex;
    if i > 0 {
      ContainsCloser(np, bt, outer, inner, i - 1);
      var u, v := Outside(np[i - 1], Side(bt, outer, i - 1)), Outside(np[i - 1], Side(bt, inner, i - 1));
      assert 0 <= u <= v;
      Monotone2(u, v, u, v);
    }
  }

  /** No leaf is closer than a box above it: the bound that justifies the pruning. */
  lemma {:induction false} LeavesFarther(np: Point, bt: BiomeTree, idx: nat, depth: nat, leaf: nat)
    requires HasBoxes(bt) && NodeOk(bt, idx, depth, true) && leaf in Leaves(bt, idx, depth, true)
    ensures leaf < |bt.nodes| && Dist(np, bt, idx) <= Dist(np, bt, leaf)
    decreases |bt.steps| - depth
  {
    if bt.steps[depth] > 0 {
      var d := Level(bt, idx, depth);
      var k := LeafBelow(bt, Kids(bt, idx, depth), d + 1, leaf);
      LeavesFarther(np, bt, k, d + 1, leaf);
      ContainsCloser(np, bt, idx, k, 6);
    }
  }

  lemma {:induction false} LeafBelow(bt: BiomeTree, kids: seq<nat>, depth: nat, leaf: nat) returns (k: nat)
    requires HasBoxes(bt) && (AllOk(bt, kids, depth)) && leaf in LeavesOf(bt, kids, depth)
    ensures k in kids && leaf in Leaves(bt, k, depth, true)
  {
    if leaf in Leaves(bt, kids[0], depth, true) {
      k := kids[0];
    } else {
      k := LeafBelow(bt, kids[1..], depth, leaf);
    }
  }

  lemma {:induction false} LeavesExist(bt: BiomeTree, idx: nat, depth: nat, boxed: bool)
    requires HasBoxes(bt) && NodeOk(bt, idx, depth, boxed)
    ensures Leaves(bt, idx, depth, boxed) != []
    decreases |bt.steps| - depth
  {
    if bt.steps[depth] > 0 {
      LeavesExist(bt, Kids(bt, idx, depth)[0], Level(bt, idx, depth) + 1, true);
    }
  }

  // ----- the reference: look at every leaf in turn, keep the first of the nearest

  predicate InTree(bt: BiomeTree, leaves: seq<nat>) {
    forall i :: 0 <= i < |leaves| ==> leaves[i] < |bt.nodes|
  }

  ghost function Scan(np: Point, bt: BiomeTree, leaves: seq<nat>, leaf: nat, ds: int): (r: (nat, int))
    requires HasBoxes(bt) && InTree(bt, leaves)
    decreases |leaves|
  {
    if leaves == [] then (leaf, ds)
    else if Dist(np, bt, leaves[0]) < ds then Scan(np, bt, leaves[1..], leaves[0], Dist(np, bt, leaves[0]))
    else Scan(np, bt, leaves[1..], leaf, ds)
  }

  lemma {:induction false} ScanAppend(np: Point, bt: BiomeTree, a: seq<nat>, b: seq<nat>, leaf: nat, ds: int)
    requires HasBoxes(bt) && InTree(bt, a) && InTree(bt, b)
    ensures var r := Scan(np, bt, a, leaf, ds); Scan(np, bt, a + b, leaf, ds) == Scan(np, bt, b, r.0, r.1)
    decreases |a|
  {
    if a == [] {
      assert a + b == b;
    } else {
      assert (a + b)[1..] == a[1..] + b && (a + b)[0] == a[0];
      var closer := Dist(np, bt, a[0]) < ds;
      ScanAppend(np, bt, a[1..], b, if closer then a[0] else leaf, if closer then Dist(np, bt, a[0]) else ds);
    }
  }

  /** What the reference returns: a nearest leaf, and the given one unless some leaf is nearer
      than the given distance. */
  lemma {:induction false} ScanNearest(np: Point, bt: BiomeTree, leaves: seq<nat>, leaf: nat, ds: int)
    requires HasBoxes(bt) && InTree(bt, leaves)
    ensures
      var r := Scan(np, bt, leaves, leaf, ds);
      && r.1 <= ds && (forall i :: 0 <= i < |leaves| ==> r.1 <= Dist(np, bt, leaves[i]))
      && (r == (leaf, ds) || (r.0 in leaves && r.1 == Dist(np, bt, r.0) < ds))
      && (r == (leaf, ds) <== forall i :: 0 <= i < |leaves| ==> ds <= Dist(np, bt, leaves[i]))
    decreases |leaves|
  {
    if leaves != [] {
      var closer := Dist(np, bt, leaves[0]) < ds;
      ScanNearest(np, bt, leaves[1..], if closer then leaves[0] else leaf, if closer then Dist(np, bt, leaves[0]) else ds);
      assert forall i :: 1 <= i < |leaves| ==> leaves[i] == leaves[1..][i - 1];
    }
  }

  // ----- the search

  const MAX64 := TWO64 - 1

  lemma {:induction false} LeavesInTree(bt: BiomeTree, idx: nat, depth: nat, boxed: bool)
    requires HasBoxes(bt) && NodeOk(bt, idx, depth, boxed)
    ensures InTree(bt, Leaves(bt, idx, depth, boxed))
    decreases |bt.steps| - depth, 0
  {
    if bt.steps[depth] > 0 {
      AllInTree(bt, Kids(bt, idx, depth), Level(bt, idx, depth) + 1);
    }
  }

  lemma {:induction false} AllInTree(bt: BiomeTree, kids: seq<nat>, depth: nat)
    requires HasBoxes(bt) && AllOk(bt, kids, depth)
    ensures InTree(bt, LeavesOf(bt, kids, depth))
    decreases |bt.steps| - depth, 1, |kids|
  {
    if kids != [] {
      LeavesInTree(bt, kids[0], depth, true);
      AllInTree(bt, kids[1..], depth);
    }
  }

  /** What one child adds to the reference scan: nothing if its box is no nearer than the best
      so far, and otherwise what the recursive search reports. */
  lemma ChildStep(np: Point, bt: BiomeTree, kid: nat, depth: nat, leaf: nat, ds: int)
    requires HasBoxes(bt) && Bounded(np, bt) && NodeOk(bt, kid, depth, true)
    requires leaf < |bt.nodes| && (ds == Dist(np, bt, leaf) || ds == MAX64)
    ensures InTree(bt, Leaves(bt, kid, depth, true))
    ensures
      var r := Scan(np, bt, Leaves(bt, kid, depth, true), leaf, ds);
      && r.0 < |bt.nodes| && (r.1 == Dist(np, bt, r.0) || r == (leaf, MAX64))
      && (ds <= Dist(np, bt, kid) ==> r == (leaf, ds))
      && (bt.steps[depth] == 0 && Dist(np, bt, kid) < ds ==> r.0 == kid)
      && (Dist(np, bt, kid) < ds ==> r == if Dist(np, bt, r.0) < ds then (r.0, Dist(np, bt, r.0)) else (leaf, ds))
  {
    var leaves := Leaves(bt, kid, depth, true);
    LeavesInTree(bt, kid, depth, true);
    LeavesExist(bt, kid, depth, true);
    ScanNearest(np, bt, leaves, leaf, ds);
    forall i | 0 <= i < |leaves|
      ensures Dist(np, bt, kid) <= Dist(np, bt, leaves[i]) < MAX64
    {
      LeavesFarther(np, bt, kid, depth, leaves[i]);
      PartDistBound(np, bt, leaves[i], 6);
    }
    var r := Scan(np, bt, leaves, leaf, ds);
    assert r.1 <= Dist(np, bt, leaves[0]);
  }

  /** get_resulting_node: below an inner node it finds exactly what the reference scan over all
      its leaves would find, however much it prunes. */
  method GetResultingNode(np: Point, bt: BiomeTree, idx: nat, alt: nat, ds0: nat, depth0: nat, ghost boxed: bool)
    returns (leaf: nat)
    requires HasBoxes(bt) && Bounded(np, bt) && NodeOk(bt, idx, depth0, boxed)
    requires alt < |bt.nodes| && (ds0 == Dist(np, bt, alt) || ds0 == MAX64)
    ensures leaf < |bt.nodes|
    ensures bt.steps[depth0] == 0 ==> leaf == idx
    ensures bt.steps[depth0] > 0 ==>
      InTree(bt, Leaves(bt, idx, depth0, boxed)) && leaf == Scan(np, bt, Leaves(bt, idx, depth0, boxed), alt, ds0).0
    decreases |bt.steps| - depth0
  {
    hide Dist;
    hide ParamIndex;
    hide Contains;
    hide ToGo;
    hide Scan;
    hide Leaves;
    if bt.steps[depth0] == 0 {
      return idx;
    }
    var ds, depth := ds0, depth0;
    var step := bt.steps[depth];
    depth := depth + 1;
    while idx + step >= |bt.nodes|
      invariant depth0 < depth <= Level(bt, idx, depth0) + 1 && depth <= |bt.steps| && step == bt.steps[depth - 1]
      invariant Level(bt, idx, depth - 1) == Level(bt, idx, depth0)
      decreases |bt.steps| - depth
    {
      step := bt.steps[depth];
      depth := depth + 1;
    }
    var inner: nat := FirstChild(bt.nodes[idx]);
    LeavesInTree(bt, idx, depth0, boxed);
    ghost var goal := Scan(np, bt, Leaves(bt, idx, depth0, boxed), alt, ds0);
    StartToGo(np, bt, idx, depth0, boxed, alt, ds0);
    leaf := alt;
    var i := 0;
    while i < bt.order
      invariant 0 <= i <= bt.order
      invariant i < bt.order ==> inner < |bt.nodes|
      invariant leaf < |bt.nodes| && (ds == Dist(np, bt, leaf) || ds == MAX64)
      invariant ToGo(np, bt, Siblings(bt, inner, step, bt.order - i), depth, leaf, ds, goal)
    {
      StepToGo(np, bt, inner, step, bt.order - i, depth, leaf, ds, goal);
      ChildStep(np, bt, inner, depth, leaf, ds);
      var ds_inner := GetNpDist(np, bt, inner);
      if ds_inner < ds {
        var leaf2 := GetResultingNode(np, bt, inner, leaf, ds, depth, true);
        var ds_leaf2 := ds_inner;
        if inner != leaf2 {
          ds_leaf2 := GetNpDist(np, bt, leaf2);
        }
        if ds_leaf2 < ds {
          ds, leaf := ds_leaf2, leaf2;
        }
      }
      inner := (inner + step) % 0x1_0000;
      i := i + 1;
      if inner >= |bt.nodes| {
        break;
      }
    }
    DoneToGo(np, bt, Siblings(bt, inner, step, bt.order - i), depth, leaf, ds, goal);
  }

  lemma StartToGo(np: Point, bt: BiomeTree, idx: nat, depth: nat, boxed: bool, leaf: nat, ds: int)
    requires HasBoxes(bt) && NodeOk(bt, idx, depth, boxed) && bt.steps[depth] > 0 && InTree(bt, Leaves(bt, idx, depth, boxed))
    ensures Kids(bt, idx, depth) != []
    ensures ToGo(np, bt, Kids(bt, idx, depth), Level(bt, idx, depth) + 1, leaf, ds,
                 Scan(np, bt, Leaves(bt, idx, depth, boxed), leaf, ds))
  {
  }

  lemma DoneToGo(np: Point, bt: BiomeTree, kids: seq<nat>, depth: nat, leaf: nat, ds: int, goal: (nat, int))
    requires kids == [] && ToGo(np, bt, kids, depth, leaf, ds, goal)
    ensures goal == (leaf, ds)
  {
  }

  /** Scanning the leaves below the remaining children from (leaf, ds) gives the goal. */
  ghost predicate ToGo(np: Point, bt: BiomeTree, kids: seq<nat>, depth: nat, leaf: nat, ds: int, goal: (nat, int)) {
    && HasBoxes(bt) && AllOk(bt, kids, depth) && InTree(bt, LeavesOf(bt, kids, depth))
    && Scan(np, bt, LeavesOf(bt, kids, depth), leaf, ds) == goal
  }

  lemma StepToGo(np: Point, bt: BiomeTree, inner: nat, step: nat, count: nat, depth: nat, leaf: nat, ds: int, goal: (nat, int))
    requires count > 0 && inner < |bt.nodes| && ToGo(np, bt, Siblings(bt, inner, step, count), depth, leaf, ds, goal)
    ensures NodeOk(bt, inner, depth, true) && InTree(bt, Leaves(bt, inner, depth, true))
    ensures
      var r := Scan(np, bt, Leaves(bt, inner, depth, true), leaf, ds);
      ToGo(np, bt, Siblings(bt, inner + step, step, count - 1), depth, r.0, r.1, goal)
  {
    var kids, rest := Siblings(bt, inner, step, count), Siblings(bt, inner + step, step, count - 1);
    assert kids[0] == inner && kids[1..] == rest;
    assert forall i :: 0 <= i < |rest| ==> rest[i] == kids[i + 1];
    AllInTree(bt, rest, depth);
    LeavesInTree(bt, inner, depth, true);
    ScanAppend(np, bt, Leaves(bt, inner, depth, true), LeavesOf(bt, rest, depth), leaf, ds);
  }

  // ----- climateToBiome

  /** Every leaf of the tree, in the order of the array. */
  ghost function AllLeaves(bt: BiomeTree): (leaves: seq<nat>)
    requires HasBoxes(bt) && NodeOk(bt, 0, 0, false)
    ensures InTree(bt, leaves)
  {
    LeavesInTree(bt, 0, 0, false);
    Leaves(bt, 0, 0, false)
  }

  /** A leaf that no leaf is closer than. */
  ghost predicate Nearest(np: Point, bt: BiomeTree, leaf: nat)
    requires HasBoxes(bt) && NodeOk(bt, 0, 0, false)
  {
    && leaf in AllLeaves(bt) && leaf < |bt.nodes|
    && forall k :: k in AllLeaves(bt) && k < |bt.nodes| ==> Dist(np, bt, leaf) <= Dist(np, bt, k)
  }

  /** The node that a lookup comes to, by scanning all leaves. */
  ghost function Lookup(np: Point, bt: BiomeTree, dat: Option<nat>): nat
    requires HasBoxes(bt) && NodeOk(bt, 0, 0, false) && (dat.Some? ==> dat.value < |bt.nodes|)
  {
    match dat
    case None => Scan(np, bt, AllLeaves(bt), 0, MAX64).0
    case Some(hint) => Scan(np, bt, AllLeaves(bt), hint, Dist(np, bt, hint)).0
  }

  /** Without a hint the lookup returns a nearest leaf. With the node of an earlier lookup as
      the hint it keeps that node exactly when no leaf is closer than it, and returns a nearest
      leaf otherwise; so a hint that is a leaf can only decide between tied leaves. */
  method ClimateToBiome(np: Point, bt: BiomeTree, dat: Option<nat>) returns (biome: nat, idx: nat)
    requires HasBoxes(bt) && Bounded(np, bt) && NodeOk(bt, 0, 0, false) && bt.steps[0] > 0
    requires dat.Some? ==> dat.value < |bt.nodes|
    ensures idx < |bt.nodes| && biome == FirstChild(bt.nodes[idx]) % 0x100 && idx == Lookup(np, bt, dat)
    ensures dat.None? ==> Nearest(np, bt, idx)
    ensures dat.Some? ==>
      (idx == dat.value <==> forall k :: k in AllLeaves(bt) && k < |bt.nodes| ==> Dist(np, bt, dat.value) <= Dist(np, bt, k))
    ensures dat.Some? && (idx != dat.value || dat.value in AllLeaves(bt)) ==> Nearest(np, bt, idx)
  {
    hide Dist;
    hide Scan;
    hide Leaves;
    ghost var leaves := AllLeaves(bt);
    LeavesInTree(bt, 0, 0, false);
    LeavesExist(bt, 0, 0, false);
    if dat.Some? {
      var ds := GetNpDist(np, bt, dat.value);
      idx := GetResultingNode(np, bt, 0, dat.value, ds, 0, false);
      ScanNearest(np, bt, leaves, dat.value, ds);
    } else {
      idx := GetResultingNode(np, bt, 0, 0, MAX64, 0, false);
      ScanNearest(np, bt, leaves, 0, MAX64);
      DistBound(np, bt, leaves[0]);
    }
    biome := FirstChild(bt.nodes[idx]) % 0x100;
  }

  lemma DistBound(np: Point, bt: BiomeTree, idx: nat)
    requires HasBoxes(bt) && Bounded(np, bt) && idx < |bt.nodes|
    ensures 0 <= Dist(np, bt, idx) < MAX64
  {
    PartDistBound(np, bt, idx, 6);
  }

  /** Any two lookups that return a nearest leaf return the same one, unless two are tied. */
  lemma NearestAgree(np: Point, bt: BiomeTree, a: nat, b: nat)
    requires HasBoxes(bt) && NodeOk(bt, 0, 0, false) && Nearest(np, bt, a) && Nearest(np, bt, b)
    ensures Dist(np, bt, a) == Dist(np, bt, b)
    ensures (forall k :: k in AllLeaves(bt) && k < |bt.nodes| && k != a ==> Dist(np, bt, k) > Dist(np, bt, a)) ==> a == b
  {
    hide Dist;
    hide AllLeaves;
  }

  predicate BoxesBounded(bt: BiomeTree) {
    forall k :: 0 <= k < |bt.param| ==> -BOUND <= bt.param[k].0 <= BOUND && -BOUND <= bt.param[k].1 <= BOUND
  }

  /** A node given as hint is harmless exactly if it is a leaf. */
  lemma HintExact(bt: BiomeTree, hint: nat)
    requires HasBoxes(bt) && BoxesBounded(bt) && NodeOk(bt, 0, 0, false) && bt.steps[0] > 0 && hint < |bt.nodes|
    ensures (forall np: Point :: Bounded(np, bt) ==> Nearest(np, bt, Lookup(np, bt, Some(hint)))) <==> hint in AllLeaves(bt)
  {
    hide Leaves, AllLeaves, Dist, ParamIndex, NodeOk;
    if hint in AllLeaves(bt) {
      forall np: Point | Bounded(np, bt)
        ensures Nearest(np, bt, Lookup(np, bt, Some(hint)))
      {
        ScanNearest(np, bt, AllLeaves(bt), hint, Dist(np, bt, hint));
      }
    } else {
      var np: Point := seq(6, i requires 0 <= i < 6 => Side(bt, hint, i).0);
      assert Bounded(np, bt);
      HintKept(np, bt, hint);
    }
  }

  /** A node is returned for every point of its own box for which it is the hint. */
  lemma HintKept(np: Point, bt: BiomeTree, hint: nat)
    requires HasBoxes(bt) && NodeOk(bt, 0, 0, false) && bt.steps[0] > 0 && hint < |bt.nodes|
    requires forall i: nat :: i < 6 ==> Side(bt, hint, i).0 <= np[i] <= Side(bt, hint, i).1
    ensures Lookup(np, bt, Some(hint)) == hint
  {
    hide ParamIndex, Leaves, NodeOk;
    InsideDist(np, bt, hint, 6);
    ScanNearest(np, bt, AllLeaves(bt), hint, 0);
    forall i | 0 <= i < |AllLeaves(bt)|
      ensures 0 <= Dist(np, bt, AllLeaves(bt)[i])
    {
      DistNonNegative(np, bt, AllLeaves(bt)[i], 6);
    }
  }

  /** The very first lookup of a run is given the root, node 0, as its hint. In the shipped
      tables the root is the point 0, so at that point the root itself is returned, and no leaf. */
  lemma RootAsHint(bt: BiomeTree)
    requires HasBoxes(bt) && NodeOk(bt, 0, 0, false) && bt.steps[0] > 0
    requires (forall i: nat :: i < 6 ==> Side(bt, 0, i) == (0, 0)) && 0 !in AllLeaves(bt)
    ensures
      var origin := [0, 0, 0, 0, 0, 0];
      Lookup(origin, bt, Some(0)) == 0 && !Nearest(origin, bt, Lookup(origin, bt, Some(0)))
  {
    var origin: Point := [0, 0, 0, 0, 0, 0];
    HintKept(origin, bt, 0);
  }

  lemma {:induction false} InsideDist(np: Point, bt: BiomeTree, idx: nat, i: nat)
    requires HasBoxes(bt) && idx < |bt.nodes| && i <= 6
    requires forall k: nat :: k < 6 ==> Side(bt, idx, k).0 <= np[k] <= Side(bt, idx, k).1
    ensures PartDist(np, bt, idx, i) == 0
  {
    hide ParamIndex;
    if i > 0 {
      InsideDist(np, bt, idx, i - 1);
    }
  }

  lemma {:induction false} DistNonNegative(np: Point, bt: BiomeTree, idx: nat, i: nat)
    requires HasBoxes(bt) && idx < |bt.nodes| && i <= 6
    ensures 0 <= PartDist(np, bt, idx, i)
  {
    if i > 0 {
      DistNonNegative(np, bt, idx, i - 1);
      var d := Outside(np[i - 1], Side(bt, idx, i - 1));
      Monotone(0, d, d);
    }
  }
}
