/** The Nether fortress generator of finders.c: a growing array of pieces, threaded by `next`
    links into the list of those still to be extended. What the random generator draws is arbitrary. */
module Fortress {
  import opened Wrappers
  import opened Points
  import Products

  /** `next` is the index of the next pending piece, or -1. */
  datatype Piece = Piece(typ: nat, pos: Pos3, bb0: Pos3, bb1: Pos3, rot: nat, depth: nat, next: int)

  datatype Info = Info(offset: Pos3, size: Pos3, skip: nat, repeatable: bool, weight: nat, max: nat)

  const START := 0
  const BRIDGE_STRAIGHT := 1
  const BRIDGE_CROSSING := 2
  const BRIDGE_FORTIFIED_CROSSING := 3
  const BRIDGE_STAIRS := 4
  const BRIDGE_SPAWNER := 5
  const BRIDGE_CORRIDOR_ENTRANCE := 6
  const CORRIDOR_STRAIGHT := 7
  const CORRIDOR_CROSSING := 8
  const CORRIDOR_TURN_RIGHT := 9
  const CORRIDOR_TURN_LEFT := 10
  const CORRIDOR_STAIRS := 11
  const CORRIDOR_T_CROSSING := 12
  const CORRIDOR_NETHER_WART := 13
  const END := 14
  const TYPES := 15

  const INFO: seq<Info> := [
    Info(Pos3(0, 0, 0), Pos3(18, 9, 18), 0, false, 0, 0),
    Info(Pos3(-1, -3, 0), Pos3(4, 9, 18), 0, true, 30, 0),
    Info(Pos3(-8, -3, 0), Pos3(18, 9, 18), 0, false, 10, 4),
    Info(Pos3(-2, 0, 0), Pos3(6, 8, 6), 0, false, 10, 4),
    Info(Pos3(-2, 0, 0), Pos3(6, 10, 6), 0, false, 10, 3),
    Info(Pos3(-2, 0, 0), Pos3(6, 7, 8), 0, false, 5, 2),
    Info(Pos3(-5, -3, 0), Pos3(12, 13, 12), 0, false, 5, 1),
    Info(Pos3(-1, 0, 0), Pos3(4, 6, 4), 0, true, 25, 0),
    Info(Pos3(-1, 0, 0), Pos3(4, 6, 4), 0, false, 15, 5),
    Info(Pos3(-1, 0, 0), Pos3(4, 6, 4), 1, false, 5, 10),
    Info(Pos3(-1, 0, 0), Pos3(4, 6, 4), 1, false, 5, 10),
    Info(Pos3(-1, -7, 0), Pos3(4, 13, 9), 0, true, 10, 3),
    Info(Pos3(-3, 0, 0), Pos3(8, 6, 8), 0, false, 7, 2),
    Info(Pos3(-5, -3, 0), Pos3(12, 13, 12), 0, false, 5, 2),
    Info(Pos3(-1, -3, 0), Pos3(4, 9, 7), 1, false, 0, 0)
  ]

  function MaxOf(typ: nat): nat {
    if typ < TYPES then INFO[typ].max else 0
  }

  function SkipOf(typ: nat): nat {
    if typ < TYPES then INFO[typ].skip else 0
  }

  function WeightOf(typ: nat): nat {
    if typ < TYPES then INFO[typ].weight else 0
  }

  // ----- boxes

  /** The bounding box of a piece attached at `pos`, turned by `facing`. */
  function Box(typ: nat, pos: Pos3, facing: nat): (Pos3, Pos3)
    requires typ < TYPES
  {
    var d0, d1 := INFO[typ].offset, INFO[typ].size;
    var y0, y1 := pos.y + d0.y, pos.y + d0.y + d1.y;
    if facing == 0 then (Pos3(pos.x + d0.x, y0, pos.z + d0.z - d1.z), Pos3(pos.x + d0.x + d1.x, y1, pos.z + d0.z))
    else if facing == 1 then (Pos3(pos.x + d0.z, y0, pos.z + d0.x), Pos3(pos.x + d0.z + d1.z, y1, pos.z + d0.x + d1.x))
    else if facing == 2 then (Pos3(pos.x + d0.x, y0, pos.z + d0.z), Pos3(pos.x + d0.x + d1.x, y1, pos.z + d0.z + d1.z))
    else (Pos3(pos.x + d0.z - d1.z, y0, pos.z + d0.x), Pos3(pos.x + d0.z, y1, pos.z + d0.x + d1.x))
  }

  predicate InBox(p: Piece, b: Pos3) {
    p.bb0.x <= b.x <= p.bb1.x && p.bb0.y <= b.y <= p.bb1.y && p.bb0.z <= b.z <= p.bb1.z
  }

  /** The collision test of addFortressPiece. */
  predicate Collide(p: Piece, q: Piece) {
    && q.bb1.x >= p.bb0.x && q.bb0.x <= p.bb1.x
    && q.bb1.z >= p.bb0.z && q.bb0.z <= p.bb1.z
    && q.bb1.y >= p.bb0.y && q.bb0.y <= p.bb1.y
  }

  predicate ProperBox(p: Piece) {
    p.bb0.x <= p.bb1.x && p.bb0.y <= p.bb1.y && p.bb0.z <= p.bb1.z
  }

  /** Two proper boxes collide exactly when they share a block. */
  lemma CollideMeansShared(p: Piece, q: Piece)
    requires ProperBox(p) && ProperBox(q)
    ensures Collide(p, q) <==> exists b :: InBox(p, b) && InBox(q, b)
  {
    if Collide(p, q) {
      var b := Pos3(if p.bb0.x > q.bb0.x then p.bb0.x else q.bb0.x,
                    if p.bb0.y > q.bb0.y then p.bb0.y else q.bb0.y,
                    if p.bb0.z > q.bb0.z then p.bb0.z else q.bb0.z);
      assert InBox(p, b) && InBox(q, b);
    }
  }

  // ----- the invariant

  /** `order` lists the pieces reached from the start by following the links. */
  predicate Linked(list: seq<Piece>, order: seq<nat>) {
    && |list| > 0
    && (forall k :: 0 <= k < |order| ==> 0 < order[k] < |list|)
    && list[0].next == Next(order, 0)
    && (forall k :: 0 <= k < |order| ==> list[order[k]].next == Next(order, k + 1))
  }

  function Next(order: seq<nat>, k: nat): int {
    if k < |order| then order[k] else -1
  }

  predicate NoRepeats(s: seq<nat>) {
    forall i, j :: 0 <= i < j < |s| ==> s[i] != s[j]
  }

  /** How many pieces have a type. */
  function CountOf(list: seq<Piece>, typ: nat): nat {
    if list == [] then 0 else CountOf(list[..|list| - 1], typ) + (if list[|list| - 1].typ == typ then 1 else 0)
  }

  function Sum(s: seq<nat>): nat {
    if s == [] then 0 else s[0] + Sum(s[1..])
  }

  predicate Near(p: Piece, origin: Piece) {
    -112 <= p.pos.x - origin.bb0.x <= 112 && -112 <= p.pos.z - origin.bb0.z <= 112
  }

  /** What holds of every counted piece but the first. */
  predicate GoodPiece(p: Piece, origin: Piece) {
    && 0 < p.typ < TYPES && p.rot < 4 && ProperBox(p) && Near(p, origin)
    && p.depth <= (if p.typ == END then 31 else 30)
  }

  ghost predicate Apart(list: seq<Piece>) {
    forall i, j :: 0 <= i < j < |list| ==> !Collide(list[j], list[i])
  }

  predicate Pieces(list: seq<Piece>) {
    && |list| > 0 && list[0].typ == START && list[0].depth == 0 && list[0].rot < 4 && ProperBox(list[0])
    && forall k :: 0 < k < |list| ==> GoodPiece(list[k], list[0])
  }

  ghost predicate Counts(list: seq<Piece>, ntyp: seq<nat>) {
    && |ntyp| == TYPES
    && (forall t: nat :: t < TYPES ==> ntyp[t] == CountOf(list, t))
    && Sum(ntyp) == |list|
    && (forall t: nat :: t < TYPES && MaxOf(t) > 0 ==> ntyp[t] <= MaxOf(t))
  }

  /** The pending pieces and the processed ones are all pieces but the first, each once. */
  ghost predicate Partition(n: nat, order: seq<nat>, processed: set<nat>) {
    && NoRepeats(order)
    && (forall k: nat :: 0 < k < n ==> (k in order || k in processed))
    && (forall k :: k in order ==> k !in processed)
    && (forall k :: k in processed ==> 0 < k < n)
  }

  ghost predicate Unlinked(list: seq<Piece>, processed: set<nat>) {
    forall k :: k in processed && k < |list| ==> list[k].next == -1
  }

  // ----- termination

  /** The weight of a piece: four times that of one a level deeper, so that three of those
      weigh less than one of these. */
  function Weight(depth: nat): nat
    decreases 32 - depth
  {
    if depth >= 32 then 1 else 4 * Weight(depth + 1)
  }

  lemma {:induction false} WeightPositive(depth: nat)
    ensures Weight(depth) > 0
    decreases 32 - depth
  {
    if depth < 32 {
      WeightPositive(depth + 1);
    }
  }

  function TotalWeight(list: seq<Piece>, order: seq<nat>): nat {
    if order == [] then 0
    else (if order[0] < |list| then Weight(list[order[0]].depth) else 0) + TotalWeight(list, order[1..])
  }

  // ----- how the list changes

  /** The pieces are the same up to their links. */
  predicate SameButLinks(a: seq<Piece>, b: seq<Piece>) {
    |a| == |b| && forall k :: 0 <= k < |a| ==> a[k].(next := 0) == b[k].(next := 0)
  }

  lemma {:induction false} CountSame(a: seq<Piece>, b: seq<Piece>, typ: nat)
    requires SameButLinks(a, b)
    ensures CountOf(a, typ) == CountOf(b, typ)
    decreases |a|
  {
    if a != [] {
      var k := |a| - 1;
      assert a[k].(next := 0).typ == a[k].typ && b[k].(next := 0).typ == b[k].typ;
      CountSame(a[..k], b[..k], typ);
    }
  }

  lemma {:induction false} SumUpdate(s: seq<nat>, t: nat)
    requires t < |s|
    ensures Sum(s[t := s[t] + 1]) == Sum(s) + 1
  {
    if t > 0 {
      SumUpdate(s[1..], t - 1);
      assert s[t := s[t] + 1][1..] == s[1..][t - 1 := s[1..][t - 1] + 1];
    }
  }

  /** The last pending piece, or the start piece. */
  function Tail(order: seq<nat>): nat {
    if order == [] then 0 else order[|order| - 1]
  }

  /** The list after appending a piece to the pending chain. */
  function Appended(list: seq<Piece>, order: seq<nat>, p: Piece): (r: seq<Piece>)
    ensures |r| == |list| + 1
  {
    (if Tail(order) < |list| then list[Tail(order) := list[Tail(order)].(next := |list|)] else list) + [p]
  }

  lemma AppendNoRepeats(n: nat, order: seq<nat>)
    requires NoRepeats(order) && forall k :: 0 <= k < |order| ==> order[k] < n
    ensures NoRepeats(order + [n])
  {
    var o := order + [n];
    forall i, j | 0 <= i < j < |o|
      ensures o[i] != o[j]
    {
      assert o[i] == order[i];
      if j < |order| {
        assert o[j] == order[j];
      }
    }
  }

  lemma AppendedAt(list: seq<Piece>, order: seq<nat>, p: Piece, k: nat)
    requires Linked(list, order) && k < |list|
    ensures |Appended(list, order, p)| == |list| + 1
    ensures Appended(list, order, p)[k] == (if k == Tail(order) then list[k].(next := |list|) else list[k])
    ensures Appended(list, order, p)[|list|] == p
  {
  }

  lemma AppendLinked(list: seq<Piece>, order: seq<nat>, p: Piece)
    requires Linked(list, order) && NoRepeats(order) && p.next == -1
    ensures Linked(Appended(list, order, p), order + [|list|])
  {
    hide NoRepeats;
    var l, o := Appended(list, order, p), order + [|list|];
    AppendedAt(list, order, p, 0);
    assert l[0].next == Next(o, 0);
    forall k | 0 <= k < |o|
      ensures 0 < o[k] < |l| && l[o[k]].next == Next(o, k + 1)
    {
      if k < |order| {
        assert o[k] == order[k];
        AppendedAt(list, order, p, order[k]);
        LastIsTail(order, k);
      }
    }
  }

  /** Only the last entry of a chain without repeats is its tail. */
  lemma LastIsTail(order: seq<nat>, k: nat)
    requires NoRepeats(order) && k < |order|
    ensures order[k] == Tail(order) <==> k == |order| - 1
  {
  }

  lemma AppendPieces(list: seq<Piece>, order: seq<nat>, p: Piece)
    requires Linked(list, order) && Pieces(list) && Apart(list)
    requires GoodPiece(p, list[0]) && forall k :: 0 <= k < |list| ==> !Collide(p, list[k])
    ensures Pieces(Appended(list, order, p)) && Apart(Appended(list, order, p))
  {
    hide Appended, Collide, Near;
    var l := Appended(list, order, p);
    AppendedAt(list, order, p, 0);
    forall k | 0 <= k < |l|
      ensures if k == |list| then l[k] == p else l[k] == list[k].(next := l[k].next)
    {
      if k < |list| {
        AppendedAt(list, order, p, k);
      }
    }
    forall i, j | 0 <= i < j < |l|
      ensures !Collide(l[j], l[i])
    {
      assert l[i] == list[i].(next := l[i].next);
      NextAside(l[j], l[i], if j == |list| then p else list[j], list[i]);
    }
    forall k | 0 < k < |l|
      ensures GoodPiece(l[k], l[0])
    {
      NearAside(l[k], l[0], if k == |list| then p else list[k], list[0]);
    }
  }

  lemma NextAside(p: Piece, q: Piece, p0: Piece, q0: Piece)
    requires p == p0.(next := p.next) && q == q0.(next := q.next)
    ensures Collide(p, q) == Collide(p0, q0)
  {
  }

  lemma NearAside(p: Piece, q: Piece, p0: Piece, q0: Piece)
    requires p == p0.(next := p.next) && q == q0.(next := q.next)
    ensures GoodPiece(p, q) == GoodPiece(p0, q0)
  {
  }

  lemma AppendCountOf(list: seq<Piece>, order: seq<nat>, p: Piece, typ: nat)
    requires Linked(list, order)
    ensures CountOf(Appended(list, order, p), typ) == CountOf(list, typ) + (if p.typ == typ then 1 else 0)
  {
    var l := Appended(list, order, p);
    var front := list[Tail(order) := list[Tail(order)].(next := |list|)];
    assert l[..|l| - 1] == front;
    CountSame(front, list, typ);
  }

  lemma AppendCounts(list: seq<Piece>, order: seq<nat>, p: Piece, ntyp: seq<nat>)
    requires Linked(list, order) && Counts(list, ntyp) && p.typ < TYPES
    requires MaxOf(p.typ) > 0 ==> ntyp[p.typ] < MaxOf(p.typ)
    ensures Counts(Appended(list, order, p), ntyp[p.typ := ntyp[p.typ] + 1])
  {
    hide CountOf, Appended, Sum, MaxOf;
    var l, nt := Appended(list, order, p), ntyp[p.typ := ntyp[p.typ] + 1];
    assert |l| == |list| + 1 by { AppendedAt(list, order, p, 0); }
    SumUpdate(ntyp, p.typ);
    forall t: nat | t < TYPES
      ensures nt[t] == CountOf(l, t) && (MaxOf(t) > 0 ==> nt[t] <= MaxOf(t))
    {
      AppendCountOf(list, order, p, t);
    }
  }

  lemma AppendPartition(n: nat, order: seq<nat>, processed: set<nat>)
    requires Partition(n, order, processed) && 0 < n && forall k :: 0 <= k < |order| ==> order[k] < n
    ensures Partition(n + 1, order + [n], processed)
  {
    hide NoRepeats;
    AppendNoRepeats(n, order);
    assert n in order + [n];
  }

  // ----- weights

  lemma {:induction false} WeightAppend(list: seq<Piece>, a: seq<nat>, b: seq<nat>)
    ensures TotalWeight(list, a + b) == TotalWeight(list, a) + TotalWeight(list, b)
  {
    if a == [] {
      assert a + b == b;
    } else {
      assert (a + b)[1..] == a[1..] + b;
      WeightAppend(list, a[1..], b);
    }
  }

  lemma {:induction false} WeightSame(a: seq<Piece>, b: seq<Piece>, order: seq<nat>)
    requires |a| <= |b| && (forall k :: 0 <= k < |a| ==> a[k].depth == b[k].depth)
    requires forall k :: 0 <= k < |order| ==> order[k] < |a|
    ensures TotalWeight(a, order) == TotalWeight(b, order)
  {
    if order != [] {
      assert forall k :: 0 <= k < |order| - 1 ==> order[1..][k] == order[k + 1];
      WeightSame(a, b, order[1..]);
    }
  }

  /** New pieces, `n` at most, have been appended to the list and to the pending chain, all
      of the given depth; the old ones are the same up to their links. */
  ghost predicate Grown(l0: seq<Piece>, o0: seq<nat>, l1: seq<Piece>, o1: seq<nat>, depth: nat, n: nat) {
    && |l0| <= |l1| <= |l0| + n
    && SameButLinks(l0, l1[..|l0|])
    && o1 == o0 + seq(|l1| - |l0|, i requires 0 <= i => |l0| + i)
    && forall k :: |l0| <= k < |l1| ==> l1[k].depth == depth
  }

  lemma GrownTwice(l0: seq<Piece>, o0: seq<nat>, l1: seq<Piece>, o1: seq<nat>, l2: seq<Piece>, o2: seq<nat>, depth: nat, n: nat, m: nat)
    requires Grown(l0, o0, l1, o1, depth, n) && Grown(l1, o1, l2, o2, depth, m)
    ensures Grown(l0, o0, l2, o2, depth, n + m)
  {
    forall k | 0 <= k < |l1|
      ensures l2[k].(next := 0) == l1[k].(next := 0) && l2[k].depth == l1[k].depth
    {
      assert l2[..|l1|][k].(next := 0) == l1[k].(next := 0);
      assert l2[k].(next := 0).depth == l2[k].depth && l1[k].(next := 0).depth == l1[k].depth;
    }
    forall k | 0 <= k < |l0|
      ensures l1[k].(next := 0) == l0[k].(next := 0)
    {
      assert l1[..|l0|][k].(next := 0) == l0[k].(next := 0);
    }
  }

  lemma {:induction false} WeightOfNew(list: seq<Piece>, from: nat, count: nat, depth: nat)
    requires from + count <= |list| && forall k :: from <= k < from + count ==> list[k].depth == depth
    ensures TotalWeight(list, seq(count, i requires 0 <= i => from + i)) == count * Weight(depth)
    decreases count
  {
    hide Weight;
    if count > 0 {
      var s := seq(count, i requires 0 <= i => from + i);
      var rest := seq(count - 1, i requires 0 <= i => from + 1 + i);
      assert s[1..] == rest;
      WeightOfNew(list, from + 1, count - 1, depth);
      assert TotalWeight(list, s) == Weight(depth) + TotalWeight(list, rest);
      assert count * Weight(depth) == Weight(depth) + (count - 1) * Weight(depth);
    }
  }

  /** What growth adds to the weight. */
  lemma GrownWeight(l0: seq<Piece>, o0: seq<nat>, l1: seq<Piece>, o1: seq<nat>, depth: nat, n: nat)
    requires Grown(l0, o0, l1, o1, depth, n) && forall k :: 0 <= k < |o0| ==> o0[k] < |l0|
    ensures TotalWeight(l1, o1) <= TotalWeight(l0, o0) + n * Weight(depth)
  {
    var count := |l1| - |l0|;
    WeightAppend(l1, o0, seq(count, i requires 0 <= i => |l0| + i));
    WeightOfNew(l1, |l0|, count, depth);
    forall k | 0 <= k < |l0|
      ensures l0[k].depth == l1[k].depth
    {
      assert l1[..|l0|][k].(next := 0) == l0[k].(next := 0);
      assert l1[k].(next := 0).depth == l1[k].depth && l0[k].(next := 0).depth == l0[k].depth;
    }
    WeightSame(l0, l1, o0);
    Products.Monotone(count, n, Weight(depth));
  }

  /** Taking a piece out of the pending chain takes its weight. */
  lemma WeightRemove(list: seq<Piece>, order: seq<nat>, i: nat)
    requires i < |order| && order[i] < |list|
    ensures TotalWeight(list, order) == TotalWeight(list, order[..i] + order[i + 1..]) + Weight(list[order[i]].depth)
  {
    assert order == order[..i] + ([order[i]] + order[i + 1..]);
    WeightAppend(list, order[..i], [order[i]] + order[i + 1..]);
    WeightAppend(list, order[..i], order[i + 1..]);
    assert TotalWeight(list, [order[i]] + order[i + 1..]) == Weight(list[order[i]].depth) + TotalWeight(list, order[i + 1..]) by {
      assert ([order[i]] + order[i + 1..])[1..] == order[i + 1..];
    }
  }

  // ----- the chain and the type of the last piece

  lemma AppendUnlinked(list: seq<Piece>, order: seq<nat>, p: Piece, processed: set<nat>)
    requires Linked(list, order) && Partition(|list|, order, processed) && Unlinked(list, processed)
    ensures Unlinked(Appended(list, order, p), processed)
  {
    hide NoRepeats;
    forall k | k in processed
      ensures k < |list| && Appended(list, order, p)[k].next == -1
    {
      AppendedAt(list, order, p, k);
      assert k != Tail(order);
    }
  }

  lemma AppendGrown(list: seq<Piece>, order: seq<nat>, p: Piece)
    requires Linked(list, order)
    ensures Grown(list, order, Appended(list, order, p), order + [|list|], p.depth, 1)
  {
    var l := Appended(list, order, p);
    forall k | 0 <= k < |list|
      ensures l[..|list|][k].(next := 0) == list[k].(next := 0)
    {
      AppendedAt(list, order, p, k);
    }
    assert seq(1, i requires 0 <= i => |list| + i) == [|list|];
  }

  /** The type of the last piece that is not an end piece. */
  function LastType(list: seq<Piece>): nat {
    if list == [] then START
    else if list[|list| - 1].typ == END then LastType(list[..|list| - 1])
    else list[|list| - 1].typ
  }

  function Repeatable(typ: nat): bool {
    typ < TYPES && INFO[typ].repeatable
  }

  /** No piece is of the same type as the piece before it, end pieces aside, unless the type is repeatable. */
  predicate Varied(list: seq<Piece>) {
    |list| <= 1 ||
    (var q := list[|list| - 1];
     Varied(list[..|list| - 1]) && (q.typ == END || Repeatable(q.typ) || q.typ != LastType(list[..|list| - 1])))
  }

  lemma {:induction false} VariedSame(a: seq<Piece>, b: seq<Piece>)
    requires SameButLinks(a, b)
    ensures LastType(a) == LastType(b) && Varied(a) == Varied(b)
    decreases |a|
  {
    if a != [] {
      var k := |a| - 1;
      assert a[k].(next := 0).typ == a[k].typ && b[k].(next := 0).typ == b[k].typ;
      VariedSame(a[..k], b[..k]);
    }
  }

  lemma AppendVaried(list: seq<Piece>, order: seq<nat>, p: Piece)
    requires Linked(list, order) && Varied(list) && (p.typ == END || Repeatable(p.typ) || p.typ != LastType(list))
    ensures Varied(Appended(list, order, p))
    ensures LastType(Appended(list, order, p)) == (if p.typ == END then LastType(list) else p.typ)
  {
    var l := Appended(list, order, p);
    var front := list[Tail(order) := list[Tail(order)].(next := |list|)];
    assert l[..|l| - 1] == front;
    VariedSame(front, list);
  }

  // ----- taking a piece out of the chain

  function Without(order: seq<nat>, i: nat): (r: seq<nat>)
    requires i < |order|
    ensures |r| == |order| - 1
  {
    order[..i] + order[i + 1..]
  }

  /** The list with the i-th pending piece cut out of the chain. */
  function Cut(list: seq<Piece>, order: seq<nat>, i: nat): (r: seq<Piece>)
    requires Linked(list, order) && i < |order|
    ensures |r| == |list|
  {
    var q := order[i];
    var before := Tail(order[..i]);
    var l := list[before := list[before].(next := list[q].next)];
    l[q := l[q].(next := -1)]
  }

  lemma CutAt(list: seq<Piece>, order: seq<nat>, i: nat, k: nat)
    requires Linked(list, order) && NoRepeats(order) && i < |order| && k < |list|
    ensures |Cut(list, order, i)| == |list|
    ensures Cut(list, order, i)[k] == (if k == order[i] then list[k].(next := -1)
                                       else if k == Tail(order[..i]) then list[k].(next := list[order[i]].next)
                                       else list[k])
  {
    if i > 0 {
      assert order[..i][i - 1] == order[i - 1];
    }
  }

  lemma WithoutNoRepeats(order: seq<nat>, i: nat)
    requires NoRepeats(order) && i < |order|
    ensures NoRepeats(Without(order, i))
  {
  }

  lemma WithoutAt(order: seq<nat>, i: nat, k: nat)
    requires NoRepeats(order) && i < |order| && k + 1 < |order|
    ensures Without(order, i)[k] == order[if k < i then k else k + 1]
    ensures Without(order, i)[k] != order[i]
    ensures Without(order, i)[k] == Tail(order[..i]) ==> k + 1 == i || (i == 0 && Without(order, i)[k] == 0)
  {
  }

  lemma CutHead(list: seq<Piece>, order: seq<nat>, i: nat)
    requires Linked(list, order) && NoRepeats(order) && i < |order|
    ensures Cut(list, order, i)[0].next == Next(Without(order, i), 0)
  {
    hide NoRepeats, Cut, Without;
    CutAt(list, order, i, 0);
    if |order| > 1 {
      WithoutAt(order, i, 0);
    }
    if i > 0 {
      assert Tail(order[..i]) == order[..i][i - 1] == order[i - 1];
    } else {
      assert order[i] > 0 && Tail(order[..i]) == 0;
      assert list[order[i]].next == Next(order, i + 1);
    }
  }

  lemma CutLinked(list: seq<Piece>, order: seq<nat>, i: nat)
    requires Linked(list, order) && NoRepeats(order) && i < |order|
    ensures Linked(Cut(list, order, i), Without(order, i))
  {
    hide NoRepeats, Cut, Without;
    var l, o := Cut(list, order, i), Without(order, i);
    CutHead(list, order, i);
    assert l[0].next == Next(o, 0);
    forall k | 0 <= k < |o|
      ensures 0 < o[k] < |l| && l[o[k]].next == Next(o, k + 1)
    {
      CutLink(list, order, i, k);
    }
  }

  lemma CutLink(list: seq<Piece>, order: seq<nat>, i: nat, k: nat)
    requires Linked(list, order) && NoRepeats(order) && i < |order| && k + 1 < |order|
    ensures 0 < Without(order, i)[k] < |list|
    ensures Cut(list, order, i)[Without(order, i)[k]].next == Next(Without(order, i), k + 1)
  {
    hide NoRepeats, Cut, Without;
    var o := Without(order, i);
    var from := if k < i then k else k + 1;
    WithoutAt(order, i, k);
    assert o[k] == order[from] && 0 < order[from] < |list|;
    assert list[order[from]].next == Next(order, from + 1);
    assert list[order[i]].next == Next(order, i + 1);
    CutAt(list, order, i, o[k]);
    if k + 2 < |order| {
      WithoutAt(order, i, k + 1);
    }
    if k + 1 == i {
      assert Tail(order[..i]) == order[..i][i - 1] == order[k];
    }
  }

  lemma CutSame(list: seq<Piece>, order: seq<nat>, i: nat)
    requires Linked(list, order) && NoRepeats(order) && i < |order|
    ensures SameButLinks(Cut(list, order, i), list)
  {
    hide NoRepeats, Cut;
    forall k | 0 <= k < |list|
      ensures Cut(list, order, i)[k].(next := 0) == list[k].(next := 0)
    {
      CutAt(list, order, i, k);
    }
  }

  lemma WithoutMember(order: seq<nat>, i: nat, v: nat)
    requires NoRepeats(order) && i < |order|
    ensures v in Without(order, i) <==> v in order && v != order[i]
  {
    if v in order && v != order[i] {
      var k :| 0 <= k < |order| && order[k] == v;
      assert Without(order, i)[if k < i then k else k - 1] == v;
    }
  }

  lemma CutPartition(n: nat, order: seq<nat>, processed: set<nat>, i: nat)
    requires Partition(n, order, processed) && i < |order| && 0 < order[i] < n
    ensures Partition(n, Without(order, i), processed + {order[i]})
  {
    hide NoRepeats, Without;
    WithoutNoRepeats(order, i);
    forall v: nat
      ensures v in Without(order, i) <==> v in order && v != order[i]
    {
      WithoutMember(order, i, v);
    }
  }

  lemma CutUnlinked(list: seq<Piece>, order: seq<nat>, processed: set<nat>, i: nat)
    requires Linked(list, order) && Partition(|list|, order, processed) && Unlinked(list, processed) && i < |order|
    ensures Unlinked(Cut(list, order, i), processed + {order[i]})
  {
    hide NoRepeats, Cut;
    forall k | k in processed + {order[i]}
      ensures k < |list| && Cut(list, order, i)[k].next == -1
    {
      CutAt(list, order, i, k);
      if k != order[i] {
        assert k != Tail(order[..i]) by {
          if i > 0 {
            assert order[..i][i - 1] == order[i - 1];
          }
        }
      }
    }
  }

  lemma SameFields(a: seq<Piece>, b: seq<Piece>, k: nat)
    requires SameButLinks(a, b) && k < |a|
    ensures a[k].typ == b[k].typ && a[k].pos == b[k].pos && a[k].bb0 == b[k].bb0 && a[k].bb1 == b[k].bb1
    ensures a[k].rot == b[k].rot && a[k].depth == b[k].depth
  {
    var p, q := a[k].(next := 0), b[k].(next := 0);
    assert p.typ == a[k].typ && p.pos == a[k].pos && p.bb0 == a[k].bb0 && p.bb1 == a[k].bb1;
    assert q.typ == b[k].typ && q.pos == b[k].pos && q.bb0 == b[k].bb0 && q.bb1 == b[k].bb1;
  }

  lemma PiecesSame(a: seq<Piece>, b: seq<Piece>)
    requires SameButLinks(a, b) && Pieces(a) && Apart(a)
    ensures Pieces(b) && Apart(b)
  {
    hide SameButLinks;
    assert |a| == |b| by { SizeSame(a, b); }
    forall k | 0 <= k < |b|
      ensures a[k].typ == b[k].typ && a[k].pos == b[k].pos && a[k].bb0 == b[k].bb0 && a[k].bb1 == b[k].bb1
      ensures a[k].rot == b[k].rot && a[k].depth == b[k].depth
    {
      SameFields(a, b, k);
    }
  }

  lemma SizeSame(a: seq<Piece>, b: seq<Piece>)
    requires SameButLinks(a, b)
    ensures |a| == |b|
  {
  }

  lemma CountsSame(a: seq<Piece>, b: seq<Piece>, ntyp: seq<nat>)
    requires SameButLinks(a, b) && Counts(a, ntyp)
    ensures Counts(b, ntyp)
  {
    forall t: nat | t < TYPES
      ensures CountOf(a, t) == CountOf(b, t)
    {
      CountSame(a, b, t);
    }
  }

  // ----- the safety invariant

  /** The pieces do not overlap, obey their limits and the 112 block rule, and vary in type; the
      links form one acyclic chain holding exactly the pieces that were not extended yet. */
  ghost predicate Safe(list: seq<Piece>, ntyp: seq<nat>, typlast: nat, order: seq<nat>, processed: set<nat>) {
    && Linked(list, order) && Partition(|list|, order, processed) && Unlinked(list, processed)
    && Pieces(list) && Apart(list) && Counts(list, ntyp) && Varied(list) && typlast == LastType(list)
  }

  /** What the invariant says of the blocks and the numbers of a fortress. */
  lemma SafeMeans(list: seq<Piece>, ntyp: seq<nat>, typlast: nat, order: seq<nat>, processed: set<nat>)
    requires Safe(list, ntyp, typlast, order, processed)
    ensures forall i, j, b :: 0 <= i < j < |list| && InBox(list[i], b) ==> !InBox(list[j], b)
    ensures forall t: nat :: t < TYPES && MaxOf(t) > 0 ==> CountOf(list, t) <= MaxOf(t)
    ensures Sum(ntyp) == |list|
    ensures forall k :: 0 < k < |list| ==> Near(list[k], list[0]) && list[k].typ != START
  {
    hide CountOf, Linked, Unlinked, Partition, Varied, LastType, Near, Sum;
    forall i, j, b | 0 <= i < j < |list| && InBox(list[i], b)
      ensures !InBox(list[j], b)
    {
      hide Safe, Pieces, Apart, Counts, Collide, InBox, ProperBox;
      assert ProperBox(list[i]) && ProperBox(list[j]) && !Collide(list[j], list[i]) by {
        SafeBoxes(list, ntyp, typlast, order, processed, i, j);
      }
      CollideMeansShared(list[j], list[i]);
    }
  }

  lemma SafeBoxes(list: seq<Piece>, ntyp: seq<nat>, typlast: nat, order: seq<nat>, processed: set<nat>, i: nat, j: nat)
    requires Safe(list, ntyp, typlast, order, processed) && i < j < |list|
    ensures ProperBox(list[i]) && ProperBox(list[j]) && !Collide(list[j], list[i])
  {
  }

  /** Appending a piece that fits keeps the invariant. */
  lemma AppendSafe(list: seq<Piece>, ntyp: seq<nat>, typlast: nat, order: seq<nat>, processed: set<nat>, p: Piece)
    requires Safe(list, ntyp, typlast, order, processed)
    requires GoodPiece(p, list[0]) && p.next == -1 && forall k :: 0 <= k < |list| ==> !Collide(p, list[k])
    requires MaxOf(p.typ) > 0 ==> ntyp[p.typ] < MaxOf(p.typ)
    requires p.typ == END || Repeatable(p.typ) || p.typ != typlast
    ensures Safe(Appended(list, order, p), ntyp[p.typ := ntyp[p.typ] + 1], if p.typ == END then typlast else p.typ,
                 order + [|list|], processed)
  {
    hide Linked, Unlinked, Pieces, Apart, Varied, LastType, CountOf, Sum, MaxOf, Collide, Appended, NoRepeats;
    AppendBounds(list, order, p);
    AppendLinked(list, order, p);
    AppendPartition(|list|, order, processed);
    AppendUnlinked(list, order, p, processed);
    AppendPieces(list, order, p);
    AppendCounts(list, order, p, ntyp);
    AppendVaried(list, order, p);
  }

  lemma AppendBounds(list: seq<Piece>, order: seq<nat>, p: Piece)
    requires Linked(list, order)
    ensures |Appended(list, order, p)| == |list| + 1 && |list| > 0
    ensures forall k :: 0 <= k < |order| ==> order[k] < |list|
  {
  }

  /** Taking a pending piece out of the chain keeps the invariant, and takes away its weight. */
  lemma CutSafe(list: seq<Piece>, ntyp: seq<nat>, typlast: nat, order: seq<nat>, processed: set<nat>, i: nat)
    requires Safe(list, ntyp, typlast, order, processed) && i < |order|
    ensures 0 < order[i] < |list|
    ensures Safe(Cut(list, order, i), ntyp, typlast, Without(order, i), processed + {order[i]})
    ensures TotalWeight(Cut(list, order, i), Without(order, i)) + Weight(list[order[i]].depth) == TotalWeight(list, order)
  {
    hide Linked, Unlinked, Pieces, Apart, Varied, LastType, Counts, Cut, NoRepeats, SameButLinks, TotalWeight, Weight, Without;
    CutBounds(list, order, i);
    var l := Cut(list, order, i);
    CutLinked(list, order, i);
    CutPartition(|list|, order, processed, i);
    CutUnlinked(list, order, processed, i);
    CutSame(list, order, i);
    assert SameButLinks(list, l) by { SameFlip(l, list); }
    PiecesSame(list, l);
    CountsSame(list, l, ntyp);
    VariedSame(list, l);
    CutWeight(list, order, i);
  }

  lemma SameFlip(a: seq<Piece>, b: seq<Piece>)
    requires SameButLinks(a, b)
    ensures SameButLinks(b, a)
  {
  }

  lemma CutBounds(list: seq<Piece>, order: seq<nat>, i: nat)
    requires Linked(list, order) && i < |order|
    ensures 0 < order[i] < |list|
  {
  }

  lemma CutWeight(list: seq<Piece>, order: seq<nat>, i: nat)
    requires Linked(list, order) && NoRepeats(order) && i < |order|
    ensures TotalWeight(Cut(list, order, i), Without(order, i)) + Weight(list[order[i]].depth) == TotalWeight(list, order)
  {
    hide NoRepeats, Cut, TotalWeight, Weight;
    var l, o := Cut(list, order, i), Without(order, i);
    CutSame(list, order, i);
    forall k | 0 <= k < |list|
      ensures l[k].depth == list[k].depth
    {
      SameFields(l, list, k);
    }
    WeightSame(l, list, o);
    WeightRemove(list, order, i);
  }

  // ----- where pieces attach

  /** A place where a piece is continued: offsets along its side, the side, and the kind of corridor. */
  datatype Opening = Opening(offh: int, offv: int, turn: int, corridor: bool)

  /** The openings of a piece. */
  predicate Opens(p: Piece, o: Opening) {
    if p.typ == BRIDGE_STRAIGHT then o == Opening(1, 3, 0, false)
    else if p.typ == BRIDGE_CROSSING || p.typ == START then o.offh == 8 && o.offv == 3 && -1 <= o.turn <= 1 && !o.corridor
    else if p.typ == BRIDGE_FORTIFIED_CROSSING then o.offh == 2 && o.offv == 0 && -1 <= o.turn <= 1 && !o.corridor
    else if p.typ == BRIDGE_STAIRS then o == Opening(2, 6, 1, false)
    else if p.typ == BRIDGE_CORRIDOR_ENTRANCE then o == Opening(5, 3, 0, true)
    else if p.typ == CORRIDOR_STRAIGHT || p.typ == CORRIDOR_STAIRS then o == Opening(1, 0, 0, true)
    else if p.typ == CORRIDOR_CROSSING then o.offh == 1 && o.offv == 0 && -1 <= o.turn <= 1 && o.corridor
    else if p.typ == CORRIDOR_TURN_RIGHT then o == Opening(1, 0, 1, true)
    else if p.typ == CORRIDOR_TURN_LEFT then o == Opening(1, 0, -1, true)
    else if p.typ == CORRIDOR_T_CROSSING then
      o.offh == (if p.rot == 0 || p.rot == 3 then 5 else 1) && o.offv == 0 && (o.turn == -1 || o.turn == 1)
    else p.typ == CORRIDOR_NETHER_WART && o.offh == 5 && (o.offv == 3 || o.offv == 11) && o.turn == 0 && o.corridor
  }

  /** The direction of what continues a piece. */
  function Turned(rot: nat, turn: int): nat {
    if turn == 0 then rot
    else if turn == -1 then (if rot % 2 == 1 then 0 else 3)
    else (if rot % 2 == 1 then 2 else 1)
  }

  /** `pos` is the block just outside the side of `parent` that faces `rot`. */
  predicate OnSide(pos: Pos3, rot: nat, parent: Piece, offh: int) {
    if rot == 0 then pos.x == parent.bb0.x + offh && pos.z == parent.bb0.z - 1
    else if rot == 1 then pos.x == parent.bb1.x + 1 && pos.z == parent.bb0.z + offh
    else if rot == 2 then pos.x == parent.bb0.x + offh && pos.z == parent.bb1.z + 1
    else pos.x == parent.bb0.x - 1 && pos.z == parent.bb0.z + offh
  }

  predicate Attached(q: Piece, parent: Piece, o: Opening) {
    && (q.typ == END
        || (if o.corridor then CORRIDOR_STRAIGHT <= q.typ <= CORRIDOR_NETHER_WART
            else BRIDGE_STRAIGHT <= q.typ <= BRIDGE_CORRIDOR_ENTRANCE))
    && q.depth == parent.depth + 1
    && q.rot == Turned(parent.rot, o.turn)
    && OnSide(q.pos, q.rot, parent, o.offh) && q.pos.y == parent.bb0.y + o.offv
    && (q.bb0, q.bb1) == Box(q.typ, q.pos, q.rot)
  }

  /** q continues `parent` at one of its openings, and if it is an end piece, it was due there given the
      pieces before it. */
  ghost predicate AtOpening(pre: seq<Piece>, q: Piece, parent: Piece) {
    exists o :: Opens(parent, o) && Attached(q, parent, o) && (q.typ == END ==> Due(pre, q, o.corridor))
  }

  /** The numbers of pieces of each type. */
  function Tally(list: seq<Piece>): seq<nat> {
    seq(TYPES, t requires 0 <= t => CountOf(list, t))
  }

  predicate UsedUp(ntyp: seq<nat>, t: nat)
    requires |ntyp| == TYPES && t < TYPES
  {
    MaxOf(t) > 0 && ntyp[t] >= MaxOf(t)
  }

  /** When an end piece may be placed: the fortress is deep enough, no limited type is left, or a type that is
      left would repeat the last one or has no room there. */
  ghost predicate DueAt(ntyp: seq<nat>, typlast: nat, list: seq<Piece>, pos: Pos3, depth: nat, facing: nat, corridor: bool)
    requires |ntyp| == TYPES
  {
    || depth > 30
    || (forall t :: TypeRange(corridor).0 <= t < TypeRange(corridor).1 ==> MaxOf(t) == 0 || UsedUp(ntyp, t))
    || (exists t :: TypeRange(corridor).0 <= t < TypeRange(corridor).1 && !UsedUp(ntyp, t)
                    && (Barred(typlast, t) || CollidesIn(MakePiece(t, pos, depth, facing), list)))
  }

  ghost predicate Due(pre: seq<Piece>, q: Piece, corridor: bool) {
    DueAt(Tally(pre), LastType(pre), pre, q.pos, q.depth, q.rot, corridor)
  }

  ghost predicate HasParent(list: seq<Piece>, k: nat)
    requires k < |list|
  {
    exists j :: 0 <= j < k && AtOpening(list[..k], list[k], list[j])
  }

  /** Every piece but the first continues an earlier one at one of its openings. */
  ghost predicate Rooted(list: seq<Piece>) {
    forall k :: 0 < k < |list| ==> HasParent(list, k)
  }

  lemma CollidesInSame(p: Piece, a: seq<Piece>, b: seq<Piece>)
    requires SameButLinks(a, b) && CollidesIn(p, a)
    ensures CollidesIn(p, b)
  {
    hide SameButLinks;
    assert |a| == |b| by { SizeSame(a, b); }
    var k :| 0 <= k < |a| && Collide(p, a[k]);
    SameFields(a, b, k);
    assert Collide(p, b[k]);
  }

  lemma DueSame(a: seq<Piece>, b: seq<Piece>, q: Piece, corridor: bool)
    requires SameButLinks(a, b) && Due(a, q, corridor)
    ensures Due(b, q, corridor)
  {
    hide SameButLinks, CollidesIn, MakePiece, MaxOf, CountOf, LastType, Varied;
    VariedSame(a, b);
    assert Tally(a) == Tally(b) by {
      forall t: nat | t < TYPES
        ensures CountOf(a, t) == CountOf(b, t)
      {
        CountSame(a, b, t);
      }
    }
    forall t | TypeRange(corridor).0 <= t < TypeRange(corridor).1 && CollidesIn(MakePiece(t, q.pos, q.depth, q.rot), a)
      ensures CollidesIn(MakePiece(t, q.pos, q.depth, q.rot), b)
    {
      CollidesInSame(MakePiece(t, q.pos, q.depth, q.rot), a, b);
    }
  }

  lemma AtOpeningSame(pre: seq<Piece>, q: Piece, parent: Piece, pre1: seq<Piece>, q1: Piece, parent1: Piece)
    requires AtOpening(pre, q, parent) && SameButLinks(pre, pre1)
    requires q.(next := 0) == q1.(next := 0) && parent.(next := 0) == parent1.(next := 0)
    ensures AtOpening(pre1, q1, parent1)
  {
    hide Due;
    var o :| Opens(parent, o) && Attached(q, parent, o) && (q.typ == END ==> Due(pre, q, o.corridor));
    SameFields([q], [q1], 0);
    SameFields([parent], [parent1], 0);
    assert Opens(parent1, o) && Attached(q1, parent1, o);
    if q.typ == END {
      DueSame(pre, pre1, q, o.corridor);
      DueOther(pre1, q, q1, o.corridor);
    }
  }

  lemma DueOther(pre: seq<Piece>, q: Piece, q1: Piece, corridor: bool)
    requires Due(pre, q, corridor) && q.pos == q1.pos && q.depth == q1.depth && q.rot == q1.rot
    ensures Due(pre, q1, corridor)
  {
  }

  lemma SamePrefix(a: seq<Piece>, b: seq<Piece>, k: nat)
    requires SameButLinks(a, b) && k <= |a|
    ensures SameButLinks(a[..k], b[..k])
  {
  }

  lemma HasParentSame(a: seq<Piece>, b: seq<Piece>, k: nat)
    requires k < |a| <= |b| && SameButLinks(a, b[..|a|]) && HasParent(a, k)
    ensures HasParent(b, k)
  {
    hide AtOpening, SameButLinks;
    var j :| 0 <= j < k && AtOpening(a[..k], a[k], a[j]);
    var front := b[..|a|];
    assert front[k] == b[k] && front[j] == b[j] && front[..k] == b[..k];
    SamePrefix(a, front, k);
    GrownPiece(a, b, k);
    GrownPiece(a, b, j);
    AtOpeningSame(a[..k], a[k], a[j], b[..k], b[k], b[j]);
  }

  lemma AppendRooted(list: seq<Piece>, order: seq<nat>, p: Piece, j: nat)
    requires Linked(list, order) && Rooted(list) && j < |list| && AtOpening(list, p, list[j])
    ensures Rooted(Appended(list, order, p))
  {
    hide AtOpening, SameButLinks, HasParent;
    var l := Appended(list, order, p);
    AppendGrown(list, order, p);
    forall k | 0 < k < |l|
      ensures HasParent(l, k)
    {
      if k < |list| {
        HasParentSame(list, l, k);
      } else {
        AppendedAt(list, order, p, j);
        AppendHasParent(list, l, j);
      }
    }
  }

  lemma AppendHasParent(list: seq<Piece>, l: seq<Piece>, j: nat)
    requires j < |list| && |l| == |list| + 1 && l[j].(next := 0) == list[j].(next := 0) && AtOpening(list, l[|list|], list[j])
    requires SameButLinks(list, l[..|list|])
    ensures HasParent(l, |list|)
  {
    hide AtOpening, SameButLinks;
    AtOpeningSame(list, l[|list|], list[j], l[..|list|], l[|list|], l[j]);
  }

  lemma CutRooted(list: seq<Piece>, order: seq<nat>, i: nat)
    requires Linked(list, order) && NoRepeats(order) && i < |order| && Rooted(list)
    ensures Rooted(Cut(list, order, i))
  {
    hide AtOpening, SameButLinks, HasParent, Cut, NoRepeats;
    var l := Cut(list, order, i);
    CutSame(list, order, i);
    SameFlip(l, list);
    assert l[..|list|] == l;
    forall k | 0 < k < |l|
      ensures HasParent(l, k)
    {
      HasParentSame(list, l, k);
    }
  }

  // ----- the generator

  lemma BoxIsProper(p: Piece)
    requires p.typ < TYPES && (p.bb0, p.bb1) == Box(p.typ, p.pos, p.rot)
    ensures ProperBox(p)
  {
    assert INFO[p.typ].size.x >= 0 && INFO[p.typ].size.y >= 0 && INFO[p.typ].size.z >= 0;
  }

  predicate Allowed(list: seq<Piece>, ntyp: seq<nat>, typlast: nat, p: Piece) {
    && 0 < p.typ < TYPES && p.rot < 4 && |list| > 0 && Near(p, list[0]) && p.depth <= (if p.typ == END then 31 else 30)
    && (MaxOf(p.typ) > 0 ==> p.typ < |ntyp| && ntyp[p.typ] < MaxOf(p.typ))
    && (p.typ == END || Repeatable(p.typ) || p.typ != typlast)
  }

  predicate CollidesIn(p: Piece, list: seq<Piece>) {
    exists k :: 0 <= k < |list| && Collide(p, list[k])
  }

  function MakePiece(typ: nat, pos: Pos3, depth: nat, facing: nat): Piece
    requires typ < TYPES
  {
    var b := Box(typ, pos, facing);
    Piece(typ, pos, b.0, b.1, facing, depth, -1)
  }

  // ----- what the generator does, as a function of its state

  /** The random generator: what is drawn below a bound, the state after the draw, and the state with some
      draws skipped. */
  datatype Rolls = Rolls(value: (nat, nat) -> nat, after: (nat, nat) -> nat, skipped: (nat, nat) -> nat) {
    ghost predicate InRange() {
      forall s: nat, n: nat :: n > 0 ==> value(s, n) < n
    }
  }

  datatype Fort = Fort(list: seq<Piece>, order: seq<nat>, ntyp: seq<nat>, typlast: nat, rng: nat)

  function Placed(g: Rolls, f: Fort, p: Piece): (r: Fort)
    ensures |r.list| == |f.list| + 1 && |r.ntyp| == |f.ntyp|
  {
    Fort(Appended(f.list, f.order, p), f.order + [|f.list|],
         if p.typ < |f.ntyp| then f.ntyp[p.typ := f.ntyp[p.typ] + 1] else f.ntyp,
         if p.typ == END then f.typlast else p.typ,
         g.skipped(f.rng, SkipOf(p.typ)))
  }

  /** Where a piece would be placed, how deep, and in which direction. */
  datatype Spot = Spot(pos: Pos3, depth: nat, facing: nat)

  function SpotOf(parent: Piece, o: Opening): Spot {
    var facing := Turned(parent.rot, o.turn);
    var y := parent.bb0.y + o.offv;
    var pos := if facing == 0 then Pos3(parent.bb0.x + o.offh, y, parent.bb0.z - 1)
               else if facing == 1 then Pos3(parent.bb1.x + 1, y, parent.bb0.z + o.offh)
               else if facing == 2 then Pos3(parent.bb0.x + o.offh, y, parent.bb1.z + 1)
               else Pos3(parent.bb0.x - 1, y, parent.bb0.z + o.offh);
    Spot(pos, parent.depth + 1, facing)
  }

  function PieceAt(t: nat, spot: Spot): Piece
    requires t < TYPES
  {
    MakePiece(t, spot.pos, spot.depth, spot.facing)
  }

  /** The type that a draw leads to, from type t on: the first that is not used up and whose share starts
      below the end of the draw's, if it fits; none if that type would repeat the last one. */
  function Trial(f: Fort, spot: Spot, lo: nat, hi: nat, t: nat, draw: nat): (r: Option<nat>)
    requires |f.ntyp| == TYPES && lo <= t <= hi <= TYPES
    ensures r.Some? ==> t <= r.value < hi
    decreases hi - t
  {
    if t == hi then None
    else if UsedUp(f.ntyp, t) || draw >= Choice(f.ntyp, lo, t + 1) then Trial(f, spot, lo, hi, t + 1, draw)
    else if Barred(f.typlast, t) then None
    else if CollidesIn(PieceAt(t, spot), f.list) then Trial(f, spot, lo, hi, t + 1, draw)
    else Some(t)
  }

  /** A type that a draw does not lead beyond without trying it. */
  predicate Tried(f: Fort, lo: nat, t: nat, draw: nat)
    requires |f.ntyp| == TYPES && lo <= t < TYPES
  {
    !UsedUp(f.ntyp, t) && draw < Choice(f.ntyp, lo, t + 1)
  }

  /** The type is tried and placed, and those tried before it have no room and repeat nothing. */
  ghost predicate Succeeds(f: Fort, spot: Spot, lo: nat, from: nat, hi: nat, t: nat, draw: nat)
    requires |f.ntyp| == TYPES && lo <= from <= hi <= TYPES
  {
    && from <= t < hi && Tried(f, lo, t, draw) && !Barred(f.typlast, t) && !CollidesIn(PieceAt(t, spot), f.list)
    && forall u :: from <= u < t && Tried(f, lo, u, draw) ==> !Barred(f.typlast, u) && CollidesIn(PieceAt(u, spot), f.list)
  }

  /** A trial finds a type exactly if that type succeeds. */
  lemma {:induction false} TrialMeans(f: Fort, spot: Spot, lo: nat, hi: nat, from: nat, draw: nat, t: nat)
    requires |f.ntyp| == TYPES && lo <= from <= hi <= TYPES
    ensures Trial(f, spot, lo, hi, from, draw) == Some(t) <==> Succeeds(f, spot, lo, from, hi, t, draw)
    decreases hi - from
  {
    hide CollidesIn, PieceAt, Choice, MaxOf, Barred;
    if from < hi {
      TrialMeans(f, spot, lo, hi, from + 1, draw, t);
      assert Tried(f, lo, from, draw) <==> !(UsedUp(f.ntyp, from) || draw >= Choice(f.ntyp, lo, from + 1));
    }
  }

  /** The end piece, if it fits. */
  function Ended(g: Rolls, f: Fort, spot: Spot): (r: Fort)
    ensures |r.list| >= |f.list| && |r.ntyp| == |f.ntyp|
  {
    if CollidesIn(PieceAt(END, spot), f.list) then f else Placed(g, f, PieceAt(END, spot))
  }

  /** Up to n draws for a type, and the end piece if none leads to one. */
  function Rounds(g: Rolls, f: Fort, spot: Spot, lo: nat, hi: nat, n: nat): (r: Fort)
    requires |f.ntyp| == TYPES && lo <= hi <= TYPES
    ensures |r.list| >= |f.list| && |r.ntyp| == TYPES
    decreases n
  {
    if n == 0 then Ended(g, f, spot)
    else
      var total := Choice(f.ntyp, lo, hi);
      var f1 := f.(rng := g.after(f.rng, total));
      match Trial(f, spot, lo, hi, lo, g.value(f.rng, total))
      case Some(t) => Placed(g, f1, PieceAt(t, spot))
      case None => Rounds(g, f1, spot, lo, hi, n - 1)
  }

  predicate NothingLeft(ntyp: seq<nat>, lo: nat, hi: nat)
    requires |ntyp| == TYPES && lo <= hi <= TYPES
  {
    forall t :: lo <= t < hi ==> MaxOf(t) == 0 || UsedUp(ntyp, t)
  }

  /** The fortress after continuing piece p at one of its openings. */
  function Extension(g: Rolls, f: Fort, p: nat, o: Opening): (r: Fort)
    requires p < |f.list| && |f.ntyp| == TYPES
    ensures |r.list| >= |f.list| && |r.ntyp| == TYPES
  {
    var spot := SpotOf(f.list[p], o);
    var (lo, hi) := TypeRange(o.corridor);
    if !CloseBy(spot.pos.x, spot.pos.z, f.list) then
      (if CollidesIn(PieceAt(END, spot), f.list) then f else f.(rng := g.skipped(f.rng, SkipOf(END))))
    else if NothingLeft(f.ntyp, lo, hi) || Choice(f.ntyp, lo, hi) == 0 || spot.depth > 30 then Ended(g, f, spot)
    else Rounds(g, f, spot, lo, hi, 5)
  }

  /** Forward, to the left and to the right. */
  function Extension3(g: Rolls, f: Fort, p: nat, offh: int, offv: int, corridor: bool): (r: Fort)
    requires p < |f.list| && |f.ntyp| == TYPES
    ensures |r.list| >= |f.list| && |r.ntyp| == TYPES
  {
    var f1 := Extension(g, f, p, Opening(offh, offv, 0, corridor));
    var f2 := Extension(g, f1, p, Opening(offh, offv, -1, corridor));
    Extension(g, f2, p, Opening(offh, offv, 1, corridor))
  }

  /** To one side, into a bridge with one chance in eight and into a corridor otherwise. */
  function ExtensionDrawn(g: Rolls, f: Fort, p: nat, offh: int, turn: int): (r: Fort)
    requires p < |f.list| && |f.ntyp| == TYPES
    ensures |r.list| >= |f.list| && |r.ntyp| == TYPES
  {
    Extension(g, f.(rng := g.after(f.rng, 8)), p, Opening(offh, 0, turn, g.value(f.rng, 8) != 0))
  }

  /** The fortress after continuing piece p at all its openings. */
  function Extensions(g: Rolls, f: Fort, p: nat): (r: Fort)
    requires p < |f.list| && |f.ntyp| == TYPES
    ensures |r.list| >= |f.list| && |r.ntyp| == TYPES
  {
    var typ, rot := f.list[p].typ, f.list[p].rot;
    if typ == BRIDGE_STRAIGHT then Extension(g, f, p, Opening(1, 3, 0, false))
    else if typ == BRIDGE_CROSSING || typ == START then Extension3(g, f, p, 8, 3, false)
    else if typ == BRIDGE_FORTIFIED_CROSSING then Extension3(g, f, p, 2, 0, false)
    else if typ == BRIDGE_STAIRS then Extension(g, f, p, Opening(2, 6, 1, false))
    else if typ == BRIDGE_CORRIDOR_ENTRANCE then Extension(g, f, p, Opening(5, 3, 0, true))
    else if typ == CORRIDOR_STRAIGHT || typ == CORRIDOR_STAIRS then Extension(g, f, p, Opening(1, 0, 0, true))
    else if typ == CORRIDOR_CROSSING then Extension3(g, f, p, 1, 0, true)
    else if typ == CORRIDOR_TURN_RIGHT then Extension(g, f, p, Opening(1, 0, 1, true))
    else if typ == CORRIDOR_TURN_LEFT then Extension(g, f, p, Opening(1, 0, -1, true))
    else if typ == CORRIDOR_T_CROSSING then
      var offh := if rot == 0 || rot == 3 then 5 else 1;
      ExtensionDrawn(g, ExtensionDrawn(g, f, p, offh, -1), p, offh, 1)
    else if typ == CORRIDOR_NETHER_WART then
      Extension(g, Extension(g, f, p, Opening(5, 3, 0, true)), p, Opening(5, 11, 0, true))
    else f
  }

  /** The start piece, in a drawn direction. */
  function StartFort(g: Rolls, rng: nat, chunkX: int, chunkZ: int): (r: Fort)
    ensures |r.list| == 1 && |r.ntyp| == TYPES
  {
    var pos := Pos3(chunkX * 16 + 2, 64, chunkZ * 16 + 2);
    var start := Piece(START, pos, pos, Pos3(pos.x + 18, pos.y + 9, pos.z + 18), g.value(rng, 4), 0, -1);
    Fort([start], [], [1] + seq(TYPES - 1, _ => 0), START, g.after(rng, 4))
  }

  /** A drawn pending piece is taken out of the chain and continued. */
  ghost predicate NextFort(g: Rolls, f: Fort, f': Fort) {
    && f.order != [] && Linked(f.list, f.order) && |f.ntyp| == TYPES
    && var i := g.value(f.rng, |f.order|);
       && i < |f.order|
       && var taken := f.(rng := g.after(f.rng, |f.order|), list := Cut(f.list, f.order, i), order := Without(f.order, i));
          f.order[i] < |taken.list| && f' == Extensions(g, taken, f.order[i])
  }

  /** n pending pieces are continued. */
  ghost predicate Grows(g: Rolls, f: Fort, n: nat, f': Fort)
    decreases n
  {
    if n == 0 then f' == f else exists f1 :: Grows(g, f, n - 1, f1) && NextFort(g, f1, f')
  }

  /** The finished fortress. */
  ghost predicate IsFortress(g: Rolls, rng: nat, chunkX: int, chunkZ: int, f: Fort) {
    f.order == [] && exists n: nat :: Grows(g, Extensions(g, StartFort(g, rng, chunkX, chunkZ), 0), n, f)
  }

  lemma {:induction false} GrowsOneWay(g: Rolls, f: Fort, n: nat, a: Fort, m: nat, b: Fort)
    requires Grows(g, f, n, a) && Grows(g, f, m, b) && n <= m && a.order == []
    ensures a == b
    decreases m
  {
    hide NextFort;
    if n == m && n > 0 {
      var a1 :| Grows(g, f, n - 1, a1) && NextFort(g, a1, a);
      var b1 :| Grows(g, f, m - 1, b1) && NextFort(g, b1, b);
      GrowsAlike(g, f, n - 1, a1, b1);
      NextAlike(g, a1, a, b);
    } else if n < m {
      var b1 :| Grows(g, f, m - 1, b1) && NextFort(g, b1, b);
      NextPending(g, b1, b);
      GrowsOneWay(g, f, n, a, m - 1, b1);
    }
  }

  lemma {:induction false} GrowsAlike(g: Rolls, f: Fort, n: nat, a: Fort, b: Fort)
    requires Grows(g, f, n, a) && Grows(g, f, n, b)
    ensures a == b
  {
    hide NextFort;
    if n > 0 {
      var a1 :| Grows(g, f, n - 1, a1) && NextFort(g, a1, a);
      var b1 :| Grows(g, f, n - 1, b1) && NextFort(g, b1, b);
      GrowsAlike(g, f, n - 1, a1, b1);
      NextAlike(g, a1, a, b);
    }
  }

  lemma NextAlike(g: Rolls, f: Fort, a: Fort, b: Fort)
    requires NextFort(g, f, a) && NextFort(g, f, b)
    ensures a == b
  {
    hide Extensions, Cut, Without, Linked;
  }

  lemma NextPending(g: Rolls, f: Fort, f': Fort)
    requires NextFort(g, f, f')
    ensures f.order != []
  {
    hide Extensions, Cut, Without, Linked;
  }

  /** The random generator and the chunk determine the fortress. */
  lemma OneFortress(g: Rolls, rng: nat, chunkX: int, chunkZ: int, a: Fort, b: Fort)
    requires IsFortress(g, rng, chunkX, chunkZ, a) && IsFortress(g, rng, chunkX, chunkZ, b)
    ensures a == b
  {
    hide Extensions, StartFort, Grows;
    var f := Extensions(g, StartFort(g, rng, chunkX, chunkZ), 0);
    var n: nat :| Grows(g, f, n, a);
    var m: nat :| Grows(g, f, m, b);
    if n <= m {
      GrowsOneWay(g, f, n, a, m, b);
    } else {
      GrowsOneWay(g, f, m, b, n, a);
    }
  }

  class PieceEnv {
    const g: Rolls
    var list: seq<Piece>
    var ntyp: seq<nat>
    var typlast: nat
    var rng: nat
    /** The pending pieces, in the order of the chain. */
    ghost var order: seq<nat>
    /** The pieces that were taken out of the chain and extended. */
    ghost var processed: set<nat>

    ghost predicate Valid()
      reads this
    {
      Safe(list, ntyp, typlast, order, processed) && Rooted(list) && g.InRange()
    }

    ghost function State(): Fort
      reads this
    {
      Fort(list, order, ntyp, typlast, rng)
    }

    /** The state before the first extension. */
    constructor (g: Rolls, rng: nat, chunkX: int, chunkZ: int)
      requires g.InRange()
      ensures Valid() && order == [] && processed == {} && this.g == g
      ensures State() == StartFort(g, rng, chunkX, chunkZ)
    {
      var pos := Pos3(chunkX * 16 + 2, 64, chunkZ * 16 + 2);
      var size := INFO[START].size;
      var rot := g.value(rng, 4);
      var start := Piece(START, pos, pos, Pos3(pos.x + size.x, pos.y + size.y, pos.z + size.z), rot, 0, -1);
      this.g := g;
      this.rng := g.after(rng, 4);
      list := [start];
      ntyp := [1] + seq(TYPES - 1, _ => 0);
      typlast := START;
      order := [];
      processed := {};
      new;
      StartCounts(start, ntyp);
      assert list[..0] == [];
    }

    /** A random draw. */
    method NextInt(n: nat) returns (r: nat)
      requires Valid() && n > 0
      modifies this`rng
      ensures Valid() && r == g.value(old(rng), n) < n && rng == g.after(old(rng), n)
    {
      hide Safe, Rooted;
      r := g.value(rng, n);
      rng := g.after(rng, n);
    }

    /** Walks to the end of the chain. */
    method LastPending() returns (q: nat)
      requires Valid()
      ensures q == Tail(order) && q < |list|
    {
      hide Safe, Rooted, Linked, Tail, NoRepeats;
      SafeChain(list, ntyp, typlast, order, processed);
      ChainStart(list, order);
      q := 0;
      ghost var k := 0;
      while list[q].next != -1
        invariant 0 <= k <= |order| && q == Tail(order[..k]) && q < |list|
        invariant list[q].next == Next(order, k)
        decreases |order| - k
      {
        ChainStep(list, order, k);
        q := list[q].next;
        k := k + 1;
      }
      assert order[..k] == order;
    }

    /** Places a piece unless it collides; a pending piece is counted and appended to the chain. */
    method AddFortressPiece(typ: nat, x: int, y: int, z: int, depth: nat, facing: nat, pending: bool,
                            ghost parent: nat, ghost o: Opening) returns (placed: bool)
      requires Valid() && typ < TYPES && facing < 4
      requires pending ==> Allowed(list, ntyp, typlast, MakePiece(typ, Pos3(x, y, z), depth, facing))
      requires pending ==> parent < |list| && Opens(list[parent], o)
                           && Attached(MakePiece(typ, Pos3(x, y, z), depth, facing), list[parent], o)
                           && (typ == END ==> Due(list, MakePiece(typ, Pos3(x, y, z), depth, facing), o.corridor))
      modifies this
      ensures Valid() && processed == old(processed)
      ensures placed <==> !CollidesIn(MakePiece(typ, Pos3(x, y, z), depth, facing), old(list))
      ensures !placed ==> State() == old(State())
      ensures placed && !pending ==> State() == old(State()).(rng := g.skipped(old(rng), SkipOf(typ)))
      ensures placed && pending ==> State() == Placed(g, old(State()), MakePiece(typ, Pos3(x, y, z), depth, facing))
      ensures placed && pending ==> AppendedPiece(old(list), old(order), list, order, MakePiece(typ, Pos3(x, y, z), depth, facing))
    {
      hide Safe, Rooted, Opens, Attached, Collide, Allowed, MakePiece, Linked, NoRepeats, Tail, Box, Due, SkipOf;
      var p := MakePiece(typ, Pos3(x, y, z), depth, facing);
      var i := 0;
      while i < |list|
        invariant 0 <= i <= |list| && forall k :: 0 <= k < i ==> !Collide(p, list[k])
        invariant Valid() && State() == old(State()) && processed == old(processed)
      {
        if Collide(p, list[i]) {
          return false;
        }
        i := i + 1;
      }
      rng := g.skipped(rng, SkipOf(typ));
      if pending {
        var q := LastPending();
        AddedSafe(list, ntyp, typlast, order, processed, typ, Pos3(x, y, z), depth, facing, parent, o);
        MadeType(typ, Pos3(x, y, z), depth, facing);
        order := order + [|list|];
        ntyp := ntyp[typ := ntyp[typ] + 1];
        if typ != END {
          typlast := typ;
        }
        list := list[q := list[q].(next := |list|)] + [p];
      }
      return true;
    }

    /** Goes through the types that are not used up, the draw choosing by weight where to start, until one fits. */
    method TryTypes(draw: nat, typ0: nat, typ1: nat, x: int, y: int, z: int, depth: nat, facing: nat,
                    ghost parent: nat, ghost o: Opening) returns (placed: bool)
      requires Valid() && facing < 4 && depth <= 30 && (typ0, typ1) == TypeRange(o.corridor)
      requires parent < |list| && Opens(list[parent], o) && Fits(Pos3(x, y, z), depth, facing, list[parent], o)
      requires CloseBy(x, z, list) && |ntyp| == TYPES
      modifies this
      ensures Valid() && processed == old(processed)
      ensures !placed ==> State() == old(State())
      ensures placed ==> |list| == |old(list)| + 1 && Extended(old(list), old(order), list, order, old(list)[parent], o)
      ensures var spot := Spot(Pos3(x, y, z), depth, facing);
              var t := Trial(old(State()), spot, typ0, typ1, typ0, draw);
              (placed <==> t.Some?) && (placed ==> State() == Placed(g, old(State()), PieceAt(t.value, spot)))
    {
      hide Safe, Rooted, Opens, Attached, MakePiece, Fits, CollidesIn, Repeatable, MaxOf, WeightOf, Allowed, Extended, CloseBy,
           AppendedPiece, Linked, Choice, Placed, Due;
      SafeChain(list, ntyp, typlast, order, processed);
      ghost var spot := Spot(Pos3(x, y, z), depth, facing);
      var n: int := draw;
      var t := typ0;
      ChoiceNone(ntyp, typ0);
      while t < typ1
        invariant typ0 <= t <= typ1
        invariant State() == old(State()) && Valid() && processed == old(processed)
        invariant n == draw - Choice(ntyp, typ0, t)
        invariant Trial(old(State()), spot, typ0, typ1, typ0, draw) == Trial(old(State()), spot, typ0, typ1, t, draw)
      {
        ChoiceNext(ntyp, typ0, t);
        if MaxOf(t) > 0 && ntyp[t] >= MaxOf(t) {
        } else {
          n := n - WeightOf(t);
          if n < 0 {
            if typlast == t && !Repeatable(t) {
              return false;
            }
            MadeAllowed(list, ntyp, typlast, t, Pos3(x, y, z), depth, facing);
            MadeAttached(t, Pos3(x, y, z), depth, facing, list[parent], o);
            placed := AddFortressPiece(t, x, y, z, depth, facing, true, parent, o);
            if placed {
              MadeExtended(old(list), old(order), list, order, old(list)[parent], o, MakePiece(t, Pos3(x, y, z), depth, facing));
              return;
            }
          }
        }
        t := t + 1;
      }
      placed := false;
    }

    /** What is left to choose from: whether a limited type is left, and the weights. */
    method WeighTypes(typ0: nat, typ1: nat) returns (valid: int, weightTotal: nat)
      requires |ntyp| == TYPES && typ0 <= typ1 <= TYPES
      ensures 0 <= valid <= 1
      ensures valid == 0 <==> NothingLeft(ntyp, typ0, typ1)
      ensures weightTotal == Choice(ntyp, typ0, typ1)
    {
      hide MaxOf, WeightOf;
      valid, weightTotal := 0, 0;
      var t := typ0;
      while t < typ1
        invariant typ0 <= t <= typ1
        invariant 0 <= valid <= 1
        invariant valid == 0 <==> forall u :: typ0 <= u < t ==> MaxOf(u) == 0 || ntyp[u] >= MaxOf(u)
        invariant weightTotal + Choice(ntyp, t, typ1) == Choice(ntyp, typ0, typ1)
      {
        if MaxOf(t) > 0 && ntyp[t] >= MaxOf(t) {
        } else {
          if MaxOf(t) > 0 {
            valid := 1;
          }
          weightTotal := weightTotal + WeightOf(t);
        }
        t := t + 1;
      }
    }

    /** The five rounds, each with a draw of its own; without success an end piece is due. */
    method TryRounds(weightTotal: nat, typ0: nat, typ1: nat, x: int, y: int, z: int, depth: nat, facing: nat,
                     ghost parent: nat, ghost o: Opening) returns (placed: bool)
      requires Valid() && facing < 4 && depth <= 30 && (typ0, typ1) == TypeRange(o.corridor) && |ntyp| == TYPES
      requires parent < |list| && Opens(list[parent], o) && Fits(Pos3(x, y, z), depth, facing, list[parent], o)
      requires typ0 <= typ1 <= TYPES && CloseBy(x, z, list) && weightTotal > 0 && weightTotal == Choice(ntyp, typ0, typ1)
      modifies this
      ensures Valid() && processed == old(processed)
      ensures var spot := Spot(Pos3(x, y, z), depth, facing);
              var goal := Rounds(g, old(State()), spot, typ0, typ1, 5);
              if placed then State() == goal
              else State() == old(State()).(rng := rng) && goal == Ended(g, State(), spot) && Due(list, PieceAt(END, spot), o.corridor)
      ensures placed ==> |list| == |old(list)| + 1 && Extended(old(list), old(order), list, order, old(list)[parent], o)
    {
      hide Safe, Rooted, Opens, Extended, CloseBy, Choice, Linked, Trial, Placed, Due, Fits, Ended, TypeRange, PieceAt;
      ghost var spot := Spot(Pos3(x, y, z), depth, facing);
      var i := 0;
      while i < 5
        invariant 0 <= i <= 5
        invariant Valid() && processed == old(processed) && State() == old(State()).(rng := rng)
        invariant Rounds(g, old(State()), spot, typ0, typ1, 5) == Rounds(g, State(), spot, typ0, typ1, 5 - i)
        invariant i > 0 ==> Due(list, PieceAt(END, spot), o.corridor)
      {
        ghost var before := State();
        var draw := NextInt(weightTotal);
        TrialRng(before, rng, spot, typ0, typ1, typ0, draw);
        placed := TryTypes(draw, typ0, typ1, x, y, z, depth, facing, parent, o);
        if placed {
          return;
        }
        TrialDue(list, order, ntyp, typlast, rng, processed, spot, o.corridor, draw);
        i := i + 1;
      }
      placed := false;
    }

    /** The end piece, counted if it is within reach of the start. */
    method PlaceEnd(x: int, y: int, z: int, depth: nat, facing: nat, near: bool, ghost parent: nat, ghost o: Opening)
      requires Valid() && facing < 4 && depth <= 31 && near == CloseBy(x, z, list) && |ntyp| == TYPES
      requires parent < |list| && Opens(list[parent], o) && Fits(Pos3(x, y, z), depth, facing, list[parent], o)
      requires near ==> Due(list, PieceAt(END, Spot(Pos3(x, y, z), depth, facing)), o.corridor)
      modifies this
      ensures Valid() && processed == old(processed)
      ensures var end := PieceAt(END, Spot(Pos3(x, y, z), depth, facing));
              State() == if near then Ended(g, old(State()), Spot(Pos3(x, y, z), depth, facing))
                         else if CollidesIn(end, old(list)) then old(State())
                         else old(State()).(rng := g.skipped(old(rng), SkipOf(END)))
      ensures Extended(old(list), old(order), list, order, old(list)[parent], o)
      ensures list == old(list) ==> NoRoom(list, list[parent], o)
    {
      hide Safe, Rooted, Opens, Attached, MakePiece, CollidesIn, Allowed, Extended, NoRoom, CloseBy, AppendedPiece, Linked, Placed, Due,
           Fits;
      SafeChain(list, ntyp, typlast, order, processed);
      if near {
        EndAllowed(list, ntyp, typlast, Pos3(x, y, z), depth, facing);
      }
      MadeAttached(END, Pos3(x, y, z), depth, facing, list[parent], o);
      var placed := AddFortressPiece(END, x, y, z, depth, facing, near, parent, o);
      if placed && near {
        MadeExtended(old(list), old(order), list, order, old(list)[parent], o, MakePiece(END, Pos3(x, y, z), depth, facing));
        ExtendedGrew(old(list), old(order), list, order, old(list)[parent], o);
      } else {
        ExtendedNothing(list, order, list[parent], o);
        NoRoomFor(list, Pos3(x, y, z), depth, facing, list[parent], o);
      }
    }

    /** Continues a piece at one of its openings with at most one counted piece. */
    method ExtendFortress(p: nat, offh: int, offv: int, turn: int, corridor: bool)
      requires Valid() && p < |list| && list[p].depth <= 30 && |ntyp| == TYPES
      requires Opens(list[p], Opening(offh, offv, turn, corridor))
      modifies this
      ensures Valid() && processed == old(processed)
      ensures State() == Extension(g, old(State()), p, Opening(offh, offv, turn, corridor))
      ensures Extended(old(list), old(order), list, order, old(list)[p], Opening(offh, offv, turn, corridor))
      ensures list == old(list) ==> NoRoom(list, list[p], Opening(offh, offv, turn, corridor))
    {
      hide Safe, Rooted, Opens, Attached, MakePiece, CollidesIn, MaxOf, Allowed, Extended, NoRoom, CloseBy, Turned,
           AppendedPiece, Choice, Linked, Trial, Placed, Due, NothingLeft, SpotOf, Fits, Rounds, Ended, PieceAt;
      ghost var o := Opening(offh, offv, turn, corridor);
      ghost var spot := SpotOf(list[p], o);
      SafeChain(list, ntyp, typlast, order, processed);
      assert list[p].rot < 4 by { SafeRot(list, ntyp, typlast, order, processed, p); }
      OpensTurn(list[p], o);
      var depth := list[p].depth + 1;
      var x, z, facing := OpeningPoint(list[p], offh, offv, turn, corridor);
      var y := list[p].bb0.y + offv;
      SpotFits(list[p], o);
      var near := CloseBy(x, z, list);
      if near {
        var typ0 := if corridor then CORRIDOR_STRAIGHT else BRIDGE_STRAIGHT;
        var typ1 := typ0 + if corridor then 7 else 6;
        var valid, weightTotal := WeighTypes(typ0, typ1);
        if valid != 0 && weightTotal > 0 && depth <= 30 {
          var placed := TryRounds(weightTotal, typ0, typ1, x, y, z, depth, facing, p, o);
          if placed {
            ExtendedGrew(old(list), old(order), list, order, old(list)[p], o);
            return;
          }
        } else {
          StopDue(list, ntyp, typlast, order, processed, spot, corridor);
        }
      }
      PlaceEnd(x, y, z, depth, facing, near, p, o);
    }

    /** Counts the chain. */
    method CountPending() returns (len: nat)
      requires Valid()
      ensures len == |order|
    {
      hide Safe, Rooted, Linked, NoRepeats;
      SafeChain(list, ntyp, typlast, order, processed);
      ChainStart(list, order);
      var q: nat := 0;
      len := 0;
      while list[q].next != -1
        invariant 0 <= len <= |order| && q < |list| && list[q].next == Next(order, len)
        decreases |order| - len
      {
        ChainStep(list, order, len);
        q := list[q].next;
        len := len + 1;
      }
    }

    /** Takes the i-th pending piece out of the chain. */
    method TakePending(i: nat) returns (q: nat)
      requires Valid() && i < |order|
      modifies this
      ensures Valid() && 0 < q < |list| && ntyp == old(ntyp) && typlast == old(typlast) && rng == old(rng)
      ensures q == old(order)[i] && order == Without(old(order), i) && processed == old(processed) + {q}
      ensures old(Linked(list, order)) && list == Cut(old(list), old(order), i)
    {
      hide Safe, Rooted, Linked, NoRepeats, Tail, Without;
      SafeChain(list, ntyp, typlast, order, processed);
      ChainStart(list, order);
      var p := 0;
      q := list[0].next;
      var j := i;
      while j > 0
        invariant list == old(list) && order == old(order) && processed == old(processed)
        invariant ntyp == old(ntyp) && typlast == old(typlast) && rng == old(rng)
        invariant 0 <= j <= i && p == Tail(order[..i - j]) && q == order[i - j] && 0 < q < |list|
      {
        ChainStep(list, order, i - j);
        ChainStep(list, order, i - j + 1);
        p, q, j := q, list[q].next, j - 1;
      }
      CutSafe(list, ntyp, typlast, order, processed, i);
      CutRooted(list, order, i);
      TailInside(list, order, i);
      list := list[p := list[p].(next := list[q].next)];
      list := list[q := list[q].(next := -1)];
      order := Without(order, i);
      processed := processed + {q};
    }

    /** ExtendFortress as one of the steps of ExtendFortressPiece. */
    method Extend(p: nat, offh: int, offv: int, turn: int, corridor: bool,
                  ghost l0: seq<Piece>, ghost o0: seq<nat>, ghost n: nat)
      requires Valid() && p < |l0| && l0[p].depth <= 30 && Opens(l0[p], Opening(offh, offv, turn, corridor))
      requires Grown(l0, o0, list, order, l0[p].depth + 1, n) && p < |list| && |ntyp| == TYPES
      modifies this
      ensures Valid() && processed == old(processed) && p < |list| && |ntyp| == TYPES
      ensures State() == Extension(g, old(State()), p, Opening(offh, offv, turn, corridor))
      ensures Grown(l0, o0, list, order, l0[p].depth + 1, n + 1)
      ensures Reached(list, l0[p], Opening(offh, offv, turn, corridor))
      ensures forall o :: Reached(old(list), l0[p], o) ==> Reached(list, l0[p], o)
    {
      hide Safe, Rooted, Opens, Extended, NoRoom, Grown, Reached, SameButLinks, Extension;
      GrownSame(l0, o0, list, order, l0[p].depth + 1, n);
      GrownPiece(l0, list, p);
      OpensSame(l0[p], list[p], Opening(offh, offv, turn, corridor));
      SafeChain(list, ntyp, typlast, order, processed);
      ExtendFortress(p, offh, offv, turn, corridor);
      ExtendedStep(l0, o0, old(list), old(order), list, order, p, Opening(offh, offv, turn, corridor), n);
    }

    /** The three openings of a crossing: forward, to the left and to the right. */
    method ExtendThree(p: nat, offh: int, offv: int, corridor: bool, ghost l0: seq<Piece>, ghost o0: seq<nat>)
      requires Valid() && p < |l0| && l0[p].depth <= 30 && Grown(l0, o0, list, order, l0[p].depth + 1, 0) && p < |list| && |ntyp| == TYPES
      requires Opens(l0[p], Opening(offh, offv, 0, corridor)) && Opens(l0[p], Opening(offh, offv, -1, corridor))
               && Opens(l0[p], Opening(offh, offv, 1, corridor))
      modifies this
      ensures Valid() && processed == old(processed) && p < |list| && |ntyp| == TYPES
      ensures State() == Extension3(g, old(State()), p, offh, offv, corridor)
      ensures Grown(l0, o0, list, order, l0[p].depth + 1, 3)
      ensures forall turn :: -1 <= turn <= 1 ==> Reached(list, l0[p], Opening(offh, offv, turn, corridor))
    {
      hide Safe, Rooted, Opens, Grown, Reached, Extension;
      Extend(p, offh, offv, 0, corridor, l0, o0, 0);
      Extend(p, offh, offv, -1, corridor, l0, o0, 1);
      Extend(p, offh, offv, 1, corridor, l0, o0, 2);
    }

    /** Continues a piece at each of its openings; none is left without a piece that has room for an end piece. */
    method ExtendFortressPiece(p: nat)
      requires Valid() && p < |list| && |ntyp| == TYPES
      modifies this
      ensures Valid() && processed == old(processed)
      ensures State() == Extensions(g, old(State()), p)
      ensures Grown(old(list), old(order), list, order, old(list)[p].depth + 1, 3)
      ensures old(list)[p].typ == END ==> list == old(list) && order == old(order)
      ensures Closed(list, old(list)[p])
    {
      hide Safe, Rooted, Grown, Reached, Extension, Extension3, SameButLinks, NoRoom, Attached;
      ghost var l0, o0 := list, order;
      var typ, rot := list[p].typ, list[p].rot;
      SafeRot(list, ntyp, typlast, order, processed, p);
      GrownNothing(list, order, list[p].depth + 1);
      if typ == BRIDGE_STRAIGHT {
        Extend(p, 1, 3, 0, false, l0, o0, 0);
      } else if typ == BRIDGE_CROSSING || typ == START {
        ExtendThree(p, 8, 3, false, l0, o0);
      } else if typ == BRIDGE_FORTIFIED_CROSSING {
        ExtendThree(p, 2, 0, false, l0, o0);
      } else if typ == BRIDGE_STAIRS {
        Extend(p, 2, 6, 1, false, l0, o0, 0);
      } else if typ == BRIDGE_CORRIDOR_ENTRANCE {
        Extend(p, 5, 3, 0, true, l0, o0, 0);
      } else if typ == CORRIDOR_STRAIGHT {
        Extend(p, 1, 0, 0, true, l0, o0, 0);
      } else if typ == CORRIDOR_CROSSING {
        ExtendThree(p, 1, 0, true, l0, o0);
      } else if typ == CORRIDOR_TURN_RIGHT {
        Extend(p, 1, 0, 1, true, l0, o0, 0);
      } else if typ == CORRIDOR_TURN_LEFT {
        Extend(p, 1, 0, -1, true, l0, o0, 0);
      } else if typ == CORRIDOR_STAIRS {
        Extend(p, 1, 0, 0, true, l0, o0, 0);
      } else if typ == CORRIDOR_T_CROSSING {
        var h := if rot == 0 || rot == 3 then 5 else 1;
        var left := NextInt(8);
        Extend(p, h, 0, -1, left != 0, l0, o0, 0);
        var right := NextInt(8);
        Extend(p, h, 0, 1, right != 0, l0, o0, 1);
      } else if typ == CORRIDOR_NETHER_WART {
        Extend(p, 5, 3, 0, true, l0, o0, 0);
        Extend(p, 5, 11, 0, true, l0, o0, 1);
      }
      GrownAtMost(l0, o0, list, order, l0[p].depth + 1);
      assert Closed(list, l0[p]) by {
        forall o | Opens(l0[p], o)
          ensures Reached(list, l0[p], o) || Reached(list, l0[p], o.(corridor := !o.corridor))
        {
          assert o == Opening(o.offh, o.offv, o.turn, o.corridor);
          assert o.turn == 0 || o.turn == -1 || o.turn == 1;
        }
      }
    }
  }

  /** A piece continues `parent` at `o`, or an end piece there would be out of range or collide. */
  ghost predicate Reached(list: seq<Piece>, parent: Piece, o: Opening) {
    NoRoom(list, parent, o) || exists k :: 0 < k < |list| && Attached(list[k], parent, o)
  }

  /** No opening of a piece is left open; where a draw decides between bridge and corridor, one of them was taken. */
  ghost predicate Closed(list: seq<Piece>, parent: Piece) {
    forall o :: Opens(parent, o) ==> Reached(list, parent, o) || Reached(list, parent, o.(corridor := !o.corridor))
  }

  lemma GrownNothing(list: seq<Piece>, order: seq<nat>, depth: nat)
    ensures forall n: nat :: Grown(list, order, list, order, depth, n)
  {
    assert list[..|list|] == list;
    assert order + seq(0, i requires 0 <= i => |list| + i) == order;
  }

  lemma GrownAtMost(l0: seq<Piece>, o0: seq<nat>, l1: seq<Piece>, o1: seq<nat>, depth: nat)
    requires Grown(l0, o0, l1, o1, depth, 1) || Grown(l0, o0, l1, o1, depth, 2) || Grown(l0, o0, l1, o1, depth, 3)
    ensures Grown(l0, o0, l1, o1, depth, 3)
  {
  }

  /** What growth means for the pieces that were there. */
  lemma GrownSame(l0: seq<Piece>, o0: seq<nat>, l1: seq<Piece>, o1: seq<nat>, depth: nat, n: nat)
    requires Grown(l0, o0, l1, o1, depth, n)
    ensures |l0| <= |l1| && SameButLinks(l0, l1[..|l0|])
  {
  }

  lemma GrownPiece(l0: seq<Piece>, l1: seq<Piece>, k: nat)
    requires k < |l0| <= |l1| && SameButLinks(l0, l1[..|l0|])
    ensures l0[k].(next := 0) == l1[k].(next := 0)
    ensures l0[k].typ == l1[k].typ && l0[k].pos == l1[k].pos && l0[k].bb0 == l1[k].bb0 && l0[k].bb1 == l1[k].bb1
    ensures l0[k].rot == l1[k].rot && l0[k].depth == l1[k].depth
  {
    SameFields(l0, l1[..|l0|], k);
  }

  lemma OpensSame(p: Piece, q: Piece, o: Opening)
    requires p.typ == q.typ && p.rot == q.rot && Opens(p, o)
    ensures Opens(q, o)
  {
  }

  lemma ExtendedGrown(l0: seq<Piece>, o0: seq<nat>, l1: seq<Piece>, o1: seq<nat>, parent: Piece, o: Opening)
    requires Linked(l0, o0) && Extended(l0, o0, l1, o1, parent, o)
    ensures Grown(l0, o0, l1, o1, parent.depth + 1, 1)
  {
    hide Grown;
    GrownNothing(l0, o0, parent.depth + 1);
    if l1 != l0 || o1 != o0 {
      AppendGrown(l0, o0, l1[|l0|]);
    }
  }

  lemma ExtendedReached(l0: seq<Piece>, o0: seq<nat>, l1: seq<Piece>, o1: seq<nat>, parent: Piece, parent1: Piece, o: Opening)
    requires Extended(l0, o0, l1, o1, parent1, o) && |l0| > 0 && parent.(next := 0) == parent1.(next := 0)
    requires l1 == l0 ==> NoRoom(l1, parent1, o)
    ensures Reached(l1, parent, o)
  {
    hide NoRoom;
    if l1 == l0 {
      NoRoomSame(l1, parent1, parent, o);
    } else {
      AttachedSame(l1[|l0|], parent1, parent, o);
    }
  }

  /** One more opening continued: the growth so far, and what is reached, with the new step. */
  lemma ExtendedStep(l0: seq<Piece>, o0: seq<nat>, lo: seq<Piece>, oo: seq<nat>, l1: seq<Piece>, o1: seq<nat>,
                     p: nat, op: Opening, n: nat)
    requires p < |l0| && p < |lo| && lo[p].(next := 0) == l0[p].(next := 0) && lo[p].depth == l0[p].depth
    requires Linked(lo, oo) && Grown(l0, o0, lo, oo, l0[p].depth + 1, n) && Extended(lo, oo, l1, o1, lo[p], op)
    requires l1 == lo ==> NoRoom(l1, lo[p], op)
    ensures Grown(l0, o0, l1, o1, l0[p].depth + 1, n + 1)
    ensures Reached(l1, l0[p], op)
    ensures forall o :: Reached(lo, l0[p], o) ==> Reached(l1, l0[p], o)
  {
    hide Linked, Extended, NoRoom, Grown, Reached, SameButLinks;
    ExtendedGrown(lo, oo, l1, o1, lo[p], op);
    ExtendedReached(lo, oo, l1, o1, l0[p], lo[p], op);
    GrownTwice(l0, o0, lo, oo, l1, o1, l0[p].depth + 1, n, 1);
    GrownSame(lo, oo, l1, o1, l0[p].depth + 1, 1);
    forall o | Reached(lo, l0[p], o)
      ensures Reached(l1, l0[p], o)
    {
      ReachedKept(lo, l1, l0[p], o);
    }
  }

  lemma AttachedSame(q: Piece, parent: Piece, parent1: Piece, o: Opening)
    requires parent.(next := 0) == parent1.(next := 0)
    ensures Attached(q, parent, o) == Attached(q, parent1, o)
  {
    SameFields([parent], [parent1], 0);
  }

  lemma NoRoomSame(list: seq<Piece>, parent: Piece, parent1: Piece, o: Opening)
    requires parent.(next := 0) == parent1.(next := 0) && NoRoom(list, parent, o)
    ensures NoRoom(list, parent1, o)
  {
    hide Attached, CollidesIn;
    forall q: Piece | Attached(q, parent1, o) && q.typ == END && CloseBy(q.pos.x, q.pos.z, list)
      ensures CollidesIn(q, list)
    {
      AttachedSame(q, parent, parent1, o);
    }
  }

  lemma ReachedKept(l0: seq<Piece>, l1: seq<Piece>, parent: Piece, o: Opening)
    requires |l0| <= |l1| && SameButLinks(l0, l1[..|l0|]) && |l0| > 0 && Reached(l0, parent, o)
    ensures Reached(l1, parent, o)
  {
    hide NoRoom, Attached, SameButLinks;
    if NoRoom(l0, parent, o) {
      NoRoomKept(l0, l1, parent, o);
    } else {
      var k :| 0 < k < |l0| && Attached(l0[k], parent, o);
      GrownPiece(l0, l1, k);
      ChildSame(l0[k], l1[k], parent, o);
    }
  }

  lemma ChildSame(q: Piece, q1: Piece, parent: Piece, o: Opening)
    requires q.(next := 0) == q1.(next := 0) && Attached(q, parent, o)
    ensures Attached(q1, parent, o)
  {
    SameFields([q], [q1], 0);
  }

  lemma NoRoomKept(l0: seq<Piece>, l1: seq<Piece>, parent: Piece, o: Opening)
    requires |l0| <= |l1| && SameButLinks(l0, l1[..|l0|]) && |l0| > 0 && NoRoom(l0, parent, o)
    ensures NoRoom(l1, parent, o)
  {
    hide Attached, SameButLinks;
    forall q: Piece | Attached(q, parent, o) && q.typ == END && CloseBy(q.pos.x, q.pos.z, l1)
      ensures CollidesIn(q, l1)
    {
      NoRoomAt(l0, l1, parent, o, q);
    }
  }

  lemma NoRoomAt(l0: seq<Piece>, l1: seq<Piece>, parent: Piece, o: Opening, q: Piece)
    requires |l0| <= |l1| && SameButLinks(l0, l1[..|l0|]) && NoRoom(l0, parent, o)
    requires Attached(q, parent, o) && q.typ == END && CloseBy(q.pos.x, q.pos.z, l1) && |l0| > 0
    ensures CollidesIn(q, l1)
  {
    hide Attached, SameButLinks;
    GrownPiece(l0, l1, 0);
    var k :| 0 <= k < |l0| && Collide(q, l0[k]);
    GrownPiece(l0, l1, k);
    assert Collide(q, l1[k]);
  }

  /** The types that may continue a bridge or a corridor. */
  function TypeRange(corridor: bool): (nat, nat) {
    if corridor then (CORRIDOR_STRAIGHT, CORRIDOR_STRAIGHT + 7) else (BRIDGE_STRAIGHT, BRIDGE_STRAIGHT + 6)
  }

  /** The weights of the types in a range that are not used up. */
  function Choice(ntyp: seq<nat>, lo: nat, hi: nat): nat
    requires |ntyp| == TYPES && lo <= hi <= TYPES
    decreases hi - lo
  {
    if lo == hi then 0
    else (if MaxOf(lo) > 0 && ntyp[lo] >= MaxOf(lo) then 0 else WeightOf(lo)) + Choice(ntyp, lo + 1, hi)
  }

  /** The draw falls into the share of type `t`. */
  predicate Selected(ntyp: seq<nat>, lo: nat, t: nat, draw: nat)
    requires |ntyp| == TYPES && lo <= t < TYPES
  {
    Choice(ntyp, lo, t) <= draw < Choice(ntyp, lo, t + 1)
  }

  predicate Barred(typlast: nat, t: nat) {
    typlast == t && !Repeatable(t)
  }

  lemma ChoiceNone(ntyp: seq<nat>, lo: nat)
    requires |ntyp| == TYPES && lo <= TYPES
    ensures Choice(ntyp, lo, lo) == 0
  {
  }

  lemma {:induction false} ChoiceNext(ntyp: seq<nat>, lo: nat, hi: nat)
    requires |ntyp| == TYPES && lo <= hi < TYPES
    ensures Choice(ntyp, lo, hi + 1)
            == Choice(ntyp, lo, hi) + (if MaxOf(hi) > 0 && ntyp[hi] >= MaxOf(hi) then 0 else WeightOf(hi))
    decreases hi - lo
  {
    hide MaxOf, WeightOf;
    if lo < hi {
      ChoiceNext(ntyp, lo + 1, hi);
    } else {
      ChoiceNone(ntyp, lo + 1);
    }
  }

  lemma {:induction false} ChoiceMonotone(ntyp: seq<nat>, lo: nat, a: nat, b: nat)
    requires |ntyp| == TYPES && lo <= a <= b <= TYPES
    ensures Choice(ntyp, lo, a) <= Choice(ntyp, lo, b)
    decreases b - a
  {
    hide Choice, MaxOf, WeightOf;
    if a < b {
      ChoiceNext(ntyp, lo, a);
      ChoiceMonotone(ntyp, lo, a + 1, b);
    }
  }

  predicate CloseBy(x: int, z: int, list: seq<Piece>) {
    |list| > 0 && -112 <= x - list[0].bb0.x <= 112 && -112 <= z - list[0].bb0.z <= 112
  }

  /** A piece placed there would continue `parent` at the opening `o`. */
  predicate Fits(pos: Pos3, depth: nat, facing: nat, parent: Piece, o: Opening) {
    && depth == parent.depth + 1 && facing == Turned(parent.rot, o.turn)
    && OnSide(pos, facing, parent, o.offh) && pos.y == parent.bb0.y + o.offv
  }

  /** Nothing was added, or one piece continuing `parent` at `o`. */
  ghost predicate Extended(l0: seq<Piece>, o0: seq<nat>, l1: seq<Piece>, o1: seq<nat>, parent: Piece, o: Opening) {
    || (l1 == l0 && o1 == o0)
    || (|l1| == |l0| + 1 && AppendedPiece(l0, o0, l1, o1, l1[|l0|]) && Attached(l1[|l0|], parent, o))
  }

  /** An end piece there would be out of range or collide. */
  ghost predicate NoRoom(list: seq<Piece>, parent: Piece, o: Opening) {
    forall q: Piece :: Attached(q, parent, o) && q.typ == END && CloseBy(q.pos.x, q.pos.z, list) ==> CollidesIn(q, list)
  }

  method OpeningPoint(p: Piece, offh: int, offv: int, turn: int, ghost corridor: bool) returns (x: int, z: int, facing: nat)
    requires p.rot < 4 && -1 <= turn <= 1
    ensures facing < 4
    ensures Spot(Pos3(x, p.bb0.y + offv, z), p.depth + 1, facing) == SpotOf(p, Opening(offh, offv, turn, corridor))
  {
    facing := p.rot;
    if turn == 0 {
      if facing == 0 { x, z := p.bb0.x + offh, p.bb0.z - 1; }
      else if facing == 1 { x, z := p.bb1.x + 1, p.bb0.z + offh; }
      else if facing == 2 { x, z := p.bb0.x + offh, p.bb1.z + 1; }
      else { x, z := p.bb0.x - 1, p.bb0.z + offh; }
    } else if turn == -1 {
      if facing % 2 == 1 { x, z, facing := p.bb0.x + offh, p.bb0.z - 1, 0; }
      else { x, z, facing := p.bb0.x - 1, p.bb0.z + offh, 3; }
    } else {
      if facing % 2 == 1 { x, z, facing := p.bb0.x + offh, p.bb1.z + 1, 2; }
      else { x, z, facing := p.bb1.x + 1, p.bb0.z + offh, 1; }
    }
  }

  /** The spot is where a piece continuing `parent` at the opening has to be. */
  lemma SpotFits(parent: Piece, o: Opening)
    ensures var spot := SpotOf(parent, o); Fits(spot.pos, spot.depth, spot.facing, parent, o)
  {
  }

  lemma MadeType(typ: nat, pos: Pos3, depth: nat, facing: nat)
    requires typ < TYPES
    ensures MakePiece(typ, pos, depth, facing).typ == typ
  {
  }

  /** The types of a range are those that may be attached to a corridor or a bridge. */
  lemma RangeTypes(t: nat, corridor: bool)
    ensures TypeRange(corridor).0 <= t < TypeRange(corridor).1
            <==> t in (if corridor then [CORRIDOR_STRAIGHT, CORRIDOR_CROSSING, CORRIDOR_TURN_RIGHT, CORRIDOR_TURN_LEFT,
                                         CORRIDOR_STAIRS, CORRIDOR_T_CROSSING, CORRIDOR_NETHER_WART]
                       else [BRIDGE_STRAIGHT, BRIDGE_CROSSING, BRIDGE_FORTIFIED_CROSSING, BRIDGE_STAIRS, BRIDGE_SPAWNER,
                             BRIDGE_CORRIDOR_ENTRANCE])
  {
  }

  /** A piece that continues another one stands wall to wall with it, its length ahead, and never inside it. */
  lemma AttachedBeside(q: Piece, parent: Piece, o: Opening)
    requires Attached(q, parent, o) && q.typ < TYPES && parent.rot < 4 && -1 <= o.turn <= 1 && ProperBox(parent)
    ensures !Collide(q, parent)
    ensures q.rot == 0 ==> q.bb1.z == parent.bb0.z - 1 && q.bb1.z - q.bb0.z == INFO[q.typ].size.z
    ensures q.rot == 1 ==> q.bb0.x == parent.bb1.x + 1 && q.bb1.x - q.bb0.x == INFO[q.typ].size.z
    ensures q.rot == 2 ==> q.bb0.z == parent.bb1.z + 1 && q.bb1.z - q.bb0.z == INFO[q.typ].size.z
    ensures q.rot == 3 ==> q.bb1.x == parent.bb0.x - 1 && q.bb1.x - q.bb0.x == INFO[q.typ].size.z
    ensures q.rot % 2 == 0 ==> q.bb0.x == parent.bb0.x + o.offh + INFO[q.typ].offset.x && q.bb1.x - q.bb0.x == INFO[q.typ].size.x
    ensures q.rot % 2 == 1 ==> q.bb0.z == parent.bb0.z + o.offh + INFO[q.typ].offset.x && q.bb1.z - q.bb0.z == INFO[q.typ].size.x
    ensures q.bb0.y == parent.bb0.y + o.offv + INFO[q.typ].offset.y && q.bb1.y - q.bb0.y == INFO[q.typ].size.y
  {
    assert INFO[q.typ].offset.z == 0 && INFO[q.typ].size.z >= 0;
  }

  // ----- when a piece is an end piece

  lemma TrialRng(f: Fort, rng: nat, spot: Spot, lo: nat, hi: nat, t: nat, draw: nat)
    requires |f.ntyp| == TYPES && lo <= t <= hi <= TYPES
    ensures Trial(f.(rng := rng), spot, lo, hi, t, draw) == Trial(f, spot, lo, hi, t, draw)
    decreases hi - t
  {
    hide CollidesIn, PieceAt, Choice, MaxOf, Barred;
    if t < hi {
      TrialRng(f, rng, spot, lo, hi, t + 1, draw);
    }
  }

  /** A draw that leads to no type has come upon one that would repeat the last one or has no room. */
  lemma {:induction false} TrialFails(f: Fort, spot: Spot, lo: nat, hi: nat, from: nat, draw: nat)
    requires |f.ntyp| == TYPES && lo <= from <= hi <= TYPES
    requires Trial(f, spot, lo, hi, from, draw) == None && Choice(f.ntyp, lo, from) <= draw < Choice(f.ntyp, lo, hi)
    ensures exists t :: from <= t < hi && !UsedUp(f.ntyp, t) && (Barred(f.typlast, t) || CollidesIn(PieceAt(t, spot), f.list))
    decreases hi - from
  {
    hide CollidesIn, PieceAt, Choice, MaxOf, WeightOf, Barred;
    ChoiceNext(f.ntyp, lo, from);
    if UsedUp(f.ntyp, from) || draw >= Choice(f.ntyp, lo, from + 1) {
      TrialFails(f, spot, lo, hi, from + 1, draw);
    } else {
      assert Barred(f.typlast, from) || CollidesIn(PieceAt(from, spot), f.list);
    }
  }

  lemma TallySafe(list: seq<Piece>, ntyp: seq<nat>, typlast: nat, order: seq<nat>, processed: set<nat>)
    requires Safe(list, ntyp, typlast, order, processed)
    ensures ntyp == Tally(list) && typlast == LastType(list)
  {
    hide CountOf, LastType;
  }

  lemma DueFor(list: seq<Piece>, spot: Spot, corridor: bool)
    requires DueAt(Tally(list), LastType(list), list, spot.pos, spot.depth, spot.facing, corridor)
    ensures Due(list, PieceAt(END, spot), corridor)
  {
  }

  lemma TrialDue(list: seq<Piece>, order: seq<nat>, ntyp: seq<nat>, typlast: nat, rng: nat, processed: set<nat>, spot: Spot,
                 corridor: bool, draw: nat)
    requires Safe(list, ntyp, typlast, order, processed) && |ntyp| == TYPES
    requires var (lo, hi) := TypeRange(corridor);
             && Trial(Fort(list, order, ntyp, typlast, rng), spot, lo, hi, lo, draw) == None
             && draw < Choice(ntyp, lo, hi)
    ensures Due(list, PieceAt(END, spot), corridor)
  {
    hide Safe, Choice, CollidesIn, Barred, MaxOf, Due, CountOf, LastType, MakePiece, Trial;
    var (lo, hi) := TypeRange(corridor);
    var f := Fort(list, order, ntyp, typlast, rng);
    TallySafe(list, ntyp, typlast, order, processed);
    ChoiceNone(ntyp, lo);
    TrialFails(f, spot, lo, hi, lo, draw);
    DueFor(list, spot, corridor);
  }

  /** The first type of each range is never used up and has a share. */
  lemma ChoicePositive(ntyp: seq<nat>, corridor: bool)
    requires |ntyp| == TYPES
    ensures Choice(ntyp, TypeRange(corridor).0, TypeRange(corridor).1) > 0
  {
    var (lo, hi) := TypeRange(corridor);
    ChoiceNone(ntyp, lo);
    ChoiceNext(ntyp, lo, lo);
    ChoiceMonotone(ntyp, lo, lo + 1, hi);
  }

  lemma StopDue(list: seq<Piece>, ntyp: seq<nat>, typlast: nat, order: seq<nat>, processed: set<nat>, spot: Spot, corridor: bool)
    requires Safe(list, ntyp, typlast, order, processed) && |ntyp| == TYPES
    requires var (lo, hi) := TypeRange(corridor);
             NothingLeft(ntyp, lo, hi) || Choice(ntyp, lo, hi) == 0 || spot.depth > 30
    ensures Due(list, PieceAt(END, spot), corridor)
  {
    hide Safe, Choice, CollidesIn, Barred, MaxOf, Due, CountOf, LastType, MakePiece;
    TallySafe(list, ntyp, typlast, order, processed);
    ChoicePositive(ntyp, corridor);
    DueFor(list, spot, corridor);
  }

  /** Every end piece was due where it is, given the pieces before it. */
  ghost predicate EndsDue(list: seq<Piece>) {
    forall k :: 0 < k < |list| && list[k].typ == END ==> exists corridor :: Due(list[..k], list[k], corridor)
  }

  lemma RootedDue(list: seq<Piece>)
    requires Rooted(list)
    ensures EndsDue(list)
  {
    hide Due, Opens, Attached;
    forall k | 0 < k < |list| && list[k].typ == END
      ensures exists corridor :: Due(list[..k], list[k], corridor)
    {
      assert HasParent(list, k);
    }
  }

  lemma MadeAllowed(list: seq<Piece>, ntyp: seq<nat>, typlast: nat, t: nat, pos: Pos3, depth: nat, facing: nat)
    requires 0 < t < TYPES && |ntyp| == TYPES && facing < 4 && CloseBy(pos.x, pos.z, list)
    requires depth <= (if t == END then 31 else 30)
    requires MaxOf(t) > 0 ==> ntyp[t] < MaxOf(t)
    requires t == END || Repeatable(t) || t != typlast
    ensures Allowed(list, ntyp, typlast, MakePiece(t, pos, depth, facing))
  {
  }

  lemma EndAllowed(list: seq<Piece>, ntyp: seq<nat>, typlast: nat, pos: Pos3, depth: nat, facing: nat)
    requires |ntyp| == TYPES && facing < 4 && CloseBy(pos.x, pos.z, list) && depth <= 31
    ensures Allowed(list, ntyp, typlast, MakePiece(END, pos, depth, facing))
  {
  }

  lemma OpensTurn(p: Piece, o: Opening)
    requires Opens(p, o)
    ensures -1 <= o.turn <= 1
  {
  }

  lemma MadeAttached(t: nat, pos: Pos3, depth: nat, facing: nat, parent: Piece, o: Opening)
    requires Fits(pos, depth, facing, parent, o) && (t == END || TypeRange(o.corridor).0 <= t < TypeRange(o.corridor).1)
    ensures t < TYPES && Attached(MakePiece(t, pos, depth, facing), parent, o)
  {
  }

  lemma MadeExtended(l0: seq<Piece>, o0: seq<nat>, l1: seq<Piece>, o1: seq<nat>, parent: Piece, o: Opening, p: Piece)
    requires AppendedPiece(l0, o0, l1, o1, p) && Attached(p, parent, o)
    ensures Extended(l0, o0, l1, o1, parent, o) && |l1| == |l0| + 1
  {
  }

  lemma ExtendedGrew(l0: seq<Piece>, o0: seq<nat>, l1: seq<Piece>, o1: seq<nat>, parent: Piece, o: Opening)
    requires Extended(l0, o0, l1, o1, parent, o) && |l1| == |l0| + 1
    ensures l1 != l0
  {
  }

  lemma ExtendedNothing(list: seq<Piece>, order: seq<nat>, parent: Piece, o: Opening)
    ensures Extended(list, order, list, order, parent, o)
  {
  }

  lemma NoRoomFor(list: seq<Piece>, pos: Pos3, depth: nat, facing: nat, parent: Piece, o: Opening)
    requires Fits(pos, depth, facing, parent, o) && facing < 4
    requires CloseBy(pos.x, pos.z, list) ==> CollidesIn(MakePiece(END, pos, depth, facing), list)
    ensures NoRoom(list, parent, o)
  {
    hide CollidesIn;
    var p := MakePiece(END, pos, depth, facing);
    forall q: Piece | Attached(q, parent, o) && q.typ == END && CloseBy(q.pos.x, q.pos.z, list)
      ensures CollidesIn(q, list)
    {
      assert q.pos == pos;
      assert q.(next := -1) == p;
      CollidesSame(p, q, list);
    }
  }

  lemma CollidesSame(p: Piece, q: Piece, list: seq<Piece>)
    requires q.(next := -1) == p && CollidesIn(p, list)
    ensures CollidesIn(q, list)
  {
    var k :| 0 <= k < |list| && Collide(p, list[k]);
    assert p == q.(next := -1) && Collide(q, list[k]);
  }

  lemma SafeRot(list: seq<Piece>, ntyp: seq<nat>, typlast: nat, order: seq<nat>, processed: set<nat>, k: nat)
    requires Safe(list, ntyp, typlast, order, processed) && k < |list|
    ensures list[k].rot < 4 && list[k].typ < TYPES && (list[k].typ != END ==> list[k].depth <= 30) && list[k].depth <= 31
  {
  }

  lemma ChainStart(list: seq<Piece>, order: seq<nat>)
    requires Linked(list, order)
    ensures |list| > 0 && list[0].next == Next(order, 0) && Tail(order[..0]) == 0
  {
  }

  lemma ChainStep(list: seq<Piece>, order: seq<nat>, k: nat)
    requires Linked(list, order) && k < |order|
    ensures 0 < order[k] < |list| && list[order[k]].next == Next(order, k + 1) && Tail(order[..k + 1]) == order[k]
  {
  }

  /** The list and the chain after appending a piece. */
  ghost predicate AppendedPiece(l0: seq<Piece>, o0: seq<nat>, l1: seq<Piece>, o1: seq<nat>, p: Piece) {
    Linked(l0, o0) && l1 == Appended(l0, o0, p) && o1 == o0 + [|l0|]
  }

  lemma SafeChain(list: seq<Piece>, ntyp: seq<nat>, typlast: nat, order: seq<nat>, processed: set<nat>)
    requires Safe(list, ntyp, typlast, order, processed)
    ensures Linked(list, order) && |ntyp| == TYPES && NoRepeats(order)
  {
  }

  /** The state after placing a piece. */
  lemma AddedSafe(list: seq<Piece>, ntyp: seq<nat>, typlast: nat, order: seq<nat>, processed: set<nat>,
                  typ: nat, pos: Pos3, depth: nat, facing: nat, parent: nat, o: Opening)
    requires Safe(list, ntyp, typlast, order, processed) && Rooted(list) && typ < TYPES
    requires Allowed(list, ntyp, typlast, MakePiece(typ, pos, depth, facing))
    requires parent < |list| && Opens(list[parent], o) && Attached(MakePiece(typ, pos, depth, facing), list[parent], o)
    requires typ == END ==> Due(list, MakePiece(typ, pos, depth, facing), o.corridor)
    requires forall k :: 0 <= k < |list| ==> !Collide(MakePiece(typ, pos, depth, facing), list[k])
    ensures Linked(list, order) && typ < |ntyp|
    ensures var l := Appended(list, order, MakePiece(typ, pos, depth, facing));
            && Safe(l, ntyp[typ := ntyp[typ] + 1], if typ == END then typlast else typ, order + [|list|], processed)
            && Rooted(l)
  {
    hide Safe, Rooted, Opens, Attached, Collide, Allowed, MakePiece, Linked, NoRepeats, Appended, Due;
    var p := MakePiece(typ, pos, depth, facing);
    MakeGood(list, ntyp, typlast, typ, pos, depth, facing);
    SafeChain(list, ntyp, typlast, order, processed);
    AppendSafe(list, ntyp, typlast, order, processed, p);
    assert AtOpening(list, p, list[parent]);
    AppendRooted(list, order, p, parent);
  }

  lemma MakeGood(list: seq<Piece>, ntyp: seq<nat>, typlast: nat, typ: nat, pos: Pos3, depth: nat, facing: nat)
    requires typ < TYPES && Allowed(list, ntyp, typlast, MakePiece(typ, pos, depth, facing))
    ensures GoodPiece(MakePiece(typ, pos, depth, facing), list[0])
    ensures MaxOf(typ) > 0 ==> typ < |ntyp| && ntyp[typ] < MaxOf(typ)
    ensures typ == END || Repeatable(typ) || typ != typlast
    ensures var p := MakePiece(typ, pos, depth, facing); p.typ == typ && p.next == -1
  {
    BoxIsProper(MakePiece(typ, pos, depth, facing));
  }

  lemma StartCounts(start: Piece, ntyp: seq<nat>)
    requires start.typ == START && ntyp == [1] + seq(TYPES - 1, _ => 0)
    ensures Counts([start], ntyp)
  {
    assert [start][..0] == [];
    assert ntyp[1..] == seq(TYPES - 1, _ => 0);
    SumZeros(TYPES - 1);
  }

  lemma {:induction false} SumZeros(n: nat)
    ensures Sum(seq(n, _ => 0)) == 0
  {
    if n > 0 {
      assert seq(n, _ => 0)[1..] == seq(n - 1, _ => 0);
      SumZeros(n - 1);
    }
  }

  // ----- the whole run

  /** Every piece that was extended is closed. */
  ghost predicate AllClosed(list: seq<Piece>, extended: set<nat>) {
    forall k :: k in extended && k < |list| ==> Closed(list, list[k])
  }

  lemma ClosedKept(l0: seq<Piece>, l1: seq<Piece>, parent: Piece, parent1: Piece)
    requires 0 < |l0| <= |l1| && SameButLinks(l0, l1[..|l0|]) && Closed(l0, parent)
    requires parent.(next := 0) == parent1.(next := 0)
    ensures Closed(l1, parent1)
  {
    hide Reached, SameButLinks, Opens;
    SameFields([parent], [parent1], 0) by {
      SamePair(parent, parent1);
    }
    forall o | Opens(parent1, o)
      ensures Reached(l1, parent1, o) || Reached(l1, parent1, o.(corridor := !o.corridor))
    {
      OpensSame(parent1, parent, o);
      var c := if Reached(l0, parent, o) then o else o.(corridor := !o.corridor);
      ReachedKept(l0, l1, parent, c);
      ReachedSame(l1, parent, parent1, c);
    }
  }

  lemma SamePair(p: Piece, q: Piece)
    requires p.(next := 0) == q.(next := 0)
    ensures SameButLinks([p], [q])
  {
  }

  lemma ReachedSame(list: seq<Piece>, parent: Piece, parent1: Piece, o: Opening)
    requires parent.(next := 0) == parent1.(next := 0) && Reached(list, parent, o)
    ensures Reached(list, parent1, o)
  {
    hide NoRoom, Attached;
    if NoRoom(list, parent, o) {
      NoRoomSame(list, parent, parent1, o);
    } else {
      var k :| 0 < k < |list| && Attached(list[k], parent, o);
      AttachedSame(list[k], parent, parent1, o);
    }
  }

  lemma AllClosedKept(l0: seq<Piece>, l1: seq<Piece>, extended: set<nat>)
    requires 0 < |l0| <= |l1| && SameButLinks(l0, l1[..|l0|]) && AllClosed(l0, extended)
    requires forall k :: k in extended ==> k < |l0|
    ensures AllClosed(l1, extended)
  {
    hide Closed, SameButLinks;
    forall k | k in extended
      ensures Closed(l1, l1[k])
    {
      GrownPiece(l0, l1, k);
      ClosedKept(l0, l1, l0[k], l1[k]);
    }
  }

  lemma TailInside(list: seq<Piece>, order: seq<nat>, i: nat)
    requires Linked(list, order) && i < |order|
    ensures Tail(order[..i]) < |list| && Tail(order[..i]) != -1
  {
    if i > 0 {
      assert order[..i][i - 1] == order[i - 1];
    }
  }

  /** Extending a pending piece makes the pending pieces lighter. */
  lemma StepWeight(list: seq<Piece>, order: seq<nat>, i: nat, l1: seq<Piece>, o1: seq<nat>)
    requires Linked(list, order) && NoRepeats(order) && i < |order| && list[order[i]].depth <= 31
    requires Grown(Cut(list, order, i), Without(order, i), l1, o1, list[order[i]].depth + 1, 3)
    ensures TotalWeight(l1, o1) < TotalWeight(list, order)
  {
    hide Cut, Grown, TotalWeight, NoRepeats, Without, Linked;
    CutBounds(list, order, i);
    WeightPositive(list[order[i]].depth + 1);
    CutWeight(list, order, i);
    CutLinked(list, order, i);
    InsideChain(Cut(list, order, i), Without(order, i));
    GrownWeight(Cut(list, order, i), Without(order, i), l1, o1, list[order[i]].depth + 1, 3);
  }

  lemma InsideChain(list: seq<Piece>, order: seq<nat>)
    requires Linked(list, order)
    ensures forall k :: 0 <= k < |order| ==> order[k] < |list|
  {
  }

  lemma FirstClosed(l0: seq<Piece>, l1: seq<Piece>)
    requires 0 < |l0| <= |l1| && SameButLinks(l0, l1[..|l0|]) && Closed(l1, l0[0])
    ensures AllClosed(l1, {0}) && l1[0].bb0 == l0[0].bb0
  {
    hide Closed, SameButLinks;
    GrownPiece(l0, l1, 0);
    assert l1[..|l1|] == l1;
    SameAsSelf(l1);
    ClosedKept(l1, l1, l0[0], l1[0]);
  }

  lemma SameAsSelf(list: seq<Piece>)
    ensures SameButLinks(list, list)
  {
  }

  /** One round of the loop closes the piece it takes and keeps the others closed. */
  lemma RoundClosed(list: seq<Piece>, order: seq<nat>, i: nat, l1: seq<Piece>, processed: set<nat>)
    requires Linked(list, order) && NoRepeats(order) && i < |order| && 0 < |list| <= |l1| && order[i] < |list|
    requires SameButLinks(Cut(list, order, i), l1[..|list|]) && Closed(l1, Cut(list, order, i)[order[i]])
    requires AllClosed(list, processed) && forall k :: k in processed ==> k < |list|
    ensures AllClosed(l1, processed + {order[i]}) && l1[0].bb0 == list[0].bb0
  {
    hide Closed, SameButLinks, Cut, NoRepeats, Linked;
    var l := Cut(list, order, i);
    var q := order[i];
    CutSame(list, order, i);
    SameFlip(l, list);
    assert l[..|list|] == l;
    AllClosedKept(list, l, processed);
    AllClosedKept(l, l1, processed);
    GrownPiece(list, l, 0);
    GrownPiece(l, l1, 0);
    GrownPiece(l, l1, q);
    assert l1[..|l1|] == l1;
    SameAsSelf(l1);
    ClosedKept(l1, l1, l[q], l1[q]);
  }

  lemma SafeMembers(list: seq<Piece>, ntyp: seq<nat>, typlast: nat, order: seq<nat>, processed: set<nat>)
    requires Safe(list, ntyp, typlast, order, processed)
    ensures |list| > 0 && forall k :: k in processed ==> 0 < k < |list|
    ensures forall k :: 0 < k < |list| && order == [] ==> k in processed
  {
  }

  lemma GrowsOn(g: Rolls, f: Fort, n: nat, a: Fort, b: Fort)
    requires Grows(g, f, n, a) && NextFort(g, a, b)
    ensures Grows(g, f, n + 1, b)
  {
  }

  /** Generates a fortress: terminates whatever is drawn, with every piece extended and closed. */
  method GetFortressPieces(g: Rolls, rng: nat, chunkX: int, chunkZ: int) returns (env: PieceEnv)
    requires g.InRange()
    ensures fresh(env) && env.g == g && env.Valid() && IsFortress(g, rng, chunkX, chunkZ, env.State())
    ensures forall k :: k in env.processed <==> 0 < k < |env.list|
    ensures AllClosed(env.list, env.processed + {0}) && EndsDue(env.list)
  {
    hide Safe, Rooted, Closed, Grown, Cut, SameButLinks, Without, TotalWeight, NoRepeats, Linked, Extensions, Grows, EndsDue;
    env := new PieceEnv(g, rng, chunkX, chunkZ);
    ghost var start := env.list;
    SafeChain(env.list, env.ntyp, env.typlast, env.order, env.processed);
    env.ExtendFortressPiece(0);
    GrownSame(start, [], env.list, env.order, 1, 3);
    FirstClosed(start, env.list);
    assert {} + {0} == {0};
    ghost var first := env.State();
    ghost var n: nat := 0;
    assert Grows(g, first, 0, first) by { GrowsNothing(g, first); }
    while env.list[0].next != -1
      invariant fresh(env) && env.g == g && env.Valid() && |env.list| > 0
      invariant AllClosed(env.list, env.processed + {0})
      invariant Grows(g, first, n, env.State())
      decreases TotalWeight(env.list, env.order)
    {
      ghost var l0, o0, done, f0 := env.list, env.order, env.processed, env.State();
      SafeMembers(l0, env.ntyp, env.typlast, o0, done);
      SafeChain(l0, env.ntyp, env.typlast, o0, done);
      ChainStart(l0, o0);
      var len := env.CountPending();
      var i := env.NextInt(len);
      var q := env.TakePending(i);
      SafeRot(env.list, env.ntyp, env.typlast, env.order, env.processed, q);
      SameFields(env.list, l0, q) by { CutSame(l0, o0, i); }
      env.ExtendFortressPiece(q);
      GrownSame(Cut(l0, o0, i), Without(o0, i), env.list, env.order, l0[q].depth + 1, 3);
      StepWeight(l0, o0, i, env.list, env.order);
      RoundClosed(l0, o0, i, env.list, done + {0});
      assert done + {0} + {q} == env.processed + {0};
      assert NextFort(g, f0, env.State());
      GrowsOn(g, first, n, f0, env.State());
      n := n + 1;
    }
    SafeChain(env.list, env.ntyp, env.typlast, env.order, env.processed);
    ChainStart(env.list, env.order);
    InsideChain(env.list, env.order);
    SafeMembers(env.list, env.ntyp, env.typlast, env.order, env.processed);
    RootedDue(env.list);
  }

  lemma GrowsNothing(g: Rolls, f: Fort)
    ensures Grows(g, f, 0, f)
  {
  }
}
