/** How large a buffer a layer tree needs: getMaxArea and getMinLayerCacheSize of generator.c,
    with the zoom and edge values of setupLayerStack. */
module LayerBuffers {
  import opened LayerTree
  import opened Products

  function Edge(l: Layer): nat {
    match l
    case Continent(_) => 0
    case OceanTemp(_) => 0
    case ZoomFuzzy(_, _) => 3
    case Zoom(_, _) => 3
    case Land(_, _) => 2
    case Island(_, _) => 2
    case Smooth(_, _) => 2
    case Shore(_, _) => 2
    case Point(edge, _, _) => edge
    case Around(_, _) => 2
    case Hills(_, _, _, _, _) => 2
    case RiverMix(_, _, _) => 0
    case OceanMix(_, _) => 17
  }

  function ZoomFactor(l: Layer): nat {
    if l.Zoom? || l.ZoomFuzzy? then 2 else 1
  }

  predicate HasParent(l: Layer) {
    !l.Continent? && !l.OceanTemp?
  }

  predicate HasSecondParent(l: Layer) {
    l.Hills? || l.RiverMix? || l.OceanMix?
  }

  /** The side length handed on to the parents of a layer asked for `a` cells. */
  function ParentSpan(l: Layer, a: nat): nat {
    (a + Edge(l)) / ZoomFactor(l)
  }

  /** Multi-layers and zoom-layers work on a temporary copy of their parent area. */
  function OwnCopy(l: Layer, a: nat, b: nat): nat {
    if HasSecondParent(l) || ZoomFactor(l) != 1 then Area(a + Edge(l), b + Edge(l)) else 0
  }

  /** Cells of temporary copies over the whole tree. */
  function Copies(l: Layer, a: nat, b: nat): nat {
    OwnCopy(l, a, b)
        + (if HasParent(l) then Copies(l.p, ParentSpan(l, a), ParentSpan(l, b)) else 0)
        + (if HasSecondParent(l) then Copies(l.p2, ParentSpan(l, a), ParentSpan(l, b)) else 0)
  }

  function Max(a: nat, b: nat): nat {
    if a > b then a else b
  }

  /** The longest side requested anywhere in the tree. */
  function Span(l: Layer, a: nat): nat {
    var own := a + Edge(l);
    var first := if HasParent(l) then Max(own, Span(l.p, ParentSpan(l, a))) else own;
    if HasSecondParent(l) then Max(first, Span(l.p2, ParentSpan(l, a))) else first
  }

  function CacheSize(l: Layer, w: nat, h: nat): nat {
    Copies(l, w, h) + Area(Span(l, w), Span(l, h))
  }

  /** One layer's part of the span, and of the copies, beside those of its parents. */
  lemma SpanParts(l: Layer, a: nat, m: nat)
    ensures
      var own := Max(m, a + Edge(l));
      var first := if HasParent(l) then Max(own, Span(l.p, ParentSpan(l, a))) else own;
      Max(m, Span(l, a)) == if HasSecondParent(l) then Max(first, Span(l.p2, ParentSpan(l, a))) else first
  {
    hide Edge, ParentSpan;
  }

  lemma CopiesParts(l: Layer, a: nat, b: nat)
    ensures Copies(l, a, b)
            == OwnCopy(l, a, b)
               + (if HasParent(l) then Copies(l.p, ParentSpan(l, a), ParentSpan(l, b)) else 0)
               + (if HasSecondParent(l) then Copies(l.p2, ParentSpan(l, a), ParentSpan(l, b)) else 0)
  {
  }

  lemma SpanAtLeast(l: Layer, a: nat)
    ensures Span(l, a) >= a + Edge(l)
  {
  }

  // ----- the walk over the table of layers

  /** A layer as the walk sees it, down to its parents. */
  datatype Node = Absent | Node(zoom: nat, edge: nat, p: Node, p2: Node)

  function Shape(l: Layer): Node {
    Node(ZoomFactor(l), Edge(l), if HasParent(l) then Shape(l.p) else Absent, if HasSecondParent(l) then Shape(l.p2) else Absent)
  }

  /** The side length handed on, halved or quartered. */
  function Shrunk(n: Node, a: nat): nat
    requires n.Node?
  {
    if n.zoom == 2 then (a + n.edge) / 2 else if n.zoom == 4 then (a + n.edge) / 4 else a + n.edge
  }

  /** The temporary copy of a multi-layer or zoom-layer. */
  function NodeCopy(n: Node, a: nat, b: nat): nat
    requires n.Node?
  {
    if n.p2.Node? || n.zoom != 1 then Area(a + n.edge, b + n.edge) else 0
  }

  function NodeCopies(n: Node, a: nat, b: nat): nat {
    if n.Absent? then 0
    else
      NodeCopy(n, a, b)
        + NodeCopies(n.p, Shrunk(n, a), Shrunk(n, b)) + NodeCopies(n.p2, Shrunk(n, a), Shrunk(n, b))
  }

  function NodeSpan(n: Node, a: nat): nat {
    if n.Absent? then 0
    else Max(Max(a + n.edge, NodeSpan(n.p, Shrunk(n, a))), NodeSpan(n.p2, Shrunk(n, a)))
  }

  lemma NodeSpanParts(n: Node, a: nat, m: nat)
    ensures n.Absent? ==> Max(m, NodeSpan(n, a)) == m
    ensures n.Node? ==>
      Max(m, NodeSpan(n, a)) == Max(Max(Max(m, a + n.edge), NodeSpan(n.p, Shrunk(n, a))), NodeSpan(n.p2, Shrunk(n, a)))
  {
    hide Shrunk;
  }

  lemma NodeCopiesParts(n: Node, a: nat, b: nat)
    ensures n.Absent? ==> NodeCopies(n, a, b) == 0
    ensures n.Node? ==>
      NodeCopies(n, a, b) == NodeCopy(n, a, b)
                             + NodeCopies(n.p, Shrunk(n, a), Shrunk(n, b)) + NodeCopies(n.p2, Shrunk(n, a), Shrunk(n, b))
  {
    hide NodeCopy, Shrunk;
  }

  /** getMaxArea: one walk of the tree that carries the maxima and the running size along. */
  method GetMaxArea(n: Node, areaX: nat, areaZ: nat, maxX: nat, maxZ: nat, siz: nat)
    returns (maxX': nat, maxZ': nat, siz': nat)
    ensures maxX' == Max(maxX, NodeSpan(n, areaX))
    ensures maxZ' == Max(maxZ, NodeSpan(n, areaZ))
    ensures siz' == siz + NodeCopies(n, areaX, areaZ)
  {
    hide NodeSpan, NodeCopies, Area;
    maxX', maxZ', siz' := maxX, maxZ, siz;
    NodeSpanParts(n, areaX, maxX);
    NodeSpanParts(n, areaZ, maxZ);
    NodeCopiesParts(n, areaX, areaZ);
    if n.Absent? {
      return;
    }
    var x, z := areaX + n.edge, areaZ + n.edge;
    if n.p2.Node? || n.zoom != 1 {
      siz' := siz' + Area(x, z);
    }
    if x > maxX' {
      maxX' := x;
    }
    if z > maxZ' {
      maxZ' := z;
    }
    assert maxX' == Max(maxX, areaX + n.edge) && maxZ' == Max(maxZ, areaZ + n.edge);
    if n.zoom == 2 {
      x, z := x / 2, z / 2;
    } else if n.zoom == 4 {
      x, z := x / 4, z / 4;
    }
    assert x == Shrunk(n, areaX) && z == Shrunk(n, areaZ);
    hide Max, Shrunk;
    maxX', maxZ', siz' := GetMaxArea(n.p, x, z, maxX', maxZ', siz');
    if n.p2.Node? {
      maxX', maxZ', siz' := GetMaxArea(n.p2, x, z, maxX', maxZ', siz');
    } else {
      NodeSpanParts(n.p2, x, maxX');
      NodeSpanParts(n.p2, z, maxZ');
      NodeCopiesParts(n.p2, x, z);
    }
  }

  method GetMinLayerCacheSize(n: Node, sizeX: nat, sizeZ: nat) returns (size: nat)
    ensures size == NodeCopies(n, sizeX, sizeZ) + Area(Max(sizeX, NodeSpan(n, sizeX)), Max(sizeZ, NodeSpan(n, sizeZ)))
  {
    var maxX, maxZ, bufsiz := GetMaxArea(n, sizeX, sizeZ, sizeX, sizeZ, 0);
    size := bufsiz + Area(maxX, maxZ);
  }

  /** For the layers that are modelled the walk finds the size that their methods rely on. */
  lemma ReportedSize(l: Layer, w: nat, h: nat)
    ensures NodeCopies(Shape(l), w, h) + Area(Max(w, NodeSpan(Shape(l), w)), Max(h, NodeSpan(Shape(l), h))) == CacheSize(l, w, h)
  {
    hide Area;
    ShapeSpan(l, w);
    ShapeSpan(l, h);
    ShapeCopies(l, w, h);
    SpanAtLeast(l, w);
    SpanAtLeast(l, h);
  }

  lemma ShapeParts(l: Layer, a: nat)
    ensures
      var n := Shape(l);
      && n.Node? && n.edge == Edge(l) && (n.zoom == 1 <==> ZoomFactor(l) == 1) && Shrunk(n, a) == ParentSpan(l, a)
      && n.p == (if HasParent(l) then Shape(l.p) else Absent)
      && n.p2 == (if HasSecondParent(l) then Shape(l.p2) else Absent) && (n.p2.Node? <==> HasSecondParent(l))
  {
  }

  lemma {:induction false} ShapeSpan(l: Layer, a: nat)
    ensures NodeSpan(Shape(l), a) == Span(l, a)
  {
    hide Shape, Span, NodeSpan, Edge, ParentSpan, Shrunk;
    ShapeParts(l, a);
    NodeSpanParts(Shape(l), a, 0);
    NodeSpanParts(Absent, ParentSpan(l, a), 0);
    SpanParts(l, a, 0);
    if HasParent(l) {
      ShapeSpan(l.p, ParentSpan(l, a));
    }
    if HasSecondParent(l) {
      ShapeSpan(l.p2, ParentSpan(l, a));
    }
  }

  lemma OwnCopyIs(l: Layer, a: nat, b: nat)
    ensures OwnCopy(l, a, b) == if HasSecondParent(l) || ZoomFactor(l) != 1 then Area(a + Edge(l), b + Edge(l)) else 0
  {
  }

  lemma {:induction false} ShapeCopies(l: Layer, a: nat, b: nat)
    ensures NodeCopies(Shape(l), a, b) == Copies(l, a, b)
  {
    hide Shape, Copies, NodeCopies, OwnCopy, Edge, Area, ParentSpan, Shrunk, ZoomFactor;
    ShapeParts(l, a);
    ShapeParts(l, b);
    OwnCopyIs(l, a, b);
    NodeCopiesParts(Shape(l), a, b);
    NodeCopiesParts(Absent, ParentSpan(l, a), ParentSpan(l, b));
    CopiesParts(l, a, b);
    if HasParent(l) {
      ShapeCopies(l.p, ParentSpan(l, a), ParentSpan(l, b));
    }
    if HasSecondParent(l) {
      ShapeCopies(l.p2, ParentSpan(l, a), ParentSpan(l, b));
    }
  }

  lemma OwnMonotone(l: Layer, a: nat, b: nat, a': nat, b': nat)
    requires a <= a' && b <= b'
    ensures OwnCopy(l, a, b) <= OwnCopy(l, a', b')
    ensures ParentSpan(l, a) <= ParentSpan(l, a') && ParentSpan(l, b) <= ParentSpan(l, b')
  {
    hide Area, Edge;
    AreaMonotone(a + Edge(l), b + Edge(l), a' + Edge(l), b' + Edge(l));
  }

  lemma {:induction false} SpanMonotone(l: Layer, a: nat, a': nat)
    requires a <= a'
    ensures Span(l, a) <= Span(l, a')
  {
    hide ParentSpan, Edge;
    OwnMonotone(l, a, a, a', a');
    if HasParent(l) {
      SpanMonotone(l.p, ParentSpan(l, a), ParentSpan(l, a'));
    }
    if HasSecondParent(l) {
      SpanMonotone(l.p2, ParentSpan(l, a), ParentSpan(l, a'));
    }
  }

  lemma {:induction false} CopiesMonotone(l: Layer, a: nat, b: nat, a': nat, b': nat)
    requires a <= a' && b <= b'
    ensures Copies(l, a, b) <= Copies(l, a', b')
  {
    hide OwnCopy, ParentSpan;
    OwnMonotone(l, a, b, a', b');
    if HasParent(l) {
      CopiesMonotone(l.p, ParentSpan(l, a), ParentSpan(l, b), ParentSpan(l, a'), ParentSpan(l, b'));
    }
    if HasSecondParent(l) {
      CopiesMonotone(l.p2, ParentSpan(l, a), ParentSpan(l, b), ParentSpan(l, a'), ParentSpan(l, b'));
    }
  }

  /** A larger request never needs a smaller buffer, and the requested area always fits. */
  lemma CacheMonotone(l: Layer, a: nat, b: nat, a': nat, b': nat)
    requires a <= a' && b <= b'
    ensures Area(a, b) <= CacheSize(l, a, b) <= CacheSize(l, a', b')
  {
    CopiesMonotone(l, a, b, a', b');
    SpanMonotone(l, a, a');
    SpanMonotone(l, b, b');
    SpanAtLeast(l, a);
    SpanAtLeast(l, b);
    AreaMonotone(a, b, Span(l, a), Span(l, b));
    AreaMonotone(Span(l, a), Span(l, b), Span(l, a'), Span(l, b'));
  }

  /** What a parent asked for at most (a, b) needs beside the copies made for its siblings. */
  lemma ParentFits(l: Layer, p: Layer, w: nat, h: nat, a: nat, b: nat)
    requires HasParent(l) && (p == l.p || (HasSecondParent(l) && p == l.p2))
    requires a <= ParentSpan(l, w) && b <= ParentSpan(l, h)
    ensures CacheSize(p, a, b) <= CacheSize(l, w, h)
    ensures (HasSecondParent(l) || ZoomFactor(l) != 1) ==>
      Area(w + Edge(l), h + Edge(l)) + CacheSize(p, a, b) <= CacheSize(l, w, h)
  {
    hide Edge, ParentSpan, Area;
    CacheMonotone(p, a, b, ParentSpan(l, w), ParentSpan(l, h));
    AreaMonotone(Span(p, ParentSpan(l, w)), Span(p, ParentSpan(l, h)), Span(l, w), Span(l, h));
  }

  /** The two passes of a zoom: pW by pH parent cells and twice that in each direction. */
  lemma ZoomFits(l: Layer, w: nat, h: nat, pW: nat, pH: nat)
    requires ZoomFactor(l) == 2
    requires 2 * pW <= w + 3 && 2 * pH <= h + 3
    ensures CacheSize(l.p, pW, pH) <= CacheSize(l, w, h)
    ensures 5 * Area(pW, pH) <= CacheSize(l, w, h)
  {
    ParentFits(l, l.p, w, h, pW, pH);
    CacheMonotone(l.p, pW, pH, pW, pH);
    AreaMonotone(2 * pW, 2 * pH, w + 3, h + 3);
    AreaQuadruple(pW, pH);
  }
}
