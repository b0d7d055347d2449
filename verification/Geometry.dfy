/**
 The geometry of the box drawing, from the equations that the width pass and the placement establish:
 where spans, boxes, labels and connector cells lie, for every tree, all box sizes and all label lengths.
 */
module Geometry {
  import opened DisplayTree

  const SIBLING_GAP := 5
  const LAYER_GAP := 5

  /** A box with its lines of text. */
  datatype Box = Box(lines: seq<string>, width: nat, height: nat) {
    /** The text leaves a border and a blank column on each side. */
    predicate Fits() {
      |lines| >= 1 && height == |lines| + 2 && width >= 4 && forall k | 0 <= k < |lines| :: |lines[k]| + 4 <= width
    }
  }

  /** Sum of the first `k` children's spans and of the gaps between them. */
  function SpanUpTo(edges: seq<Edge>, widths: map<nat, nat>, k: nat): (r: nat)
    requires k <= |edges| && Measured(edges, widths)
  {
    if k == 0 then 0
    else SpanUpTo(edges, widths, k - 1) + widths[edges[k - 1].child] + if k > 1 then SIBLING_GAP else 0
  }

  function SpanSum(edges: seq<Edge>, widths: map<nat, nat>): (r: nat)
    requires Measured(edges, widths)
  {
    SpanUpTo(edges, widths, |edges|)
  }

  /** Left edge of the i-th child relative to the first. */
  function Offset(edges: seq<Edge>, widths: map<nat, nat>, i: nat): (r: nat)
    requires i <= |edges| && Measured(edges, widths)
  {
    if i == 0 then 0 else Offset(edges, widths, i - 1) + widths[edges[i - 1].child] + SIBLING_GAP
  }

  function Max(x: int, y: int): (r: int) {
    if x < y then y else x
  }

  /** What a node needs for its own box and its children. */
  function OwnWidth(c: Component, boxes: map<nat, Box>, widths: map<nat, nat>, n: nat): (r: nat)
    requires n in c.children && n in boxes && Measured(c.children[n], widths)
  {
    Max(boxes[n].width, SpanSum(c.children[n], widths))
  }

  ghost predicate Sized(c: Component, boxes: map<nat, Box>) {
    boxes.Keys == c.children.Keys && forall n | n in boxes :: boxes[n].Fits()
  }

  ghost predicate Covers(c: Component, widths: map<nat, nat>) {
    && widths.Keys == c.children.Keys
    && forall n | n in c.children :: Measured(c.children[n], widths)
  }

  predicate Measured(edges: seq<Edge>, widths: map<nat, nat>) {
    forall i | 0 <= i < |edges| :: edges[i].child in widths
  }

  /** The width pass: every span holds its node's box, its children and the label of the edge above it, and no more. */
  ghost predicate Spanned(c: Component, boxes: map<nat, Box>, widths: map<nat, nat>) {
    && Sized(c, boxes) && Covers(c, widths)
    && c.root in c.children && widths[c.root] == OwnWidth(c, boxes, widths, c.root)
    && forall n, i {:trigger c.HasEdge(n, i)} | c.HasEdge(n, i) ::
         var e := c.children[n][i];
         e.child in c.children && widths[e.child] == Max(OwnWidth(c, boxes, widths, e.child), e.LabelWidth())
  }

  /** The placement: children side by side, centred as a block below their parent. */
  ghost predicate Placed(c: Component, widths: map<nat, nat>, lefts: map<nat, int>) {
    && Covers(c, widths) && lefts.Keys == c.children.Keys
    && c.root in lefts && lefts[c.root] == 0
    && forall n, i {:trigger c.HasEdge(n, i)} | c.HasEdge(n, i) ::
         lefts[c.children[n][i].child]
         == lefts[n] + (widths[n] - SpanSum(c.children[n], widths)) / 2 + Offset(c.children[n], widths, i)
  }

  /** All that the drawing rests on. */
  ghost predicate Layout(c: Component, shape: Shape, boxes: map<nat, Box>, widths: map<nat, nat>,
                         lefts: map<nat, int>) {
    c.Tree(shape) && Spanned(c, boxes, widths) && Placed(c, widths, lefts)
  }

  lemma {:induction false} OffsetMonotone(edges: seq<Edge>, widths: map<nat, nat>, i: nat, j: nat)
    requires i < j <= |edges| && Measured(edges, widths)
    ensures Offset(edges, widths, i) + widths[edges[i].child] + SIBLING_GAP <= Offset(edges, widths, j)
  {
    if i < j - 1 {
      OffsetMonotone(edges, widths, i, j - 1);
    }
  }

  lemma {:induction false} OffsetInside(edges: seq<Edge>, widths: map<nat, nat>, i: nat, k: nat)
    requires i < k <= |edges| && Measured(edges, widths)
    ensures Offset(edges, widths, i) + widths[edges[i].child] <= SpanUpTo(edges, widths, k)
    ensures SpanUpTo(edges, widths, k) == Offset(edges, widths, k - 1) + widths[edges[k - 1].child]
  {
    if i < k - 1 {
      OffsetInside(edges, widths, i, k - 1);
    } else if k > 1 {
      OffsetInside(edges, widths, k - 2, k - 1);
    }
  }

  lemma SpanHolds(c: Component, shape: Shape, boxes: map<nat, Box>, widths: map<nat, nat>, n: nat)
    requires c.Tree(shape) && Spanned(c, boxes, widths) && n in c.children
    ensures Measured(c.children[n], widths)
    ensures widths[n] >= boxes[n].width && widths[n] >= SpanSum(c.children[n], widths)
  {
    if n != c.root {
      assert c.Hangs(shape, n);
      var p, i := shape.parent[n], shape.index[n];
    }
  }

  /** A child's span lies inside its parent's. */
  lemma ChildInside(c: Component, shape: Shape, boxes: map<nat, Box>, widths: map<nat, nat>, lefts: map<nat, int>,
                    n: nat, i: nat)
    requires Layout(c, shape, boxes, widths, lefts) && c.HasEdge(n, i)
    ensures c.children[n][i].child in lefts && c.children[n][i].child in widths
    ensures lefts[n] <= lefts[c.children[n][i].child]
    ensures lefts[c.children[n][i].child] + widths[c.children[n][i].child] <= lefts[n] + widths[n]
  {
    SpanHolds(c, shape, boxes, widths, n);
    OffsetInside(c.children[n], widths, i, |c.children[n]|);
  }

  /** `u` ends at least a gap before `v` begins. */
  ghost predicate Before(widths: map<nat, nat>, lefts: map<nat, int>, u: nat, v: nat)
    requires u in widths && u in lefts && v in lefts
  {
    lefts[u] + widths[u] + SIBLING_GAP <= lefts[v]
  }

  lemma SiblingsApart(c: Component, shape: Shape, boxes: map<nat, Box>, widths: map<nat, nat>, lefts: map<nat, int>,
                      n: nat, i: nat, j: nat)
    requires Layout(c, shape, boxes, widths, lefts) && c.HasEdge(n, i) && c.HasEdge(n, j) && i < j
    ensures Before(widths, lefts, c.children[n][i].child, c.children[n][j].child)
  {
    SpanHolds(c, shape, boxes, widths, n);
    OffsetMonotone(c.children[n], widths, i, j);
  }

  /** Spans of distinct nodes at one depth are at least a gap apart, however deep their common ancestor lies. */
  lemma {:induction false} SpansApart(c: Component, shape: Shape, boxes: map<nat, Box>, widths: map<nat, nat>,
                                      lefts: map<nat, int>, u: nat, v: nat)
    requires Layout(c, shape, boxes, widths, lefts)
    requires u in c.children && v in c.children && u != v && shape.depth[u] == shape.depth[v]
    ensures Before(widths, lefts, u, v) || Before(widths, lefts, v, u)
    decreases shape.depth[u]
  {
    if u == c.root || v == c.root {
      OnlyRootAtZero(c, shape, u);
      OnlyRootAtZero(c, shape, v);
    } else {
      assert c.Hangs(shape, u);
      var p, i := shape.parent[u], shape.index[u];
      assert c.Hangs(shape, v);
      var q, j := shape.parent[v], shape.index[v];
      if p == q {
        if i < j { SiblingsApart(c, shape, boxes, widths, lefts, p, i, j); }
        else { SiblingsApart(c, shape, boxes, widths, lefts, p, j, i); }
      } else {
        SpansApart(c, shape, boxes, widths, lefts, p, q);
        ChildInside(c, shape, boxes, widths, lefts, p, i);
        ChildInside(c, shape, boxes, widths, lefts, q, j);
      }
    }
  }

  lemma {:induction false} NeverLeftOfZero(c: Component, shape: Shape, boxes: map<nat, Box>, widths: map<nat, nat>,
                                           lefts: map<nat, int>, n: nat)
    requires Layout(c, shape, boxes, widths, lefts) && n in c.children
    ensures lefts[n] >= 0
    decreases shape.depth[n]
  {
    if n != c.root {
      assert c.Hangs(shape, n);
      var p, i := shape.parent[n], shape.index[n];
      NeverLeftOfZero(c, shape, boxes, widths, lefts, p);
      ChildInside(c, shape, boxes, widths, lefts, p, i);
    }
  }

  lemma NodeInside(c: Component, shape: Shape, boxes: map<nat, Box>, widths: map<nat, nat>, lefts: map<nat, int>,
                   n: nat)
    requires Layout(c, shape, boxes, widths, lefts) && n in c.children
    ensures widths[n] >= boxes[n].width >= 4 && lefts[n] >= 0
  {
    SpanHolds(c, shape, boxes, widths, n);
    NeverLeftOfZero(c, shape, boxes, widths, lefts, n);
  }

  /** A whole drawing: the layout plus one height and one top row a layer. */
  datatype Sheet = Sheet(
    c: Component,
    shape: Shape,
    boxes: map<nat, Box>,
    widths: map<nat, nat>,
    lefts: map<nat, int>,
    heights: seq<nat>,
    tops: seq<nat>)
  {
    /** Layers lie below each other with a gap, each as high as its highest box. */
    ghost predicate Layered() {
      && |tops| == |heights| && shape.depth.Keys == boxes.Keys == c.children.Keys
      && (|tops| > 0 ==> tops[0] == 0)
      && (forall d | 0 < d < |tops| :: tops[d] == tops[d - 1] + heights[d - 1] + LAYER_GAP)
      && (forall n | n in c.children :: shape.depth[n] < |tops| && boxes[n].height <= heights[shape.depth[n]])
    }

    ghost predicate Good() {
      Layout(c, shape, boxes, widths, lefts) && Layered()
    }

    function X(n: nat): (r: int)
      requires n in boxes && n in widths && n in lefts
    {
      lefts[n] + (widths[n] - boxes[n].width) / 2
    }

    function Y(n: nat): (r: nat)
      requires n in shape.depth && shape.depth[n] < |tops|
    {
      tops[shape.depth[n]]
    }

    ghost predicate Drawn(n: nat) {
      n in c.children && n in boxes && n in widths && n in lefts && n in shape.depth && shape.depth[n] < |tops|
    }

    function Middle(n: nat): (r: int)
      requires n in boxes && n in widths && n in lefts
    {
      X(n) + boxes[n].width / 2
    }

    ghost predicate InBox(n: nat, x: int, y: int)
      requires Drawn(n)
    {
      X(n) <= x < X(n) + boxes[n].width && Y(n) <= y < Y(n) + boxes[n].height
    }

    /** The edge exists and both its ends are drawn. */
    ghost predicate DrawnEdge(n: nat, i: nat) {
      c.HasEdge(n, i) && Drawn(n) && Drawn(c.children[n][i].child)
    }

    function Bottom(n: nat): (r: int)
      requires n in boxes && n in shape.depth && shape.depth[n] < |tops|
    {
      Y(n) + boxes[n].height - 1
    }

    ghost function LabelRow(n: nat, i: nat): (r: int)
      requires DrawnEdge(n, i)
    {
      Y(c.children[n][i].child) - 2
    }

    ghost predicate OnLabel(n: nat, i: nat, x: int, y: int)
      requires DrawnEdge(n, i)
    {
      var e := c.children[n][i];
      var start := Middle(e.child) - e.LabelWidth() / 2;
      y == LabelRow(n, i) && start <= x < start + e.LabelWidth()
    }

    /** A cell of the connector: down from the parent, across to the child's column, down to and past the label. */
    ghost predicate OnEdge(n: nat, i: nat, x: int, y: int)
      requires DrawnEdge(n, i)
    {
      var m := c.children[n][i].child;
      var branch, row := Bottom(n) + 2, LabelRow(n, i);
      || (x == Middle(n) && Bottom(n) <= y <= branch)
      || (y == branch && (Middle(n) <= x <= Middle(m) || Middle(m) <= x <= Middle(n)))
      || (x == Middle(m) && branch <= y <= row - 1)
      || (x == Middle(m) && row + 1 <= y <= Y(m))
    }
  }

  lemma {:induction false} LayersApart(s: Sheet, d: nat, e: nat)
    requires s.Layered() && d < e < |s.tops|
    ensures s.tops[d] + s.heights[d] + LAYER_GAP <= s.tops[e]
  {
    if d < e - 1 {
      LayersApart(s, d, e - 1);
    }
  }

  lemma DrawnNode(s: Sheet, n: nat)
    requires s.Good() && n in s.c.children
    ensures s.Drawn(n)
  {
  }

  lemma DrawnWithEnds(s: Sheet, n: nat, i: nat)
    requires s.Good() && s.c.HasEdge(n, i)
    ensures s.DrawnEdge(n, i)
    ensures s.shape.depth[s.c.children[n][i].child] == s.shape.depth[n] + 1
  {
    var m := s.c.children[n][i].child;
    assert m in s.c.children;
    DrawnNode(s, n);
    DrawnNode(s, m);
  }

  /** A box and its middle column lie inside the span, and nothing of a span is left of column zero. */
  lemma BoxInSpan(s: Sheet, n: nat)
    requires s.Good() && n in s.c.children
    ensures s.Drawn(n) && s.boxes[n].height >= 3
    ensures 0 <= s.lefts[n] <= s.X(n) <= s.Middle(n) < s.X(n) + s.boxes[n].width <= s.lefts[n] + s.widths[n]
  {
    NodeInside(s.c, s.shape, s.boxes, s.widths, s.lefts, n);
  }

  /** Different boxes share no cell. */
  lemma BoxesDisjoint(s: Sheet, u: nat, v: nat, x: int, y: int)
    requires s.Good() && u in s.c.children && v in s.c.children && u != v
    ensures s.Drawn(u) && s.Drawn(v) && !(s.InBox(u, x, y) && s.InBox(v, x, y))
  {
    BoxInSpan(s, u);
    BoxInSpan(s, v);
    var d, e := s.shape.depth[u], s.shape.depth[v];
    if d == e {
      SpansApart(s.c, s.shape, s.boxes, s.widths, s.lefts, u, v);
    } else if d < e {
      LayersApart(s, d, e);
    } else {
      LayersApart(s, e, d);
    }
  }

  /** Halving the span and halving the box lose at most one column together. */
  lemma CentredLabel(span: nat, box: nat, text: nat)
    requires box <= span && text <= span
    ensures -1 <= (span - box) / 2 + box / 2 - text / 2
    ensures (span - box) / 2 + box / 2 - text / 2 + text <= span
  {
  }

  /** A label stays inside its child's span but for at most one column on the left, so no text is left of column -1. */
  lemma LabelInSpan(s: Sheet, n: nat, i: nat)
    requires s.Good() && s.c.HasEdge(n, i)
    ensures s.DrawnEdge(n, i)
    ensures var e := s.c.children[n][i];
            var start := s.Middle(e.child) - e.LabelWidth() / 2;
            && -1 <= s.lefts[e.child] - 1 <= start
            && start + e.LabelWidth() <= s.lefts[e.child] + s.widths[e.child]
  {
    DrawnWithEnds(s, n, i);
    var e := s.c.children[n][i];
    BoxInSpan(s, e.child);
    CentredLabel(s.widths[e.child], s.boxes[e.child].width, e.LabelWidth());
  }

  /** Both columns of a connector lie in the parent's span, and there is room above and below the branch row. */
  lemma EdgeFrame(s: Sheet, n: nat, i: nat)
    requires s.Good() && s.c.HasEdge(n, i)
    ensures s.DrawnEdge(n, i)
    ensures var m := s.c.children[n][i].child;
            && s.lefts[n] <= s.Middle(n) < s.lefts[n] + s.widths[n]
            && s.lefts[n] <= s.Middle(m) < s.lefts[n] + s.widths[n]
            && s.Bottom(n) + 4 <= s.LabelRow(n, i) == s.Y(m) - 2
  {
    DrawnWithEnds(s, n, i);
    var m := s.c.children[n][i].child;
    BoxInSpan(s, n);
    BoxInSpan(s, m);
    ChildInside(s.c, s.shape, s.boxes, s.widths, s.lefts, n, i);
    LayersApart(s, s.shape.depth[n], s.shape.depth[m]);
  }

  /** The connector stays between its two boxes and inside the parent's span. */
  lemma EdgeInSpan(s: Sheet, n: nat, i: nat, x: int, y: int)
    requires s.Good() && s.c.HasEdge(n, i)
    ensures s.DrawnEdge(n, i)
    ensures s.OnEdge(n, i, x, y) ==>
              var m := s.c.children[n][i].child;
              && s.lefts[n] <= x < s.lefts[n] + s.widths[n]
              && s.Bottom(n) <= y <= s.Y(m) && y != s.LabelRow(n, i)
              && (y == s.Bottom(n) ==> x == s.Middle(n))
              && (y == s.Y(m) ==> x == s.Middle(m))
  {
    EdgeFrame(s, n, i);
  }

  /** Connectors below different parents share no cell: lines never suggest an edge that is not there. */
  lemma ConnectorsApart(s: Sheet, n: nat, i: nat, m: nat, j: nat, x: int, y: int)
    requires s.Good() && s.c.HasEdge(n, i) && s.c.HasEdge(m, j) && n != m
    ensures s.DrawnEdge(n, i) && s.DrawnEdge(m, j)
    ensures !(s.OnEdge(n, i, x, y) && s.OnEdge(m, j, x, y))
  {
    EdgeInSpan(s, n, i, x, y);
    EdgeInSpan(s, m, j, x, y);
    DrawnWithEnds(s, n, i);
    DrawnWithEnds(s, m, j);
    var d, e := s.shape.depth[n], s.shape.depth[m];
    if d == e {
      SpansApart(s.c, s.shape, s.boxes, s.widths, s.lefts, n, m);
    } else if d < e {
      TopsGrow(s, d + 1, e);
      BoxInSpan(s, m);
    } else {
      TopsGrow(s, e + 1, d);
      BoxInSpan(s, n);
    }
  }

  lemma TopsGrow(s: Sheet, d: nat, e: nat)
    requires s.Layered() && d <= e < |s.tops|
    ensures s.tops[d] <= s.tops[e]
  {
    if d < e { LayersApart(s, d, e); }
  }

  /**
   A connector touches no box except its own two, each in one cell: the middle of the parent's bottom
   border and the middle of the child's top border. The boxes of a layer may have any heights.
   */
  lemma EdgeAvoidsBoxes(s: Sheet, n: nat, i: nat, m: nat, x: int, y: int)
    requires s.Good() && s.c.HasEdge(n, i) && m in s.c.children
    ensures s.DrawnEdge(n, i) && s.Drawn(m)
    ensures s.OnEdge(n, i, x, y) && s.InBox(m, x, y) ==>
              || (m == n && x == s.Middle(n) && y == s.Bottom(n))
              || (m == s.c.children[n][i].child && x == s.Middle(m) && y == s.Y(m))
  {
    EdgeInSpan(s, n, i, x, y);
    BoxInSpan(s, m);
    var child := s.c.children[n][i].child;
    DrawnWithEnds(s, n, i);
    BoxInSpan(s, child);
    var d, e := s.shape.depth[n], s.shape.depth[m];
    if e < d {
      LayersApart(s, e, d);
    } else if e == d {
      if m != n { SpansApart(s.c, s.shape, s.boxes, s.widths, s.lefts, m, n); }
    } else if e == d + 1 {
      if m != child { SpansApart(s.c, s.shape, s.boxes, s.widths, s.lefts, m, child); }
    } else {
      LayersApart(s, d + 1, e);
    }
  }

  /** No connector runs through any label row. */
  lemma EdgeAvoidsLabels(s: Sheet, n: nat, i: nat, m: nat, j: nat, x: int, y: int)
    requires s.Good() && s.c.HasEdge(n, i) && s.c.HasEdge(m, j)
    ensures s.DrawnEdge(n, i) && s.DrawnEdge(m, j)
    ensures s.OnEdge(n, i, x, y) ==> y != s.LabelRow(m, j)
  {
    EdgeInSpan(s, n, i, x, y);
    DrawnWithEnds(s, n, i);
    DrawnWithEnds(s, m, j);
    BoxInSpan(s, n);
    var d, e := s.shape.depth[n], s.shape.depth[m];
    LayersApart(s, d, d + 1);
    LayersApart(s, e, e + 1);
    if d < e {
      LayersApart(s, d, e);
      if d + 1 < e { LayersApart(s, d + 1, e); }
    } else if e < d {
      if e + 1 < d { LayersApart(s, e + 1, d); }
    }
  }

  /** Labels of different edges share no cell, in spite of the one column that each may stick out. */
  lemma LabelsDisjoint(s: Sheet, n: nat, i: nat, m: nat, j: nat, x: int, y: int)
    requires s.Good() && s.c.HasEdge(n, i) && s.c.HasEdge(m, j) && (n != m || i != j)
    ensures s.DrawnEdge(n, i) && s.DrawnEdge(m, j)
    ensures !(s.OnLabel(n, i, x, y) && s.OnLabel(m, j, x, y))
  {
    LabelInSpan(s, n, i);
    LabelInSpan(s, m, j);
    DrawnWithEnds(s, n, i);
    DrawnWithEnds(s, m, j);
    var u, v := s.c.children[n][i].child, s.c.children[m][j].child;
    assert u != v;
    if s.shape.depth[u] == s.shape.depth[v] {
      SpansApart(s.c, s.shape, s.boxes, s.widths, s.lefts, u, v);
    } else if s.shape.depth[u] < s.shape.depth[v] {
      LayersApart(s, s.shape.depth[u], s.shape.depth[v]);
    } else {
      LayersApart(s, s.shape.depth[v], s.shape.depth[u]);
    }
  }

  /** A label shares no cell with any box: its row lies in the gap above its layer. */
  lemma LabelAvoidsBoxes(s: Sheet, n: nat, i: nat, m: nat, x: int, y: int)
    requires s.Good() && s.c.HasEdge(n, i) && m in s.c.children
    ensures s.DrawnEdge(n, i) && s.Drawn(m)
    ensures s.OnLabel(n, i, x, y) ==> !s.InBox(m, x, y)
  {
    DrawnWithEnds(s, n, i);
    BoxInSpan(s, m);
    var d, e := s.shape.depth[n], s.shape.depth[m];
    LayersApart(s, d, d + 1);
    if e <= d {
      if e < d { LayersApart(s, e, d); }
    } else if e > d + 1 {
      LayersApart(s, d + 1, e);
    }
  }
}
