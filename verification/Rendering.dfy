/**
 The drawing of a component, judged by its geometry: what the canvas holds in the end is exactly the connectors
 and borders of the layout, and every label and every line of every box is there to be read.
 */
module Rendering {
  import opened Canvas
  import opened DisplayTree
  import opened Drawing
  import opened Geometry
  import opened Placement
  import opened Printing
  import opened Worklist

  // Cells of strokes.

  ghost predicate OnBorder(s: Sheet, n: nat, x: int, y: int)
    requires s.Drawn(n)
  {
    s.InBox(n, x, y) && (x == s.X(n) || x == s.X(n) + s.boxes[n].width - 1 || y == s.Y(n) || y == s.Bottom(n))
  }

  function Beside(c: Cell, side: Side): (r: Cell) {
    match side
    case Up => Cell(c.x, c.y - 1)
    case Right => Cell(c.x + 1, c.y)
    case Down => Cell(c.x, c.y + 1)
    case Left => Cell(c.x - 1, c.y)
  }

  /** The connector runs from the cell to its neighbour on this side. */
  ghost predicate EdgeRuns(s: Sheet, n: nat, i: nat, c: Cell, side: Side)
    requires s.DrawnEdge(n, i)
  {
    s.OnEdge(n, i, c.x, c.y) && s.OnEdge(n, i, Beside(c, side).x, Beside(c, side).y)
  }

  ghost predicate BorderRuns(s: Sheet, n: nat, c: Cell, side: Side)
    requires s.Drawn(n)
  {
    OnBorder(s, n, c.x, c.y) && OnBorder(s, n, Beside(c, side).x, Beside(c, side).y)
  }

  /** The stubs of a connector point along it: to those neighbours that lie on it too. */
  lemma EdgeStubs(s: Sheet, n: nat, i: nat, c: Cell, side: Side)
    requires s.Good() && s.c.HasEdge(n, i)
    ensures s.DrawnEdge(n, i)
    ensures var m := s.c.children[n][i].child;
            side in Connector(s.Middle(n), s.Bottom(n), s.Middle(m), s.Y(m)).Sides(c) <==> EdgeRuns(s, n, i, c, side)
  {
    EdgeFrame(s, n, i);
    StubsOfEdge(s, n, i, c, side);
  }

  lemma StubsOfEdge(s: Sheet, n: nat, i: nat, c: Cell, side: Side)
    requires s.DrawnEdge(n, i) && s.Bottom(n) + 4 <= s.LabelRow(n, i) == s.Y(s.c.children[n][i].child) - 2
    ensures var m := s.c.children[n][i].child;
            side in Connector(s.Middle(n), s.Bottom(n), s.Middle(m), s.Y(m)).Sides(c) <==> EdgeRuns(s, n, i, c, side)
  {
    var m := s.c.children[n][i].child;
    StubsOf(s.Middle(n), s.Bottom(n), s.Middle(m), s.Y(m), c, side);
  }

  /** The cells of a connector, as `OnEdge` has them. */
  predicate OnConnector(px: int, bottom: int, cx: int, top: int, c: Cell) {
    || (c.x == px && bottom <= c.y <= bottom + 2)
    || (c.y == bottom + 2 && (px <= c.x <= cx || cx <= c.x <= px))
    || (c.x == cx && bottom + 2 <= c.y <= top - 3)
    || (c.x == cx && top - 1 <= c.y <= top)
  }

  lemma StubsOf(px: int, bottom: int, cx: int, top: int, c: Cell, side: Side)
    requires bottom + 4 <= top - 2
    ensures side in Connector(px, bottom, cx, top).Sides(c)
            <==> OnConnector(px, bottom, cx, top, c) && OnConnector(px, bottom, cx, top, Beside(c, side))
  {
    AcrossStubs(bottom + 2, px, cx, c, side);
    DownStubs(px, bottom, bottom + 2, c, side);
    DownStubs(cx, bottom + 2, top - 3, c, side);
    DownStubs(cx, top - 1, top, c, side);
  }

  lemma DownStubs(x: int, start: int, end: int, c: Cell, side: Side)
    requires start <= end
    ensures side in DownSides(x, start, end, c)
            <==> c.x == x == Beside(c, side).x && start <= c.y <= end && start <= Beside(c, side).y <= end
  {
  }

  lemma AcrossStubs(y: int, start: int, end: int, c: Cell, side: Side)
    ensures side in AcrossSides(y, start, end, c)
            <==> && c.y == y == Beside(c, side).y && (start <= c.x <= end || end <= c.x <= start)
                 && (start <= Beside(c, side).x <= end || end <= Beside(c, side).x <= start)
  {
  }

  lemma BorderStubs(s: Sheet, n: nat, c: Cell, side: Side)
    requires s.Good() && n in s.c.children
    ensures s.Drawn(n)
    ensures side in Border(s.X(n), s.Y(n), s.boxes[n].width, s.boxes[n].height).Sides(c)
            <==> BorderRuns(s, n, c, side)
  {
    BoxInSpan(s, n);
    NodeInside(s.c, s.shape, s.boxes, s.widths, s.lefts, n);
    StubsOfBox(s, n, c, side);
  }

  lemma StubsOfBox(s: Sheet, n: nat, c: Cell, side: Side)
    requires s.Drawn(n) && s.boxes[n].width >= 3 && s.boxes[n].height >= 3
    ensures side in Border(s.X(n), s.Y(n), s.boxes[n].width, s.boxes[n].height).Sides(c)
            <==> BorderRuns(s, n, c, side)
  {
    FrameStubs(s.X(n), s.Y(n), s.X(n) + s.boxes[n].width - 1, s.Bottom(n), c, side);
  }

  predicate OnFrame(left: int, top: int, right: int, bottom: int, c: Cell) {
    left <= c.x <= right && top <= c.y <= bottom && (c.x == left || c.x == right || c.y == top || c.y == bottom)
  }

  lemma FrameStubs(left: int, top: int, right: int, bottom: int, c: Cell, side: Side)
    requires left + 1 < right && top + 1 < bottom
    ensures side in BorderSides(left, top, right, bottom, c)
            <==> OnFrame(left, top, right, bottom, c) && OnFrame(left, top, right, bottom, Beside(c, side))
  {
    AcrossStubs(top, left, right, c, side);
    AcrossStubs(bottom, left, right, c, side);
    DownStubs(left, top, bottom, c, side);
    DownStubs(right, top, bottom, c, side);
  }

  /** The label of an edge, centred on the child's column. */
  ghost function LabelOf(s: Sheet, e: EdgeId): (r: Writing)
    requires s.DrawnEdge(e.node, e.index)
  {
    var edge := s.c.children[e.node][e.index];
    Writing(s.Middle(edge.child) - |edge.text| / 2, s.LabelRow(e.node, e.index), edge.text)
  }

  ghost function LineOf(s: Sheet, n: nat, j: nat): (r: Writing)
    requires s.Drawn(n) && j < |s.boxes[n].lines|
  {
    Writing(s.X(n) + 2, s.Y(n) + 1 + j, s.boxes[n].lines[j])
  }

  // No writing covers another, and none covers a line.

  /** If writings overlap, they share the cell where the later of the two begins. */
  lemma SharedCell(v: Writing, w: Writing, c: Cell)
    requires c == Cell(Larger(v.x, w.x), v.y)
    ensures v.Clear(w) || (v.On(c) && w.On(c))
  {
  }

  lemma OnLabelOf(s: Sheet, e: EdgeId, c: Cell)
    requires s.DrawnEdge(e.node, e.index)
    ensures LabelOf(s, e).On(c) <==> s.OnLabel(e.node, e.index, c.x, c.y)
  {
  }

  lemma LabelsClear(s: Sheet, e: EdgeId, f: EdgeId)
    requires s.Good() && s.c.HasEdge(e.node, e.index) && s.c.HasEdge(f.node, f.index) && e != f
    ensures s.DrawnEdge(e.node, e.index) && s.DrawnEdge(f.node, f.index) && LabelOf(s, e).Clear(LabelOf(s, f))
  {
    DrawnWithEnds(s, e.node, e.index);
    DrawnWithEnds(s, f.node, f.index);
    var v, w := LabelOf(s, e), LabelOf(s, f);
    var c := Cell(Larger(v.x, w.x), v.y);
    SharedCell(v, w, c);
    OnLabelOf(s, e, c);
    OnLabelOf(s, f, c);
    LabelsDisjoint(s, e.node, e.index, f.node, f.index, c.x, c.y);
  }

  /** The text of a box lies strictly inside it. */
  lemma LineInside(s: Sheet, n: nat, j: nat, c: Cell)
    requires s.Good() && n in s.c.children && j < |s.boxes[n].lines|
    ensures s.Drawn(n)
    ensures LineOf(s, n, j).On(c) ==> s.InBox(n, c.x, c.y) && !OnBorder(s, n, c.x, c.y)
  {
    BoxInSpan(s, n);
  }

  lemma LabelClearOfLine(s: Sheet, e: EdgeId, n: nat, j: nat)
    requires s.Good() && s.c.HasEdge(e.node, e.index) && n in s.c.children && j < |s.boxes[n].lines|
    ensures s.DrawnEdge(e.node, e.index) && s.Drawn(n) && LabelOf(s, e).Clear(LineOf(s, n, j))
  {
    DrawnWithEnds(s, e.node, e.index);
    DrawnNode(s, n);
    var v, w := LabelOf(s, e), LineOf(s, n, j);
    var c := Cell(Larger(v.x, w.x), v.y);
    SharedCell(v, w, c);
    LineInside(s, n, j, c);
    LabelAvoidsBoxes(s, e.node, e.index, n, c.x, c.y);
  }

  lemma LinesClear(s: Sheet, n: nat, i: nat, m: nat, j: nat)
    requires s.Good() && n in s.c.children && m in s.c.children && i < |s.boxes[n].lines| && j < |s.boxes[m].lines|
             && n != m
    ensures s.Drawn(n) && s.Drawn(m) && LineOf(s, n, i).Clear(LineOf(s, m, j))
  {
    DrawnNode(s, n);
    DrawnNode(s, m);
    var v, w := LineOf(s, n, i), LineOf(s, m, j);
    var c := Cell(Larger(v.x, w.x), v.y);
    SharedCell(v, w, c);
    LineInside(s, n, i, c);
    LineInside(s, m, j, c);
    BoxesDisjoint(s, n, m, c.x, c.y);
  }

  lemma LabelHidesNothing(s: Sheet, e: EdgeId, c: Cell, f: EdgeId, n: nat)
    requires s.Good() && s.c.HasEdge(e.node, e.index) && s.c.HasEdge(f.node, f.index) && n in s.c.children
    ensures s.DrawnEdge(e.node, e.index) && s.DrawnEdge(f.node, f.index) && s.Drawn(n)
    ensures LabelOf(s, e).On(c) ==> !s.OnEdge(f.node, f.index, c.x, c.y) && !s.InBox(n, c.x, c.y)
  {
    EdgeAvoidsLabels(s, f.node, f.index, e.node, e.index, c.x, c.y);
    LabelAvoidsBoxes(s, e.node, e.index, n, c.x, c.y);
  }

  lemma LineHidesNothing(s: Sheet, n: nat, j: nat, c: Cell, f: EdgeId, m: nat)
    requires s.Good() && n in s.c.children && m in s.c.children && j < |s.boxes[n].lines|
             && s.c.HasEdge(f.node, f.index)
    ensures s.Drawn(n) && s.Drawn(m) && s.DrawnEdge(f.node, f.index)
    ensures LineOf(s, n, j).On(c) ==> !s.OnEdge(f.node, f.index, c.x, c.y) && !OnBorder(s, m, c.x, c.y)
  {
    DrawnNode(s, n);
    DrawnNode(s, m);
    LineInside(s, n, j, c);
    EdgeAvoidsBoxes(s, f.node, f.index, n, c.x, c.y);
    BoxInSpan(s, n);
    if m != n { BoxesDisjoint(s, m, n, c.x, c.y); }
  }

  // The drawing follows the sheet.

  /** The chart has the sheet's tree and boxes, and each node where the sheet has it. */
  ghost predicate Follows(chart: Chart, s: Sheet) {
    && chart.c == s.c && chart.boxes == s.boxes && chart.places.Keys == s.c.children.Keys
    && forall n {:trigger PlacedOn(chart, s, n)} | n in s.c.children :: PlacedOn(chart, s, n)
  }

  ghost predicate PlacedOn(chart: Chart, s: Sheet, n: nat) {
    n in chart.places && s.Drawn(n) && chart.places[n].x == s.X(n) && chart.places[n].y == s.Y(n)
  }

  lemma WholeChart(chart: Chart, s: Sheet)
    requires s.Good() && Follows(chart, s)
    ensures chart.Whole()
  {
    forall n, i | s.c.HasEdge(n, i)
      ensures s.c.children[n][i].child in s.c.children
    {
      DrawnWithEnds(s, n, i);
    }
  }

  lemma EdgeOnSheet(chart: Chart, s: Sheet, e: EdgeId)
    requires Follows(chart, s) && chart.Whole() && s.c.HasEdge(e.node, e.index)
    ensures s.DrawnEdge(e.node, e.index) && chart.LabelOf(e) == LabelOf(s, e)
    ensures var m := s.c.children[e.node][e.index].child;
            chart.ConnectorOf(e) == Connector(s.Middle(e.node), s.Bottom(e.node), s.Middle(m), s.Y(m))
  {
    assert PlacedOn(chart, s, e.node) && PlacedOn(chart, s, s.c.children[e.node][e.index].child);
  }

  lemma BoxOnSheet(chart: Chart, s: Sheet, n: nat)
    requires Follows(chart, s) && chart.Whole() && n in s.c.children
    ensures s.Drawn(n) && chart.BorderOf(n) == Border(s.X(n), s.Y(n), s.boxes[n].width, s.boxes[n].height)
    ensures chart.TextOf(n) == Column(s.X(n) + 2, s.Y(n) + 1, s.boxes[n].lines)
  {
    assert PlacedOn(chart, s, n);
  }

  // Every writing is the label of an edge or a line of a box.

  ghost predicate IsLabel(s: Sheet, e: EdgeId, w: Writing) {
    s.DrawnEdge(e.node, e.index) && w == LabelOf(s, e)
  }

  ghost predicate IsLine(s: Sheet, n: nat, j: nat, w: Writing) {
    n in s.c.children && s.Drawn(n) && j < |s.boxes[n].lines| && w == LineOf(s, n, j)
  }

  ghost predicate Inscribed(s: Sheet, w: Writing) {
    || (exists e {:trigger IsLabel(s, e, w)} :: IsLabel(s, e, w))
    || (exists n, j {:trigger IsLine(s, n, j, w)} :: IsLine(s, n, j, w))
  }

  ghost function AllWritings(chart: Chart): (r: set<Writing>)
    requires chart.Whole()
  {
    chart.Writings(chart.Edges(), chart.c.children.Keys)
  }

  ghost function AllStrokes(chart: Chart): (r: set<Stroke>)
    requires chart.Whole()
  {
    chart.Strokes(chart.Edges(), chart.c.children.Keys)
  }

  lemma WritingInscribed(chart: Chart, s: Sheet, w: Writing)
    requires Follows(chart, s) && chart.Whole() && w in AllWritings(chart)
    ensures Inscribed(s, w)
  {
    if e :| e in chart.Edges() && w == chart.LabelOf(e) {
      EdgeOnSheet(chart, s, e);
      assert IsLabel(s, e, w);
    } else {
      var n :| n in chart.c.children && w in chart.TextOf(n);
      BoxOnSheet(chart, s, n);
      TextInscribed(s, n, w);
    }
  }

  lemma TextInscribed(s: Sheet, n: nat, w: Writing)
    requires n in s.c.children && s.Drawn(n)
    ensures w in Column(s.X(n) + 2, s.Y(n) + 1, s.boxes[n].lines) <==> exists j :: IsLine(s, n, j, w)
  {
    if w in Column(s.X(n) + 2, s.Y(n) + 1, s.boxes[n].lines) {
      var j: nat :| j < |s.boxes[n].lines| && w == Writing(s.X(n) + 2, s.Y(n) + 1 + j, s.boxes[n].lines[j]);
      assert IsLine(s, n, j, w);
    }
  }

  lemma LabelLineClear(s: Sheet, e: EdgeId, v: Writing, n: nat, j: nat, w: Writing)
    requires s.Good() && IsLabel(s, e, v) && IsLine(s, n, j, w)
    ensures v.Clear(w) && w.Clear(v)
  {
    LabelClearOfLine(s, e, n, j);
  }

  lemma SameBoxClear(s: Sheet, n: nat, i: nat, v: Writing, j: nat, w: Writing)
    requires IsLine(s, n, i, v) && IsLine(s, n, j, w) && v != w
    ensures v.Clear(w)
  {
  }

  lemma OtherBoxClear(s: Sheet, n: nat, i: nat, v: Writing, m: nat, j: nat, w: Writing)
    requires s.Good() && IsLine(s, n, i, v) && IsLine(s, m, j, w) && n != m
    ensures v.Clear(w)
  {
    LinesClear(s, n, i, m, j);
  }

  lemma LabelClear(s: Sheet, e: EdgeId, v: Writing, w: Writing)
    requires s.Good() && IsLabel(s, e, v) && Inscribed(s, w) && v != w
    ensures v.Clear(w)
  {
    if f :| IsLabel(s, f, w) {
      LabelsClear(s, e, f);
    } else {
      var n, j :| IsLine(s, n, j, w);
      LabelLineClear(s, e, v, n, j, w);
    }
  }

  lemma LineClear(s: Sheet, n: nat, i: nat, v: Writing, w: Writing)
    requires s.Good() && IsLine(s, n, i, v) && Inscribed(s, w) && v != w
    ensures v.Clear(w)
  {
    if e :| IsLabel(s, e, w) {
      LabelLineClear(s, e, w, n, i, v);
    } else {
      var m, j :| IsLine(s, m, j, w);
      if m == n {
        SameBoxClear(s, n, i, v, j, w);
      } else {
        OtherBoxClear(s, n, i, v, m, j, w);
      }
    }
  }

  lemma WritingsClear(s: Sheet, v: Writing, w: Writing)
    requires s.Good() && Inscribed(s, v) && Inscribed(s, w) && v != w
    ensures v.Clear(w)
  {
    if e :| IsLabel(s, e, v) {
      LabelClear(s, e, v, w);
    } else {
      var n, i :| IsLine(s, n, i, v);
      LineClear(s, n, i, v, w);
    }
  }

  lemma LegibleChart(chart: Chart, s: Sheet)
    requires s.Good() && Follows(chart, s)
    ensures chart.Legible()
  {
    WholeChart(chart, s);
    forall v, w | v in AllWritings(chart) && w in AllWritings(chart)
      ensures v == w || v.Clear(w)
    {
      WritingInscribed(chart, s, v);
      WritingInscribed(chart, s, w);
      if v != w { WritingsClear(s, v, w); }
    }
  }

  // The finished drawing.

  /** A tree edge runs from the cell to this side. */
  ghost predicate EdgeArm(s: Sheet, c: Cell, side: Side) {
    exists n, i: nat {:trigger s.DrawnEdge(n, i)} :: s.DrawnEdge(n, i) && EdgeRuns(s, n, i, c, side)
  }

  ghost predicate BorderArm(s: Sheet, c: Cell, side: Side) {
    exists n {:trigger s.Drawn(n)} :: s.Drawn(n) && BorderRuns(s, n, c, side)
  }

  /** A connector or a border runs from the cell to this side. */
  ghost predicate Arm(s: Sheet, c: Cell, side: Side) {
    EdgeArm(s, c, side) || BorderArm(s, c, side)
  }

  /** The stubs in each cell are those of the connectors and borders through it. */
  ghost predicate Armed(s: Sheet, lines: Lines) {
    forall c, side {:trigger Arm(s, c, side)} :: side in SidesAt(lines, c) <==> Arm(s, c, side)
  }

  /**
   Lines are the connectors and borders, every label and every line of text is legible, there is no other
   character, and no character hides a line.
   */
  ghost predicate Finished(s: Sheet, lines: Lines, text: map<Cell, char>) {
    && Armed(s, lines)
    && (forall n, i: nat {:trigger s.DrawnEdge(n, i)} | s.DrawnEdge(n, i) :: LabelOf(s, EdgeId(n, i)).Shown(text))
    && (forall n, j: nat {:trigger LineOf(s, n, j)} | s.Drawn(n) && j < |s.boxes[n].lines| ::
         LineOf(s, n, j).Shown(text))
    && (forall c | c in text :: SidesAt(lines, c) == {})
    && (forall c {:trigger Explained(s, c)} | c in text :: Explained(s, c))
  }

  /** The connectors and the borders as strokes of the sheet. */
  ghost predicate EdgeStroke(s: Sheet, n: nat, i: nat, t: Stroke) {
    s.DrawnEdge(n, i)
      && t == Connector(s.Middle(n), s.Bottom(n), s.Middle(s.c.children[n][i].child), s.Y(s.c.children[n][i].child))
  }

  ghost predicate BoxStroke(s: Sheet, n: nat, t: Stroke) {
    s.Drawn(n) && t == Border(s.X(n), s.Y(n), s.boxes[n].width, s.boxes[n].height)
  }

  lemma StrokeOfSheet(chart: Chart, s: Sheet, t: Stroke)
    requires Follows(chart, s) && chart.Whole() && t in AllStrokes(chart)
    ensures (exists n, i :: EdgeStroke(s, n, i, t)) || exists n :: BoxStroke(s, n, t)
  {
    if e :| e in chart.Edges() && t == chart.ConnectorOf(e) {
      EdgeOnSheet(chart, s, e);
      assert EdgeStroke(s, e.node, e.index, t);
    } else {
      var n :| n in chart.c.children && t == chart.BorderOf(n);
      BoxOnSheet(chart, s, n);
      assert BoxStroke(s, n, t);
    }
  }

  lemma EdgeIsStroke(chart: Chart, s: Sheet, n: nat, i: nat)
    requires Follows(chart, s) && chart.Whole() && s.DrawnEdge(n, i)
    ensures exists t :: t in AllStrokes(chart) && EdgeStroke(s, n, i, t)
  {
    var e := EdgeId(n, i);
    EdgeOnSheet(chart, s, e);
    assert e in chart.Edges() && chart.ConnectorOf(e) in AllStrokes(chart);
  }

  lemma BoxIsStroke(chart: Chart, s: Sheet, n: nat)
    requires Follows(chart, s) && chart.Whole() && s.Drawn(n)
    ensures exists t :: t in AllStrokes(chart) && BoxStroke(s, n, t)
  {
    BoxOnSheet(chart, s, n);
    assert chart.BorderOf(n) in AllStrokes(chart);
  }

  lemma StrokeStubs(s: Sheet, t: Stroke, c: Cell, side: Side)
    requires s.Good() && side in t.Sides(c)
    requires (exists n, i :: EdgeStroke(s, n, i, t)) || exists n :: BoxStroke(s, n, t)
    ensures Arm(s, c, side)
  {
    if n, i :| EdgeStroke(s, n, i, t) {
      EdgeStubs(s, n, i, c, side);
    } else {
      var n :| BoxStroke(s, n, t);
      BorderStubs(s, n, c, side);
    }
  }

  /** A label or a line of text runs over the cell. */
  ghost predicate Explained(s: Sheet, c: Cell) {
    exists w {:trigger w.On(c)} :: Inscribed(s, w) && w.On(c)
  }

  lemma LabelShown(s: Sheet, lines: Lines, text: map<Cell, char>, n: nat, i: nat)
    requires Finished(s, lines, text) && s.DrawnEdge(n, i)
    ensures LabelOf(s, EdgeId(n, i)).Shown(text)
  {
  }

  lemma LineShown(s: Sheet, lines: Lines, text: map<Cell, char>, n: nat, j: nat)
    requires Finished(s, lines, text) && s.Drawn(n) && j < |s.boxes[n].lines|
    ensures LineOf(s, n, j).Shown(text)
  {
  }

  lemma StrokesCross(chart: Chart, s: Sheet, c: Cell, side: Side)
    requires s.Good() && Follows(chart, s) && chart.Whole() && Crossed(AllStrokes(chart), c, side)
    ensures Arm(s, c, side)
  {
    var t :| t in AllStrokes(chart) && side in t.Sides(c);
    StrokeOfSheet(chart, s, t);
    StrokeStubs(s, t, c, side);
  }

  lemma EdgeCrosses(chart: Chart, s: Sheet, c: Cell, side: Side)
    requires s.Good() && Follows(chart, s) && chart.Whole() && EdgeArm(s, c, side)
    ensures Crossed(AllStrokes(chart), c, side)
  {
    var n, i: nat :| s.DrawnEdge(n, i) && EdgeRuns(s, n, i, c, side);
    EdgeIsStroke(chart, s, n, i);
    EdgeStubs(s, n, i, c, side);
  }

  lemma BorderCrosses(chart: Chart, s: Sheet, c: Cell, side: Side)
    requires s.Good() && Follows(chart, s) && chart.Whole() && BorderArm(s, c, side)
    ensures Crossed(AllStrokes(chart), c, side)
  {
    var n :| s.Drawn(n) && BorderRuns(s, n, c, side);
    BoxIsStroke(chart, s, n);
    BorderStubs(s, n, c, side);
  }

  /** The strokes leave in each cell the stubs that the layout has there. */
  lemma CrossedCells(chart: Chart, s: Sheet, c: Cell, side: Side)
    requires s.Good() && Follows(chart, s) && chart.Whole()
    ensures Crossed(AllStrokes(chart), c, side) <==> Arm(s, c, side)
  {
    if Crossed(AllStrokes(chart), c, side) {
      StrokesCross(chart, s, c, side);
    } else if EdgeArm(s, c, side) {
      EdgeCrosses(chart, s, c, side);
    } else if BorderArm(s, c, side) {
      BorderCrosses(chart, s, c, side);
    }
  }

  /** No connector and no border runs through the cell. */
  ghost predicate Free(s: Sheet, c: Cell) {
    && (forall n, i: nat {:trigger s.DrawnEdge(n, i)} | s.DrawnEdge(n, i) :: !s.OnEdge(n, i, c.x, c.y))
    && (forall n {:trigger s.Drawn(n)} | s.Drawn(n) :: !OnBorder(s, n, c.x, c.y))
  }

  lemma FreeHasNoArm(s: Sheet, c: Cell, side: Side)
    requires Free(s, c)
    ensures !Arm(s, c, side)
  {
  }

  lemma LabelFree(s: Sheet, e: EdgeId, w: Writing, c: Cell)
    requires s.Good() && IsLabel(s, e, w) && w.On(c)
    ensures Free(s, c)
  {
    forall n, i: nat | s.DrawnEdge(n, i)
      ensures !s.OnEdge(n, i, c.x, c.y)
    {
      LabelHidesNothing(s, e, c, EdgeId(n, i), n);
    }
    forall n | s.Drawn(n)
      ensures !OnBorder(s, n, c.x, c.y)
    {
      LabelHidesNothing(s, e, c, e, n);
    }
  }

  lemma LineFree(s: Sheet, m: nat, j: nat, w: Writing, c: Cell)
    requires s.Good() && IsLine(s, m, j, w) && w.On(c)
    ensures Free(s, c)
  {
    forall n, i: nat | s.DrawnEdge(n, i)
      ensures !s.OnEdge(n, i, c.x, c.y)
    {
      LineHidesNothing(s, m, j, c, EdgeId(n, i), m);
    }
    forall n | s.Drawn(n)
      ensures !OnBorder(s, n, c.x, c.y)
    {
      LineHidesBorder(s, m, j, c, n);
    }
  }

  /** Behind a character there is no line. */
  lemma NothingBehind(s: Sheet, w: Writing, c: Cell)
    requires s.Good() && Inscribed(s, w) && w.On(c)
    ensures Free(s, c)
  {
    if e :| IsLabel(s, e, w) {
      LabelFree(s, e, w, c);
    } else {
      var m, j :| IsLine(s, m, j, w);
      LineFree(s, m, j, w, c);
    }
  }

  lemma LineHidesBorder(s: Sheet, n: nat, j: nat, c: Cell, m: nat)
    requires s.Good() && n in s.c.children && m in s.c.children && s.Drawn(n) && j < |s.boxes[n].lines|
             && LineOf(s, n, j).On(c)
    ensures s.Drawn(m) && !OnBorder(s, m, c.x, c.y)
  {
    LineInside(s, n, j, c);
    DrawnNode(s, m);
    if m != n { BoxesDisjoint(s, m, n, c.x, c.y); }
  }

  lemma LabelWritten(chart: Chart, s: Sheet, e: EdgeId)
    requires Follows(chart, s) && chart.Whole() && s.DrawnEdge(e.node, e.index)
    ensures LabelOf(s, e) in AllWritings(chart)
  {
    EdgeOnSheet(chart, s, e);
    assert e in chart.Edges() && chart.LabelOf(e) in AllWritings(chart);
  }

  lemma LineWritten(chart: Chart, s: Sheet, n: nat, j: nat)
    requires Follows(chart, s) && chart.Whole() && s.Drawn(n) && j < |s.boxes[n].lines|
    ensures LineOf(s, n, j) in AllWritings(chart)
  {
    BoxOnSheet(chart, s, n);
    assert IsLine(s, n, j, LineOf(s, n, j));
    TextInscribed(s, n, LineOf(s, n, j));
    assert LineOf(s, n, j) in chart.TextOf(n);
  }

  lemma FinishedDrawing(chart: Chart, s: Sheet, lines: Lines, text: map<Cell, char>)
    requires s.Good() && Follows(chart, s) && chart.Whole() && Inked(AllStrokes(chart), lines)
             && Lettered(AllWritings(chart), text)
    ensures Finished(s, lines, text)
  {
    forall c: Cell, side: Side
      ensures side in SidesAt(lines, c) <==> Arm(s, c, side)
    {
      CrossedCells(chart, s, c, side);
    }
    forall n, i: nat | s.DrawnEdge(n, i)
      ensures LabelOf(s, EdgeId(n, i)).Shown(text)
    {
      LabelWritten(chart, s, EdgeId(n, i));
    }
    forall n, j: nat | s.Drawn(n) && j < |s.boxes[n].lines|
      ensures LineOf(s, n, j).Shown(text)
    {
      LineWritten(chart, s, n, j);
    }
    forall c | c in text
      ensures SidesAt(lines, c) == {} && Explained(s, c)
    {
      assert Lettering(AllWritings(chart), c);
      var w :| w in AllWritings(chart) && w.On(c);
      WritingInscribed(chart, s, w);
      NothingBehind(s, w, c);
      forall side: Side
        ensures side !in SidesAt(lines, c)
      {
        FreeHasNoArm(s, c, side);
      }
    }
  }

  // Nothing is drawn above row zero.

  lemma LinesBelowTop(s: Sheet, c: Cell, side: Side)
    requires s.Good() && Arm(s, c, side)
    ensures c.y >= 0
  {
    if EdgeArm(s, c, side) {
      var n, i: nat :| s.DrawnEdge(n, i) && EdgeRuns(s, n, i, c, side);
      EdgeInSpan(s, n, i, c.x, c.y);
      BoxInSpan(s, n);
    }
  }

  lemma LabelBelowTop(s: Sheet, e: EdgeId, w: Writing)
    requires s.Good() && IsLabel(s, e, w)
    ensures w.y >= 0
  {
    EdgeFrame(s, e.node, e.index);
    BoxInSpan(s, e.node);
  }

  lemma LineBelowTop(s: Sheet, n: nat, j: nat, w: Writing)
    requires IsLine(s, n, j, w)
    ensures w.y >= 0
  {
  }

  lemma TextBelowTop(s: Sheet, c: Cell)
    requires s.Good() && Explained(s, c)
    ensures c.y >= 0
  {
    var w :| Inscribed(s, w) && w.On(c);
    WritingBelowTop(s, w);
  }

  lemma WritingBelowTop(s: Sheet, w: Writing)
    requires s.Good() && Inscribed(s, w)
    ensures w.y >= 0
  {
    if e :| IsLabel(s, e, w) {
      LabelBelowTop(s, e, w);
    } else {
      var n, j :| IsLine(s, n, j, w);
      LineBelowTop(s, n, j, w);
    }
  }

  lemma BelowTop(s: Sheet, lines: Lines, text: map<Cell, char>)
    requires s.Good() && Finished(s, lines, text) && forall c | c in lines :: lines[c] != {}
    ensures forall c | Occupied(lines, text, c) :: c.y >= 0
  {
    forall c | Occupied(lines, text, c)
      ensures c.y >= 0
    {
      if c in text {
        TextBelowTop(s, c);
      } else {
        var side :| side in SidesAt(lines, c);
        assert Arm(s, c, side);
        LinesBelowTop(s, c, side);
      }
    }
  }

  /** Places and draws a component. */
  method RenderComponent(c: Component, boxes: map<nat, Box>, ghost shape: Shape)
    returns (canvas: Canvas, ghost sheet: Sheet)
    requires c.Tree(shape) && Sized(c, boxes)
    ensures fresh(canvas) && canvas.Valid() && sheet.Good() && sheet.c == c && sheet.boxes == boxes
    ensures Finished(sheet, canvas.lines, canvas.text)
    ensures forall c | Occupied(canvas.lines, canvas.text, c) :: c.y >= 0
  {
    var places;
    places, sheet := PlaceComponent(c, boxes, shape);
    var byName := PlacesByNode(places);
    var chart := Chart(c, boxes, byName);
    ChartFollows(chart, sheet, places);
    LegibleChart(chart, sheet);
    canvas := new Canvas();
    DrawEdges(canvas, chart);
    DrawBoxes(canvas, chart, places);
    FinishedDrawing(chart, sheet, canvas.lines, canvas.text);
    BelowTop(sheet, canvas.lines, canvas.text);
  }

  lemma ChartFollows(chart: Chart, s: Sheet, places: seq<Place>)
    requires (forall n | n in s.c.children :: s.Drawn(n)) && chart.c == s.c && chart.boxes == s.boxes
             && chart.places.Keys == s.c.children.Keys
    requires AllAt(s.shape, s.boxes, s.widths, s.lefts, s.tops, places)
             && Elements(PlaceNodes(places)) == s.c.children.Keys
    requires forall i | 0 <= i < |places| :: places[i].node in chart.places && chart.places[places[i].node] == places[i]
    ensures Follows(chart, s)
  {
    forall n | n in s.c.children
      ensures PlacedOn(chart, s, n)
    {
      assert n in Elements(PlaceNodes(places));
      var i :| 0 <= i < |places| && PlaceNodes(places)[i] == n;
      assert At(s.shape, s.boxes, s.widths, s.lefts, s.tops, places[i]);
    }
  }
}
