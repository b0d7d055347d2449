/** Drawing a placed component on a canvas, stroke by stroke and text by text. */
module Drawing {
  import opened Canvas
  import opened DisplayTree
  import opened Geometry
  import opened Placement
  import opened Worklist

  /** A connector from (px, bottom) down to (cx, top) that leaves the label row out, or the border of a box. */
  datatype Stroke = Connector(px: int, bottom: int, cx: int, top: int)
    | Border(left: int, top: int, width: nat, height: nat) {
    function Sides(c: Cell): (r: set<Side>) {
      match this
      case Connector(_, _, _, _) => BranchSides(px, bottom, cx, c) + DropSides(cx, bottom + 2, top, c)
      case Border(_, _, _, _) => BorderSides(left, top, left + width - 1, top + height - 1, c)
    }
  }

  function BorderSides(left: int, top: int, right: int, bottom: int, c: Cell): (r: set<Side>) {
    (AcrossSides(top, left, right, c) + AcrossSides(bottom, left, right, c))
      + (DownSides(left, top, bottom, c) + DownSides(right, top, bottom, c))
  }

  /** Down from the parent and across to the child's column. */
  function BranchSides(px: int, bottom: int, cx: int, c: Cell): (r: set<Side>) {
    DownSides(px, bottom, bottom + 2, c) + AcrossSides(bottom + 2, px, cx, c)
  }

  /** Down to the child, past its label. */
  function DropSides(cx: int, branch: int, top: int, c: Cell): (r: set<Side>) {
    DownSides(cx, branch, top - 3, c) + DownSides(cx, top - 1, top, c)
  }

  /** One stroke more, and nothing else. */
  ghost predicate Added(before: Lines, after: Lines, t: Stroke) {
    forall c {:trigger SidesAt(after, c)} :: SidesAt(after, c) == SidesAt(before, c) + t.Sides(c)
  }

  ghost predicate Crossed(strokes: set<Stroke>, c: Cell, side: Side) {
    exists t {:trigger t in strokes} :: t in strokes && side in t.Sides(c)
  }

  /** A cell has exactly the stubs of the strokes that run through it. */
  ghost predicate Inked(strokes: set<Stroke>, lines: Lines) {
    forall c, side {:trigger Crossed(strokes, c, side)} :: side in SidesAt(lines, c) <==> Crossed(strokes, c, side)
  }

  lemma OneMoreStroke(strokes: set<Stroke>, before: Lines, after: Lines, t: Stroke)
    requires Inked(strokes, before) && Added(before, after, t)
    ensures Inked(strokes + {t}, after)
  {
    forall c: Cell, side: Side
      ensures side in SidesAt(after, c) <==> Crossed(strokes + {t}, c, side)
    {
      assert side in SidesAt(before, c) <==> Crossed(strokes, c, side);
      CrossedMore(strokes, t, c, side);
    }
  }

  lemma CrossedMore(strokes: set<Stroke>, t: Stroke, c: Cell, side: Side)
    ensures Crossed(strokes + {t}, c, side) <==> Crossed(strokes, c, side) || side in t.Sides(c)
  {
    assert t in strokes + {t};
    if Crossed(strokes, c, side) {
      var u :| u in strokes && side in u.Sides(c);
      assert u in strokes + {t};
    }
  }

  method DrawRows(canvas: Canvas, left: int, right: int, top: int, bottom: int)
    requires canvas.Valid()
    modifies canvas`lines
    ensures canvas.Valid()
    ensures forall c ::
              SidesAt(canvas.lines, c) == SidesAt(old(canvas.lines), c)
              + (AcrossSides(top, left, right, c) + AcrossSides(bottom, left, right, c))
  {
    canvas.AddHorizontal(top, left, right);
    canvas.AddHorizontal(bottom, left, right);
  }

  method DrawColumns(canvas: Canvas, left: int, right: int, top: int, bottom: int)
    requires canvas.Valid()
    modifies canvas`lines
    ensures canvas.Valid()
    ensures forall c ::
              SidesAt(canvas.lines, c) == SidesAt(old(canvas.lines), c)
              + (DownSides(left, top, bottom, c) + DownSides(right, top, bottom, c))
  {
    canvas.AddVertical(left, top, bottom);
    canvas.AddVertical(right, top, bottom);
  }

  method DrawBorder(canvas: Canvas, left: int, top: int, width: nat, height: nat)
    requires canvas.Valid()
    modifies canvas`lines
    ensures canvas.Valid() && Added(old(canvas.lines), canvas.lines, Border(left, top, width, height))
  {
    var right, bottom := left + width - 1, top + height - 1;
    DrawRows(canvas, left, right, top, bottom);
    DrawColumns(canvas, left, right, top, bottom);
  }

  method DrawBranch(canvas: Canvas, px: int, bottom: int, cx: int)
    requires canvas.Valid()
    modifies canvas`lines
    ensures canvas.Valid()
    ensures forall c :: SidesAt(canvas.lines, c) == SidesAt(old(canvas.lines), c) + BranchSides(px, bottom, cx, c)
  {
    canvas.AddVertical(px, bottom, bottom + 2);
    canvas.AddHorizontal(bottom + 2, px, cx);
  }

  method DrawDrop(canvas: Canvas, cx: int, branch: int, top: int)
    requires canvas.Valid()
    modifies canvas`lines
    ensures canvas.Valid()
    ensures forall c :: SidesAt(canvas.lines, c) == SidesAt(old(canvas.lines), c) + DropSides(cx, branch, top, c)
  {
    canvas.AddVertical(cx, branch, top - 3);
    canvas.AddVertical(cx, top - 1, top);
  }

  method DrawConnector(canvas: Canvas, px: int, bottom: int, cx: int, top: int)
    requires canvas.Valid()
    modifies canvas`lines
    ensures canvas.Valid() && Added(old(canvas.lines), canvas.lines, Connector(px, bottom, cx, top))
  {
    DrawBranch(canvas, px, bottom, cx);
    DrawDrop(canvas, cx, bottom + 2, top);
  }

  /** No two of these writings share a cell. */
  ghost predicate Apart(writings: set<Writing>) {
    forall v, w | v in writings && w in writings :: v == w || v.Clear(w)
  }

  /** The lines of text of a box, from (x, y) on downwards. */
  ghost function Column(x: int, y: int, lines: seq<string>): (r: set<Writing>) {
    set j | 0 <= j < |lines| :: Writing(x, y + j, lines[j])
  }

  method DrawLines(canvas: Canvas, x: int, y: int, lines: seq<string>, ghost written: set<Writing>)
    requires Lettered(written, canvas.text) && Apart(written + Column(x, y, lines))
    modifies canvas`text
    ensures Lettered(written + Column(x, y, lines), canvas.text)
  {
    assert Column(x, y, lines[..0]) == {} && written + {} == written;
    for j := 0 to |lines|
      invariant Lettered(written + Column(x, y, lines[..j]), canvas.text)
    {
      ghost var before, line := canvas.text, Writing(x, y + j, lines[j]);
      canvas.AddText(x, y + j, lines[j]);
      ColumnMore(x, y, lines, j);
      OneMoreWriting(written + Column(x, y, lines[..j]), before, canvas.text, line);
      assert written + Column(x, y, lines[..j]) + {line} == written + Column(x, y, lines[..j + 1]);
    }
    assert lines[..|lines|] == lines;
  }

  lemma ColumnMore(x: int, y: int, lines: seq<string>, j: nat)
    requires j < |lines|
    ensures Column(x, y, lines[..j + 1]) == Column(x, y, lines[..j]) + {Writing(x, y + j, lines[j])}
    ensures Column(x, y, lines[..j + 1]) <= Column(x, y, lines)
  {
    var next := j + 1;
    forall w | w in Column(x, y, lines[..next])
      ensures w in Column(x, y, lines[..j]) || w == Writing(x, y + j, lines[j])
      ensures w in Column(x, y, lines)
    {
      var i :| 0 <= i < next && w == Writing(x, y + i, lines[..next][i]);
      assert lines[..next][i] == lines[i];
      if i < j { assert lines[..j][i] == lines[i]; }
    }
    forall w | w in Column(x, y, lines[..j])
      ensures w in Column(x, y, lines[..next])
    {
      var i :| 0 <= i < j && w == Writing(x, y + i, lines[..j][i]);
      assert lines[..next][i] == lines[i];
    }
    assert lines[..next][j] == lines[j];
  }

  /** An edge, by its parent and its place among the parent's edges. */
  datatype EdgeId = EdgeId(node: nat, index: nat)

  /** What is drawn from: the tree, the boxes, and where each node was placed. */
  datatype Chart = Chart(c: Component, boxes: map<nat, Box>, places: map<nat, Place>) {
    ghost predicate Whole() {
      && boxes.Keys == c.children.Keys && places.Keys == c.children.Keys
      && forall n, i {:trigger c.HasEdge(n, i)} | c.HasEdge(n, i) :: c.children[n][i].child in c.children
    }

    function ConnectorOf(e: EdgeId): (r: Stroke)
      requires Whole() && c.HasEdge(e.node, e.index)
    {
      var m := c.children[e.node][e.index].child;
      Connector(Middle(e.node), places[e.node].y + boxes[e.node].height - 1, Middle(m), places[m].y)
    }

    /** The label of an edge, centred on the child's column. */
    ghost function LabelOf(e: EdgeId): (r: Writing)
      requires Whole() && c.HasEdge(e.node, e.index)
    {
      var t, text := ConnectorOf(e), c.children[e.node][e.index].text;
      Writing(t.cx - |text| / 2, t.top - 2, text)
    }

    function Middle(n: nat): (r: int)
      requires n in places && n in boxes
    {
      places[n].x + boxes[n].width / 2
    }

    ghost function BorderOf(n: nat): (r: Stroke)
      requires n in places && n in boxes
    {
      Border(places[n].x, places[n].y, boxes[n].width, boxes[n].height)
    }

    ghost function TextOf(n: nat): (r: set<Writing>)
      requires n in places && n in boxes
    {
      Column(places[n].x + 2, places[n].y + 1, boxes[n].lines)
    }

    ghost predicate Has(e: EdgeId) {
      c.HasEdge(e.node, e.index)
    }

    ghost function Edges(): (r: set<EdgeId>) {
      set n, i | n in c.children && 0 <= i < |c.children[n]| :: EdgeId(n, i)
    }

    ghost function Strokes(edges: set<EdgeId>, nodes: set<nat>): (r: set<Stroke>)
      requires Whole() && edges <= Edges() && nodes <= c.children.Keys
    {
      (set e | e in edges :: ConnectorOf(e)) + (set n | n in nodes :: BorderOf(n))
    }

    ghost function Writings(edges: set<EdgeId>, nodes: set<nat>): (r: set<Writing>)
      requires Whole() && edges <= Edges() && nodes <= c.children.Keys
    {
      (set e | e in edges :: LabelOf(e)) + (set n, w | n in nodes && w in TextOf(n) :: w)
    }

    /** The finished drawing will be legible. */
    ghost predicate Legible() {
      Whole() && Apart(Writings(Edges(), c.children.Keys))
    }

    /** These edges and these boxes have been drawn, and nothing else. */
    ghost predicate Shows(edges: set<EdgeId>, nodes: set<nat>, lines: Lines, text: map<Cell, char>) {
      && Whole() && edges <= Edges() && nodes <= c.children.Keys
      && Inked(Strokes(edges, nodes), lines) && Lettered(Writings(edges, nodes), text)
    }
  }

  lemma OneMoreEdge(chart: Chart, edges: set<EdgeId>, e: EdgeId, lines: Lines, text: map<Cell, char>, lines': Lines,
                    text': map<Cell, char>)
    requires chart.Legible() && chart.Has(e) && chart.Shows(edges, {}, lines, text)
    requires Added(lines, lines', chart.ConnectorOf(e))
    requires var w := chart.LabelOf(e); Written(text, text', w.x, w.y, w.text)
    ensures chart.Shows(edges + {e}, {}, lines', text')
  {
    assert e in chart.Edges();
    var strokes, writings := chart.Strokes(edges, {}), chart.Writings(edges, {});
    OneMoreStroke(strokes, lines, lines', chart.ConnectorOf(e));
    assert chart.Strokes(edges + {e}, {}) == strokes + {chart.ConnectorOf(e)};
    assert chart.LabelOf(e) in chart.Writings(chart.Edges(), chart.c.children.Keys);
    assert writings <= chart.Writings(chart.Edges(), chart.c.children.Keys);
    OneMoreWriting(writings, text, text', chart.LabelOf(e));
    assert chart.Writings(edges + {e}, {}) == writings + {chart.LabelOf(e)};
  }

  /** Connector and label of one edge. (The order of label and last stretch of line is free: they share no field.) */
  method DrawLabelled(canvas: Canvas, t: Stroke, text: string)
    requires canvas.Valid() && t.Connector?
    modifies canvas
    ensures canvas.Valid() && Added(old(canvas.lines), canvas.lines, t)
    ensures Written(old(canvas.text), canvas.text, t.cx - |text| / 2, t.top - 2, text)
  {
    DrawConnector(canvas, t.px, t.bottom, t.cx, t.top);
    canvas.AddText(t.cx - |text| / 2, t.top - 2, text);
  }

  method DrawTreeEdge(canvas: Canvas, chart: Chart, n: nat, i: nat, ghost edges: set<EdgeId>)
    requires canvas.Valid() && chart.Legible() && chart.c.HasEdge(n, i)
             && chart.Shows(edges, {}, canvas.lines, canvas.text)
    modifies canvas
    ensures canvas.Valid() && chart.Shows(edges + {EdgeId(n, i)}, {}, canvas.lines, canvas.text)
  {
    ghost var lines, text := canvas.lines, canvas.text;
    DrawLabelled(canvas, chart.ConnectorOf(EdgeId(n, i)), chart.c.children[n][i].text);
    OneMoreEdge(chart, edges, EdgeId(n, i), lines, text, canvas.lines, canvas.text);
  }

  lemma OneMoreBox(chart: Chart, edges: set<EdgeId>, nodes: set<nat>, n: nat, lines: Lines, text: map<Cell, char>,
                   lines': Lines, text': map<Cell, char>)
    requires n in chart.c.children && chart.Shows(edges, nodes, lines, text)
    requires Added(lines, lines', chart.BorderOf(n)) && Lettered(chart.Writings(edges, nodes) + chart.TextOf(n), text')
    ensures chart.Shows(edges, nodes + {n}, lines', text')
  {
    OneMoreStroke(chart.Strokes(edges, nodes), lines, lines', chart.BorderOf(n));
    assert chart.Strokes(edges, nodes + {n}) == chart.Strokes(edges, nodes) + {chart.BorderOf(n)};
    assert chart.Writings(edges, nodes + {n}) == chart.Writings(edges, nodes) + chart.TextOf(n);
  }

  lemma RoomForBox(chart: Chart, edges: set<EdgeId>, nodes: set<nat>, n: nat)
    requires chart.Legible() && n in chart.c.children && edges <= chart.Edges() && nodes <= chart.c.children.Keys
    ensures Apart(chart.Writings(edges, nodes) + chart.TextOf(n))
  {
    var all := chart.Writings(chart.Edges(), chart.c.children.Keys);
    assert chart.Writings(edges, nodes) + chart.TextOf(n) <= all;
  }

  method DrawBox(canvas: Canvas, chart: Chart, place: Place, ghost edges: set<EdgeId>, ghost nodes: set<nat>)
    requires canvas.Valid() && chart.Legible() && place.node in chart.c.children && chart.places[place.node] == place
    requires chart.Shows(edges, nodes, canvas.lines, canvas.text)
    modifies canvas
    ensures canvas.Valid() && chart.Shows(edges, nodes + {place.node}, canvas.lines, canvas.text)
  {
    ghost var lines, text := canvas.lines, canvas.text;
    var box := chart.boxes[place.node];
    DrawBorder(canvas, place.x, place.y, box.width, box.height);
    RoomForBox(chart, edges, nodes, place.node);
    DrawLines(canvas, place.x + 2, place.y + 1, box.lines, chart.Writings(edges, nodes));
    OneMoreBox(chart, edges, nodes, place.node, lines, text, canvas.lines, canvas.text);
  }

  /** The first edges of a node. */
  ghost function EdgesFrom(n: nat, k: nat): (r: set<EdgeId>) {
    if k == 0 then {} else EdgesFrom(n, k - 1) + {EdgeId(n, k - 1)}
  }

  ghost function EdgesBelow(c: Component, nodes: set<nat>): (r: set<EdgeId>) {
    set n, i | n in nodes && n in c.children && 0 <= i < |c.children[n]| :: EdgeId(n, i)
  }

  lemma {:induction false} InEdgesFrom(n: nat, k: nat, e: EdgeId)
    ensures e in EdgesFrom(n, k) <==> e.node == n && e.index < k
  {
    if k > 0 {
      InEdgesFrom(n, k - 1, e);
    }
  }

  lemma MoreEdges(c: Component, nodes: set<nat>, n: nat)
    requires n in c.children
    ensures EdgesBelow(c, nodes + {n}) == EdgesBelow(c, nodes) + EdgesFrom(n, |c.children[n]|)
  {
    forall e: EdgeId
      ensures e in EdgesBelow(c, nodes + {n}) <==> e in EdgesBelow(c, nodes) + EdgesFrom(n, |c.children[n]|)
    {
      InEdgesFrom(n, |c.children[n]|, e);
      assert c.HasEdge(e.node, e.index) || !c.HasEdge(e.node, e.index);
    }
  }

  method DrawChildren(canvas: Canvas, chart: Chart, n: nat, ghost edges: set<EdgeId>)
    requires canvas.Valid() && chart.Legible() && n in chart.c.children
             && chart.Shows(edges, {}, canvas.lines, canvas.text)
    modifies canvas
    ensures canvas.Valid() && chart.Shows(edges + EdgesFrom(n, |chart.c.children[n]|), {}, canvas.lines, canvas.text)
  {
    var siblings := chart.c.children[n];
    assert edges + EdgesFrom(n, 0) == edges;
    for i := 0 to |siblings|
      invariant canvas.Valid() && chart.Shows(edges + EdgesFrom(n, i), {}, canvas.lines, canvas.text)
    {
      DrawTreeEdge(canvas, chart, n, i, edges + EdgesFrom(n, i));
      assert edges + EdgesFrom(n, i) + {EdgeId(n, i)} == edges + EdgesFrom(n, i + 1);
    }
  }

  lemma NothingDrawn(chart: Chart, lines: Lines, text: map<Cell, char>)
    requires chart.Whole() && lines == map[] && text == map[]
    ensures chart.Shows({}, {}, lines, text)
  {
    assert chart.Strokes({}, {}) == {} && chart.Writings({}, {}) == {};
  }

  lemma MovedOver(done: set<nat>, todo: set<nat>, n: nat)
    requires n in todo
    ensures (done + {n}) + (todo - {n}) == done + todo
  {
  }

  /** All connectors and labels, node by node. */
  method DrawEdges(canvas: Canvas, chart: Chart)
    requires canvas.Valid() && chart.Legible() && canvas.lines == map[] && canvas.text == map[]
    modifies canvas
    ensures canvas.Valid() && chart.Shows(chart.Edges(), {}, canvas.lines, canvas.text)
  {
    ghost var done: set<nat> := {};
    NothingDrawn(chart, canvas.lines, canvas.text);
    assert EdgesBelow(chart.c, done) == {};
    var todo := chart.c.children.Keys;
    while todo != {}
      invariant done + todo == chart.c.children.Keys
      invariant canvas.Valid() && chart.Shows(EdgesBelow(chart.c, done), {}, canvas.lines, canvas.text)
      decreases |todo|
    {
      var n :| n in todo;
      DrawChildren(canvas, chart, n, EdgesBelow(chart.c, done));
      MoreEdges(chart.c, done, n);
      MovedOver(done, todo, n);
      todo, done := todo - {n}, done + {n};
    }
    assert done + todo == done;
    AllBelow(chart);
  }

  lemma AllBelow(chart: Chart)
    ensures EdgesBelow(chart.c, chart.c.children.Keys) == chart.Edges()
  {
    forall e: EdgeId
      ensures e in EdgesBelow(chart.c, chart.c.children.Keys) <==> e in chart.Edges()
    {
      assert chart.c.HasEdge(e.node, e.index) || !chart.c.HasEdge(e.node, e.index);
    }
  }

  /** All boxes, in the order of placement. */
  method DrawBoxes(canvas: Canvas, chart: Chart, places: seq<Place>)
    requires canvas.Valid() && chart.Legible() && chart.Shows(chart.Edges(), {}, canvas.lines, canvas.text)
    requires Elements(PlaceNodes(places)) == chart.c.children.Keys
    requires forall i | 0 <= i < |places| :: places[i].node in chart.places && chart.places[places[i].node] == places[i]
    modifies canvas
    ensures canvas.Valid() && chart.Shows(chart.Edges(), chart.c.children.Keys, canvas.lines, canvas.text)
  {
    assert Elements(PlaceNodes(places)[..0]) == {};
    for k := 0 to |places|
      invariant canvas.Valid()
                && chart.Shows(chart.Edges(), Elements(PlaceNodes(places)[..k]), canvas.lines, canvas.text)
    {
      DrawBox(canvas, chart, places[k], chart.Edges(), Elements(PlaceNodes(places)[..k]));
      NextPlace(places, k);
    }
    assert PlaceNodes(places)[..|places|] == PlaceNodes(places);
  }

  lemma NextPlace(places: seq<Place>, k: nat)
    requires k < |places|
    ensures Elements(PlaceNodes(places)[..k + 1]) == Elements(PlaceNodes(places)[..k]) + {places[k].node}
  {
    var nodes := PlaceNodes(places);
    assert nodes[..k + 1] == nodes[..k] + [nodes[k]];
    ElementsAppend(nodes[..k], nodes[k]);
  }

  function WithPlace(places: seq<Place>, k: nat, byName: map<nat, Place>): (r: map<nat, Place>)
    requires k < |places| && Distinct(PlaceNodes(places))
    requires forall i | 0 <= i < k :: places[i].node in byName && byName[places[i].node] == places[i]
    ensures r.Keys == byName.Keys + {places[k].node}
    ensures forall i | 0 <= i <= k :: places[i].node in r && r[places[i].node] == places[i]
  {
    assert forall i | 0 <= i < k :: PlaceNodes(places)[i] != PlaceNodes(places)[k];
    byName[places[k].node := places[k]]
  }

  /** Placements by node. */
  method PlacesByNode(places: seq<Place>) returns (byName: map<nat, Place>)
    requires Distinct(PlaceNodes(places))
    ensures byName.Keys == Elements(PlaceNodes(places))
    ensures forall i | 0 <= i < |places| :: places[i].node in byName && byName[places[i].node] == places[i]
  {
    byName := map[];
    for k := 0 to |places|
      invariant byName.Keys == Elements(PlaceNodes(places)[..k])
      invariant forall i | 0 <= i < k :: places[i].node in byName && byName[places[i].node] == places[i]
    {
      NextPlace(places, k);
      byName := WithPlace(places, k, byName);
    }
    assert PlaceNodes(places)[..|places|] == PlaceNodes(places);
  }
}
