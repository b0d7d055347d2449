/** The whole box display of a plan: its forest, and one finished drawing for each component. */
module Display {
  import opened Canvas
  import opened DisplayTree
  import opened Drawing
  import opened Forest
  import Multigraph
  import opened Geometry
  import opened Printing
  import opened Rendering
  import opened Texts

  /** What is left on a canvas, and the rows of text made of it, which begin at column `start`. */
  datatype Picture = Picture(lines: Lines, text: map<Cell, char>, rows: seq<string>, start: int)

  function BoxesOf(c: Component, boxes: map<nat, Box>): (r: map<nat, Box>)
    requires c.children.Keys <= boxes.Keys
  {
    map n | n in c.children :: boxes[n]
  }

  ghost predicate Fitting(g: Multigraph.Graph, boxes: map<nat, Box>) {
    g.NodeSet() <= boxes.Keys && forall n | n in boxes :: boxes[n].Fits()
  }

  /** The picture shows this component, laid out on the sheet. */
  ghost predicate Pictured(d: DisplayComponent, boxes: map<nat, Box>, s: Sheet, p: Picture) {
    && d.tree.children.Keys <= boxes.Keys && s.c == d.tree && s.boxes == BoxesOf(d.tree, boxes)
    && s.Good() && Finished(s, p.lines, p.text) && Prints(p.rows, p.lines, p.text, p.start)
  }

  /** Every visible character of an edge label is in the rows of text, where the layout has it. */
  lemma LabelPrinted(s: Sheet, p: Picture, n: nat, i: nat, k: nat)
    requires Finished(s, p.lines, p.text) && Prints(p.rows, p.lines, p.text, p.start) && s.DrawnEdge(n, i)
    requires k < |s.c.children[n][i].text| && !Space(s.c.children[n][i].text[k])
    ensures var w := LabelOf(s, EdgeId(n, i));
            && 0 <= w.y < |p.rows| && 0 <= w.x + k - p.start < |p.rows[w.y]|
            && p.rows[w.y][w.x + k - p.start] == w.text[k]
  {
    LabelShown(s, p.lines, p.text, n, i);
    ShownIsRead(p, LabelOf(s, EdgeId(n, i)), k);
  }

  /** So is every visible character of the text in a box. */
  lemma LinePrinted(s: Sheet, p: Picture, n: nat, j: nat, k: nat)
    requires Finished(s, p.lines, p.text) && Prints(p.rows, p.lines, p.text, p.start) && s.Drawn(n)
             && j < |s.boxes[n].lines|
    requires k < |s.boxes[n].lines[j]| && !Space(s.boxes[n].lines[j][k])
    ensures var w := LineOf(s, n, j);
            && 0 <= w.y < |p.rows| && 0 <= w.x + k - p.start < |p.rows[w.y]|
            && p.rows[w.y][w.x + k - p.start] == w.text[k]
  {
    LineShown(s, p.lines, p.text, n, j);
    ShownIsRead(p, LineOf(s, n, j), k);
  }

  lemma ShownIsRead(p: Picture, w: Writing, k: nat)
    requires Prints(p.rows, p.lines, p.text, p.start) && w.Shown(p.text)
    requires k < |w.text| && !Space(w.text[k])
    ensures 0 <= w.y < |p.rows| && 0 <= w.x + k - p.start < |p.rows[w.y]| && p.rows[w.y][w.x + k - p.start] == w.text[k]
  {
    assert CharAt(p.text, w.x, w.y, w.text, k);
    ReadBack(p.rows, p.lines, p.text, p.start, Cell(w.x + k, w.y));
  }

  /** The character that the rows have for a cell, if the rows reach so far. */
  predicate Reads(p: Picture, c: Cell, ch: char) {
    0 <= c.y < |p.rows| && 0 <= c.x - p.start < |p.rows[c.y]| && p.rows[c.y][c.x - p.start] == ch
  }

  /** The directions in which connectors and borders of the layout run from a cell. */
  ghost function ArmsAt(s: Sheet, c: Cell): (arms: set<Side>) {
    set side: Side | Arm(s, c, side)
  }

  lemma StubsAreArms(s: Sheet, lines: Lines, c: Cell)
    requires Armed(s, lines)
    ensures SidesAt(lines, c) == ArmsAt(s, c)
  {
    forall side: Side
      ensures side in SidesAt(lines, c) <==> side in ArmsAt(s, c)
    {
      assert side in ArmsAt(s, c) <==> Arm(s, c, side);
    }
  }

  /** In the rows, the character for a cell of a line has the arms of the connectors and borders through it. */
  lemma LineRead(s: Sheet, p: Picture, c: Cell) returns (ch: char)
    requires Finished(s, p.lines, p.text) && Prints(p.rows, p.lines, p.text, p.start) && ArmsAt(s, c) != {}
    ensures Reads(p, c, ch) && ArmsOf(ch) == Straight(ArmsAt(s, c))
  {
    StubsAreArms(s, p.lines, c);
    LineIsBare(s, p.lines, p.text, c);
    ch := Glyph(ArmsAt(s, c));
    GlyphArms(ArmsAt(s, c));
    BareRead(p, c);
  }

  lemma LineIsBare(s: Sheet, lines: Lines, text: map<Cell, char>, c: Cell)
    requires Finished(s, lines, text) && SidesAt(lines, c) != {}
    ensures c !in text
  {
  }

  lemma BareRead(p: Picture, c: Cell)
    requires Prints(p.rows, p.lines, p.text, p.start) && c !in p.text && SidesAt(p.lines, c) != {}
    ensures Reads(p, c, Glyph(SidesAt(p.lines, c)))
  {
    GlyphIsBlank(SidesAt(p.lines, c));
    ReadBack(p.rows, p.lines, p.text, p.start, c);
  }

  /** Every character of the rows that has arms stands for a cell where those lines run. */
  lemma ArmsAreDrawn(s: Sheet, p: Picture, c: Cell, ch: char)
    requires Finished(s, p.lines, p.text) && Prints(p.rows, p.lines, p.text, p.start) && Reads(p, c, ch)
    requires c !in p.text
    ensures ArmsOf(ch) == Straight(ArmsAt(s, c))
  {
    StubsAreArms(s, p.lines, c);
    assert RowPrints(RowAt(p.rows, c.y), p.lines, p.text, p.start, c.y);
    assert p.rows[c.y][c.x - p.start] == CellChar(p.lines, p.text, Cell(p.start + (c.x - p.start), c.y));
    GlyphArms(SidesAt(p.lines, c));
  }

  /** The corners of a box: its column, its row, and the arms it has. */
  datatype Corner = Corner(right: bool, bottom: bool) {
    function At(s: Sheet, n: nat): (c: Cell)
      requires s.Drawn(n)
    {
      Cell(if right then s.X(n) + s.boxes[n].width - 1 else s.X(n), if bottom then s.Bottom(n) else s.Y(n))
    }

    function Arms(): (arms: set<Side>) {
      {if right then Left else Right, if bottom then Up else Down}
    }

    function Character(): (ch: char) {
      if right then if bottom then '\U{2518}' else '\U{2510}' else if bottom then '\U{2514}' else '\U{250c}'
    }
  }

  lemma NoEdgeAtCorner(s: Sheet, n: nat, corner: Corner, m: nat, i: nat)
    requires s.Good() && n in s.c.children && s.Drawn(n) && s.DrawnEdge(m, i)
    ensures var c := corner.At(s, n); !s.OnEdge(m, i, c.x, c.y)
  {
    var c := corner.At(s, n);
    BoxInSpan(s, n);
    EdgeAvoidsBoxes(s, m, i, n, c.x, c.y);
  }

  lemma OtherBoxAway(s: Sheet, n: nat, corner: Corner, m: nat)
    requires s.Good() && n in s.c.children && m in s.c.children && s.Drawn(n) && s.Drawn(m) && m != n
    ensures var c := corner.At(s, n); !OnBorder(s, m, c.x, c.y)
  {
    var c := corner.At(s, n);
    BoxInSpan(s, n);
    BoxesDisjoint(s, n, m, c.x, c.y);
  }

  lemma OwnCorner(s: Sheet, n: nat, corner: Corner, side: Side)
    requires s.Drawn(n) && s.boxes[n].width >= 3 && s.boxes[n].height >= 3
    ensures BorderRuns(s, n, corner.At(s, n), side) <==> side in corner.Arms()
  {
  }

  lemma CornerArms(s: Sheet, n: nat, corner: Corner)
    requires s.Good() && n in s.c.children
    ensures s.Drawn(n) && ArmsAt(s, corner.At(s, n)) == corner.Arms()
  {
    BoxInSpan(s, n);
    NodeInside(s.c, s.shape, s.boxes, s.widths, s.lefts, n);
    var c := corner.At(s, n);
    forall side: Side
      ensures Arm(s, c, side) <==> side in corner.Arms()
    {
      forall m, i: nat | s.DrawnEdge(m, i)
        ensures !EdgeRuns(s, m, i, c, side)
      {
        NoEdgeAtCorner(s, n, corner, m, i);
      }
      forall m | s.Drawn(m) && m != n
        ensures !BorderRuns(s, m, c, side)
      {
        OtherBoxAway(s, n, corner, m);
      }
      OwnCorner(s, n, corner, side);
    }
  }

  /** The four corners of every box are read as the four corner characters. */
  lemma CornersRead(s: Sheet, p: Picture, n: nat, corner: Corner)
    requires s.Good() && Finished(s, p.lines, p.text) && Prints(p.rows, p.lines, p.text, p.start)
    requires n in s.c.children
    ensures s.Drawn(n) && Reads(p, corner.At(s, n), corner.Character())
  {
    CornerArms(s, n, corner);
    var ch := LineRead(s, p, corner.At(s, n));
    CharacterOfArms(corner, ch);
  }

  lemma CharacterOfArms(corner: Corner, ch: char)
    requires ArmsOf(ch) == Straight(corner.Arms())
    ensures ch == corner.Character()
  {
  }

  ghost predicate IsPicture(d: DisplayComponent, boxes: map<nat, Box>, p: Picture) {
    exists s {:trigger Pictured(d, boxes, s, p)} :: Pictured(d, boxes, s, p)
  }

  method RenderOne(d: DisplayComponent, boxes: map<nat, Box>, ghost shape: Shape) returns (p: Picture)
    requires d.tree.Tree(shape) && d.tree.children.Keys <= boxes.Keys && forall n | n in boxes :: boxes[n].Fits()
    ensures IsPicture(d, boxes, p)
  {
    var canvas;
    ghost var s;
    canvas, s := RenderComponent(d.tree, BoxesOf(d.tree, boxes), shape);
    var rows, start := Print(canvas.lines, canvas.text);
    p := Picture(canvas.lines, canvas.text, rows, start);
    assert Pictured(d, boxes, s, p);
  }

  ghost predicate TreeAt(forest: seq<DisplayComponent>, boxes: map<nat, Box>, shapes: seq<Shape>, k: int) {
    0 <= k < |forest| && k < |shapes| && forest[k].tree.Tree(shapes[k]) && forest[k].tree.children.Keys <= boxes.Keys
  }

  lemma ComponentsAreTrees(g: Multigraph.Graph, order: map<nat, nat>, forest: seq<DisplayComponent>,
                           shapes: seq<Shape>, starts: seq<nat>, boxes: map<nat, Box>)
    requires ForestSoFar(g, order, forest, shapes, starts, {}) && g.NodeSet() <= boxes.Keys
    ensures forall k {:trigger TreeAt(forest, boxes, shapes, k)} | 0 <= k < |forest| :: TreeAt(forest, boxes, shapes, k)
  {
    forall k | 0 <= k < |forest|
      ensures TreeAt(forest, boxes, shapes, k)
    {
      assert GoodComponent(g, order, forest[k], shapes[k]);
    }
  }

  ghost function Rendered(boxes: map<nat, Box>): (r: (DisplayComponent, Picture) -> bool) {
    (d, p) => IsPicture(d, boxes, p)
  }

  /** The first elements of two sequences belong together, one by one. */
  ghost predicate Each<A, B>(f: (A, B) -> bool, a: seq<A>, b: seq<B>) {
    |b| <= |a| && forall i | 0 <= i < |b| :: f(a[i], b[i])
  }

  lemma OneMore<A, B>(f: (A, B) -> bool, a: seq<A>, b: seq<B>, y: B)
    requires Each(f, a, b) && |b| < |a| && f(a[|b|], y)
    ensures Each(f, a, b + [y])
  {
  }

  method RenderNext(forest: seq<DisplayComponent>, boxes: map<nat, Box>, ghost shapes: seq<Shape>, k: nat,
                    pictures: seq<Picture>)
    returns (pictures': seq<Picture>)
    requires TreeAt(forest, boxes, shapes, k) && forall n | n in boxes :: boxes[n].Fits()
    requires |pictures| == k && Each(Rendered(boxes), forest, pictures)
    ensures |pictures'| == k + 1 && Each(Rendered(boxes), forest, pictures')
  {
    var p := RenderOne(forest[k], boxes, shapes[k]);
    OneMore(Rendered(boxes), forest, pictures, p);
    pictures' := pictures + [p];
  }

  method RenderTrees(forest: seq<DisplayComponent>, boxes: map<nat, Box>, ghost shapes: seq<Shape>)
    returns (pictures: seq<Picture>)
    requires forall k {:trigger TreeAt(forest, boxes, shapes, k)} | 0 <= k < |forest| ::
               TreeAt(forest, boxes, shapes, k)
    requires forall n | n in boxes :: boxes[n].Fits()
    ensures |pictures| == |forest| && Each(Rendered(boxes), forest, pictures)
  {
    pictures := [];
    for k := 0 to |forest|
      invariant |pictures| == k && Each(Rendered(boxes), forest, pictures)
    {
      assert TreeAt(forest, boxes, shapes, k);
      pictures := RenderNext(forest, boxes, shapes, k, pictures);
    }
  }

  /**
   From any plan and any boxes: every node and every link is in one component, and each component has a finished
   drawing.
   */
  method RenderForest(g: Multigraph.Graph, boxes: map<nat, Box>)
    returns (forest: seq<DisplayComponent>, pictures: seq<Picture>)
    requires g.WellFormed() && Fitting(g, boxes)
    ensures IsForest(g, forest)
    ensures |pictures| == |forest| && Each(Rendered(boxes), forest, pictures)
  {
    ghost var shapes, order, starts;
    forest, shapes, order, starts := BuildForest(g);
    ComponentsAreTrees(g, order, forest, shapes, starts, boxes);
    pictures := RenderTrees(forest, boxes, shapes);
  }
}
