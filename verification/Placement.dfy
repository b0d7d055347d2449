/** The passes that lay a component out: depths, subtree widths, and placement with an explicit stack. */
module Placement {
  import opened DisplayTree
  import opened Geometry
  import opened Worklist

  function Children(edges: seq<Edge>): (s: seq<nat>)
    ensures |s| == |edges| && forall i | 0 <= i < |s| :: s[i] == edges[i].child
  {
    seq(|edges|, i requires 0 <= i < |edges| => edges[i].child)
  }

  /** A worklist pass: `done` is finished, `open` is waiting, and a node is known only after its parent is done. */
  ghost predicate Frontier(c: Component, shape: Shape, done: set<nat>, open: seq<nat>) {
    && shape.parent.Keys == c.children.Keys
    && done <= c.children.Keys && Elements(open) <= c.children.Keys
    && done !! Elements(open) && Distinct(open)
    && c.root in done + Elements(open)
    && (forall n {:trigger shape.parent[n]} | n in done + Elements(open) && n != c.root ::
          shape.parent[n] in done)
    && (forall m, i {:trigger c.HasEdge(m, i)} | c.HasEdge(m, i) && m in done ::
         c.children[m][i].child in done + Elements(open))
  }

  /** `node` is taken off either end of the worklist `open`. */
  ghost predicate Takes(open: seq<nat>, node: nat, rest: seq<nat>) {
    open == [node] + rest || open == rest + [node]
  }

  lemma Taken(open: seq<nat>, node: nat, rest: seq<nat>)
    requires Takes(open, node, rest) && Distinct(open)
    ensures node in Elements(open) && node !in rest && Distinct(rest)
    ensures Elements(open) == Elements(rest) + {node}
  {
    if open == [node] + rest {
      assert forall i | 0 <= i < |rest| :: rest[i] == open[i + 1];
      assert open[0] == node;
    } else {
      assert forall i | 0 <= i < |rest| :: rest[i] == open[i];
      assert open[|rest|] == node;
    }
  }

  /** The children of a waiting node are distinct and not known yet. */
  lemma FreshChildren(c: Component, shape: Shape, done: set<nat>, open: seq<nat>, node: nat)
    requires c.Tree(shape) && Frontier(c, shape, done, open) && node in Elements(open)
    ensures Distinct(Children(c.children[node]))
    ensures forall n | n in Children(c.children[node]) ::
              n in c.children && n != c.root && shape.parent[n] == node && n !in done && n !in Elements(open)
  {
    forall i | 0 <= i < |c.children[node]|
      ensures var n := c.children[node][i].child;
              n in c.children && n != c.root && shape.parent[n] == node && shape.index[n] == i && n !in done
                && n !in Elements(open)
    {
      assert c.HasEdge(node, i);
      var n := c.children[node][i].child;
      assert n in done + Elements(open) ==> node in done;
    }
  }

  /** Finishing `node`, with its children waiting in its place, in any order. */
  lemma Advance(c: Component, shape: Shape, done: set<nat>, open: seq<nat>, node: nat, rest: seq<nat>, next: seq<nat>)
    requires c.Tree(shape) && Frontier(c, shape, done, open) && Takes(open, node, rest)
    requires Distinct(next) && Elements(next) == Elements(rest) + Elements(Children(c.children[node]))
    ensures Frontier(c, shape, done + {node}, next)
    ensures node in c.children && node !in done
  {
    Taken(open, node, rest);
    FreshChildren(c, shape, done, open, node);
    forall m, i | c.HasEdge(m, i) && m in done + {node}
      ensures c.children[m][i].child in done + {node} + Elements(next)
    {
      var n := c.children[m][i].child;
      if m == node {
        assert Children(c.children[node])[i] == n;
      } else {
        assert n in done + Elements(open);
      }
    }
  }

  lemma Appended(c: Component, shape: Shape, done: set<nat>, open: seq<nat>, node: nat, rest: seq<nat>)
    requires c.Tree(shape) && Frontier(c, shape, done, open) && Takes(open, node, rest)
    ensures node in c.children && node !in done
    ensures Frontier(c, shape, done + {node}, rest + Children(c.children[node]))
  {
    Taken(open, node, rest);
    FreshChildren(c, shape, done, open, node);
    var kids := Children(c.children[node]);
    assert forall n | n in kids :: n !in Elements(open) && n !in rest;
    DistinctConcat(rest, kids);
    Advance(c, shape, done, open, node, rest, rest + kids);
  }

  lemma FirstFrontier(c: Component, shape: Shape)
    requires c.Tree(shape)
    ensures Frontier(c, shape, {}, [c.root]) && Elements([c.root]) == {c.root}
    ensures ParentsFirst(c, shape, []) && Elements([]) == {}
  {
    assert c.root in Elements([c.root]);
  }

  lemma AllReached(c: Component, shape: Shape, done: set<nat>)
    requires c.Tree(shape) && Frontier(c, shape, done, [])
    ensures done == c.children.Keys
  {
    assert Elements([]) == {};
    forall n | n in c.children
      ensures n in done
    {
      ClosedFromRoot(c, shape, done, n);
    }
  }

  /** Breadth-first depths: exactly the distance from the root, for every node. */
  method TreeDepths(c: Component, ghost shape: Shape) returns (depths: map<nat, nat>)
    requires c.Tree(shape)
    ensures depths == shape.depth
  {
    depths := map[c.root := 0];
    var queue := [c.root];
    ghost var done: set<nat> := {};
    FirstFrontier(c, shape);
    while queue != []
      invariant Frontier(c, shape, done, queue)
      invariant depths.Keys == done + Elements(queue)
      invariant forall n | n in depths :: n in shape.depth && depths[n] == shape.depth[n]
      decreases |c.children.Keys - done|
    {
      var parent, rest := queue[0], queue[1..];
      SplitFirst(queue);
      DequeueStep(c, shape, done, queue, parent, rest);
      depths := RecordChildren(c, shape, parent, depths);
      queue := rest + Children(c.children[parent]);
      done := done + {parent};
    }
    AllReached(c, shape, done);
  }

  lemma DequeueStep(c: Component, shape: Shape, done: set<nat>, queue: seq<nat>, parent: nat, rest: seq<nat>)
    requires c.Tree(shape) && Frontier(c, shape, done, queue) && queue == [parent] + rest
    ensures parent in c.children && parent in Elements(queue)
    ensures Frontier(c, shape, done + {parent}, rest + Children(c.children[parent]))
    ensures done + {parent} + Elements(rest + Children(c.children[parent]))
            == done + Elements(queue) + Elements(Children(c.children[parent]))
    ensures |c.children.Keys - (done + {parent})| < |c.children.Keys - done|
  {
    Appended(c, shape, done, queue, parent, rest);
    Taken(queue, parent, rest);
    assert c.children.Keys - done == c.children.Keys - (done + {parent}) + {parent};
  }

  /** The inner loop of the depth pass. */
  method RecordChildren(c: Component, ghost shape: Shape, parent: nat, depths: map<nat, nat>) returns (r: map<nat, nat>)
    requires c.Tree(shape) && parent in c.children && parent in depths
    requires forall n | n in depths :: n in shape.depth && depths[n] == shape.depth[n]
    ensures r.Keys == depths.Keys + Elements(Children(c.children[parent]))
    ensures forall n | n in r :: n in shape.depth && r[n] == shape.depth[n]
  {
    var edges := c.children[parent];
    r := depths;
    for k := 0 to |edges|
      invariant r.Keys == depths.Keys + Elements(Children(edges)[..k])
      invariant forall n | n in r :: n in shape.depth && r[n] == shape.depth[n]
    {
      assert c.HasEdge(parent, k);
      assert Children(edges)[..k + 1] == Children(edges)[..k] + [edges[k].child];
      r := r[edges[k].child := r[parent] + 1];
    }
    assert Children(edges)[..|edges|] == Children(edges);
  }

  ghost predicate ParentBefore(c: Component, shape: Shape, traversal: seq<nat>, k: nat) {
    && k < |traversal|
    && (traversal[k] != c.root ==>
          traversal[k] in shape.parent && exists j :: 0 <= j < k && traversal[j] == shape.parent[traversal[k]])
  }

  /** Every node at most once and after its parent: the order of the width pass, which reads it backwards. */
  ghost predicate ParentsFirst(c: Component, shape: Shape, traversal: seq<nat>) {
    && Distinct(traversal)
    && forall k: nat {:trigger ParentBefore(c, shape, traversal, k)} | k < |traversal| ::
         ParentBefore(c, shape, traversal, k)
  }

  method Traverse(c: Component, ghost shape: Shape) returns (traversal: seq<nat>)
    requires c.Tree(shape)
    ensures ParentsFirst(c, shape, traversal) && Elements(traversal) == c.children.Keys
  {
    traversal := [];
    var stack := [c.root];
    FirstFrontier(c, shape);
    while stack != []
      invariant Frontier(c, shape, Elements(traversal), stack)
      invariant ParentsFirst(c, shape, traversal)
      decreases |c.children.Keys - Elements(traversal)|
    {
      var node, rest := stack[|stack| - 1], stack[..|stack| - 1];
      SplitLast(stack);
      PopStep(c, shape, traversal, stack, node, rest);
      stack := rest + Children(c.children[node]);
      traversal := traversal + [node];
    }
    AllReached(c, shape, Elements(traversal));
  }

  lemma PopStep(c: Component, shape: Shape, traversal: seq<nat>, stack: seq<nat>, node: nat, rest: seq<nat>)
    requires c.Tree(shape) && Frontier(c, shape, Elements(traversal), stack) && stack == rest + [node]
    requires ParentsFirst(c, shape, traversal)
    ensures node in c.children
    ensures Frontier(c, shape, Elements(traversal + [node]), rest + Children(c.children[node]))
    ensures ParentsFirst(c, shape, traversal + [node])
    ensures |c.children.Keys - Elements(traversal + [node])| < |c.children.Keys - Elements(traversal)|
  {
    var done := Elements(traversal);
    Appended(c, shape, done, stack, node, rest);
    Taken(stack, node, rest);
    VisitedAfterParent(c, shape, traversal, stack, node);
    assert Elements(traversal + [node]) == done + {node};
    assert c.children.Keys - done == c.children.Keys - (done + {node}) + {node};
  }

  lemma VisitedAfterParent(c: Component, shape: Shape, traversal: seq<nat>, open: seq<nat>, node: nat)
    requires Frontier(c, shape, Elements(traversal), open) && node in Elements(open)
    requires ParentsFirst(c, shape, traversal)
    ensures ParentsFirst(c, shape, traversal + [node])
  {
    var longer := traversal + [node];
    assert node !in traversal;
    forall k: nat | k < |longer|
      ensures ParentBefore(c, shape, longer, k)
    {
      if k < |traversal| {
        assert ParentBefore(c, shape, traversal, k);
        if longer[k] != c.root {
          var j :| 0 <= j < k && traversal[j] == shape.parent[traversal[k]];
          assert longer[j] == shape.parent[longer[k]];
        }
      } else if node != c.root {
        assert node in Elements(traversal) + Elements(open);
        var p := shape.parent[node];
        assert p in Elements(traversal);
        var j :| 0 <= j < |traversal| && traversal[j] == p;
        assert longer[j] == p;
      }
    }
  }

  // The width pass.

  /** The sum of spans looks only at the children it sums. */
  lemma {:induction false} SpanFrame(edges: seq<Edge>, w: map<nat, nat>, w': map<nat, nat>, k: nat)
    requires k <= |edges| && Measured(edges, w) && Measured(edges, w')
    requires forall i | 0 <= i < k :: w[edges[i].child] == w'[edges[i].child]
    ensures SpanUpTo(edges, w, k) == SpanUpTo(edges, w', k)
  {
    if k > 0 {
      SpanFrame(edges, w, w', k - 1);
    }
  }

  /** The inner loop: every child's span is widened to its label, and the block of children is measured. */
  method SpanChildren(edges: seq<Edge>, widths: map<nat, nat>) returns (r: map<nat, nat>, total: nat)
    requires Measured(edges, widths) && Distinct(Children(edges))
    ensures r.Keys == widths.Keys && Measured(edges, r)
    ensures forall i | 0 <= i < |edges| :: r[edges[i].child] == Max(widths[edges[i].child], edges[i].LabelWidth())
    ensures forall n | n in widths && n !in Children(edges) :: r[n] == widths[n]
    ensures total == SpanSum(edges, r)
  {
    r := widths;
    var sum := 0;
    for k := 0 to |edges|
      invariant r.Keys == widths.Keys && Measured(edges, r)
      invariant forall i | 0 <= i < k :: r[edges[i].child] == Max(widths[edges[i].child], edges[i].LabelWidth())
      invariant forall i | k <= i < |edges| :: r[edges[i].child] == widths[edges[i].child]
      invariant forall n | n in widths && n !in Children(edges) :: r[n] == widths[n]
      invariant SpanUpTo(edges, r, k) == sum + SIBLING_GAP * if k > 0 then k - 1 else 0
    {
      var child := edges[k].child;
      assert child == Children(edges)[k];
      assert forall i | 0 <= i < |edges| && i != k :: Children(edges)[i] != child;
      ghost var before := r;
      r := r[child := Max(r[child], edges[k].LabelWidth())];
      sum := sum + r[child];
      SpanFrame(edges, before, r, k);
    }
    total := if edges == [] then 0 else sum + SIBLING_GAP * (|edges| - 1);
  }

  /** Label length of the edge above a node. */
  ghost function LabelAbove(c: Component, shape: Shape, n: nat): (r: nat)
    requires c.Hangs(shape, n)
  {
    c.children[shape.parent[n]][shape.index[n]].LabelWidth()
  }

  /** A measured node: its own width, widened to its label once its parent is measured too. */
  ghost predicate Sound(c: Component, shape: Shape, boxes: map<nat, Box>, widths: map<nat, nat>, n: nat) {
    && n in widths && n in c.children && n in boxes && Measured(c.children[n], widths)
    && (n != c.root ==> c.Hangs(shape, n))
    && widths[n] == if n != c.root && shape.parent[n] in widths
                    then Max(OwnWidth(c, boxes, widths, n), LabelAbove(c, shape, n))
                    else OwnWidth(c, boxes, widths, n)
  }

  ghost predicate WidthsFrom(c: Component, shape: Shape, boxes: map<nat, Box>, traversal: seq<nat>, k: nat,
                             widths: map<nat, nat>) {
    && k <= |traversal| && widths.Keys == Elements(traversal[k..])
    && forall n {:trigger Sound(c, shape, boxes, widths, n)} | n in widths :: Sound(c, shape, boxes, widths, n)
  }

  /** Reading the traversal backwards, a node comes after its children and before its parent. */
  lemma BackwardOrder(c: Component, shape: Shape, traversal: seq<nat>, k: nat)
    requires c.Tree(shape) && ParentsFirst(c, shape, traversal) && Elements(traversal) == c.children.Keys
             && k < |traversal|
    ensures var node := traversal[k];
            && node in c.children && node !in traversal[k + 1..]
            && Elements(traversal[k..]) == Elements(traversal[k + 1..]) + {node}
            && (forall n | n in Children(c.children[node]) :: n in traversal[k + 1..])
            && (node != c.root ==> c.Hangs(shape, node) && shape.parent[node] !in traversal[k..])
  {
    var node := traversal[k];
    assert node in Elements(traversal);
    forall n | n in Children(c.children[node])
      ensures n in traversal[k + 1..]
    {
      var i :| 0 <= i < |c.children[node]| && c.children[node][i].child == n;
      assert c.HasEdge(node, i);
      assert n in Elements(traversal);
      var j :| 0 <= j < |traversal| && traversal[j] == n;
      assert ParentBefore(c, shape, traversal, j);
      var p :| 0 <= p < j && traversal[p] == shape.parent[n];
      assert traversal[p] == traversal[k];
      assert traversal[k + 1..][j - k - 1] == n;
    }
    if node != c.root {
      assert c.Hangs(shape, node) && ParentBefore(c, shape, traversal, k);
      var p :| 0 <= p < k && traversal[p] == shape.parent[node];
    }
  }

  /** One turn of the backward loop. */
  method MeasureNode(c: Component, boxes: map<nat, Box>, ghost shape: Shape, traversal: seq<nat>, k: nat,
                     widths: map<nat, nat>)
    returns (r: map<nat, nat>)
    requires c.Tree(shape) && Sized(c, boxes)
    requires ParentsFirst(c, shape, traversal) && Elements(traversal) == c.children.Keys
    requires k < |traversal| && WidthsFrom(c, shape, boxes, traversal, k + 1, widths)
    ensures WidthsFrom(c, shape, boxes, traversal, k, r)
  {
    var node := traversal[k];
    BackwardOrder(c, shape, traversal, k);
    var edges := c.children[node];
    DistinctChildren(c, shape, node);
    forall i | 0 <= i < |edges|
      ensures edges[i].child in widths
    {
      assert Children(edges)[i] in Children(edges);
      assert edges[i].child in Elements(traversal[k + 1..]);
    }
    var spanned, total := SpanChildren(edges, widths);
    r := spanned[node := Max(boxes[node].width, total)];
    forall n | n in r
      ensures Sound(c, shape, boxes, r, n)
    {
      StaysSound(c, shape, boxes, node, widths, spanned, r, n);
    }
  }

  lemma DistinctChildren(c: Component, shape: Shape, node: nat)
    requires c.Tree(shape) && node in c.children
    ensures Distinct(Children(c.children[node]))
    ensures forall n | n in Children(c.children[node]) :: n in c.children && n != c.root && shape.parent[n] == node
  {
    forall i | 0 <= i < |c.children[node]|
      ensures var n := c.children[node][i].child;
              n in c.children && n != c.root && shape.parent[n] == node && shape.index[n] == i
    {
      assert c.HasEdge(node, i);
    }
  }

  lemma StaysSound(c: Component, shape: Shape, boxes: map<nat, Box>, node: nat,
                   widths: map<nat, nat>, spanned: map<nat, nat>, r: map<nat, nat>, n: nat)
    requires c.Tree(shape) && Sized(c, boxes) && node in c.children && node !in widths && n in r
    requires forall m {:trigger Sound(c, shape, boxes, widths, m)} | m in widths :: Sound(c, shape, boxes, widths, m)
    requires node != c.root ==> c.Hangs(shape, node) && shape.parent[node] !in r
    requires spanned.Keys == widths.Keys && Measured(c.children[node], widths) && Measured(c.children[node], spanned)
    requires forall i | 0 <= i < |c.children[node]| ::
               spanned[c.children[node][i].child]
                 == Max(widths[c.children[node][i].child], c.children[node][i].LabelWidth())
    requires forall m | m in widths && m !in Children(c.children[node]) :: spanned[m] == widths[m]
    requires r == spanned[node := Max(boxes[node].width, SpanSum(c.children[node], spanned))]
    ensures Sound(c, shape, boxes, r, n)
  {
    DistinctChildren(c, shape, node);
    if n == node {
      SpanFrame(c.children[node], spanned, r, |c.children[node]|);
    } else {
      assert Sound(c, shape, boxes, widths, n);
      DistinctChildren(c, shape, n);
      forall i | 0 <= i < |c.children[n]|
        ensures c.children[n][i].child in r && r[c.children[n][i].child] == widths[c.children[n][i].child]
      {
        assert Children(c.children[n])[i] == c.children[n][i].child;
      }
      SpanFrame(c.children[n], widths, r, |c.children[n]|);
      if n in Children(c.children[node]) {
        assert c.Hangs(shape, n);
        assert shape.parent[n] == node;
      } else if n != c.root {
        assert c.Hangs(shape, n);
        assert Children(c.children[shape.parent[n]])[shape.index[n]] == n;
      }
    }
  }

  method SubtreeWidths(c: Component, boxes: map<nat, Box>, ghost shape: Shape) returns (widths: map<nat, nat>)
    requires c.Tree(shape) && Sized(c, boxes)
    ensures Spanned(c, boxes, widths)
  {
    var traversal := Traverse(c, shape);
    widths := map[];
    var k := |traversal|;
    while k > 0
      invariant 0 <= k <= |traversal|
      invariant WidthsFrom(c, shape, boxes, traversal, k, widths)
    {
      k := k - 1;
      widths := MeasureNode(c, boxes, shape, traversal, k, widths);
    }
    assert traversal[0..] == traversal;
    AllSpanned(c, shape, boxes, widths);
  }

  lemma AllSpanned(c: Component, shape: Shape, boxes: map<nat, Box>, widths: map<nat, nat>)
    requires c.Tree(shape) && Sized(c, boxes) && widths.Keys == c.children.Keys
    requires forall n {:trigger Sound(c, shape, boxes, widths, n)} | n in widths :: Sound(c, shape, boxes, widths, n)
    ensures Spanned(c, boxes, widths)
  {
    assert Sound(c, shape, boxes, widths, c.root);
    forall n | n in c.children
      ensures Measured(c.children[n], widths)
    {
      assert Sound(c, shape, boxes, widths, n);
    }
    forall n, i | c.HasEdge(n, i)
      ensures var e := c.children[n][i];
              e.child in c.children && widths[e.child] == Max(OwnWidth(c, boxes, widths, e.child), e.LabelWidth())
    {
      assert Sound(c, shape, boxes, widths, c.children[n][i].child);
    }
  }

  // The placement.

  datatype Place = Place(node: nat, x: int, y: nat)

  /** A node on the stack with the left end of its span. */
  datatype Spot = Spot(node: nat, left: int)

  function Nodes(spots: seq<Spot>): (s: seq<nat>)
    ensures |s| == |spots| && forall i | 0 <= i < |s| :: s[i] == spots[i].node
  {
    seq(|spots|, i requires 0 <= i < |spots| => spots[i].node)
  }

  function Reversed(spots: seq<Spot>): (s: seq<Spot>)
    ensures |s| == |spots| && forall i | 0 <= i < |s| :: s[i] == spots[|spots| - 1 - i]
  {
    seq(|spots|, i requires 0 <= i < |spots| => spots[|spots| - 1 - i])
  }

  /** Height of each layer: that of its highest box. */
  ghost predicate LayerHeights(c: Component, depths: map<nat, nat>, boxes: map<nat, Box>, seen: set<nat>,
                               heights: map<nat, nat>)
  {
    && seen <= c.children.Keys && depths.Keys == boxes.Keys == c.children.Keys
    && (forall n | n in seen :: depths[n] in heights && boxes[n].height <= heights[depths[n]])
    && (forall d | d in heights :: exists n :: n in seen && depths[n] == d && boxes[n].height == heights[d])
  }

  lemma SeenMore(todo: set<nat>, seen: set<nat>, n: nat)
    requires n in todo
    ensures (todo - {n}) + (seen + {n}) == todo + seen
  {
  }

  ghost predicate LayersSeen(c: Component, depths: map<nat, nat>, boxes: map<nat, Box>, seen: set<nat>,
                             heights: map<nat, nat>, deepest: nat, node: nat) {
    && LayerHeights(c, depths, boxes, seen, heights)
    && (forall n | n in seen :: depths[n] <= deepest)
    && node in c.children && depths[node] == deepest
  }

  method MeasureOne(c: Component, depths: map<nat, nat>, boxes: map<nat, Box>, ghost seen: set<nat>,
                    heights: map<nat, nat>, deepest: nat, ghost node: nat, name: nat)
    returns (heights': map<nat, nat>, deepest': nat, ghost node': nat)
    requires LayersSeen(c, depths, boxes, seen, heights, deepest, node) && name in c.children
    ensures LayersSeen(c, depths, boxes, seen + {name}, heights', deepest', node')
  {
    var depth := depths[name];
    heights' := heights[depth := Max(if depth in heights then heights[depth] else 0, boxes[name].height)];
    OneMoreHeight(c, depths, boxes, seen, heights, name, heights');
    deepest', node' := deepest, node;
    if depth > deepest {
      deepest', node' := depth, name;
    }
  }

  method MeasureLayers(c: Component, boxes: map<nat, Box>, depths: map<nat, nat>)
    returns (heights: map<nat, nat>, deepest: nat, ghost deepestNode: nat)
    requires depths.Keys == boxes.Keys == c.children.Keys && c.root in c.children && depths[c.root] == 0
    ensures LayerHeights(c, depths, boxes, c.children.Keys, heights)
    ensures forall n | n in depths :: depths[n] <= deepest
    ensures deepestNode in c.children && depths[deepestNode] == deepest
  {
    heights, deepest, deepestNode := map[], 0, c.root;
    var todo := depths.Keys;
    ghost var seen: set<nat> := {};
    while todo != {}
      invariant todo + seen == c.children.Keys
      invariant LayersSeen(c, depths, boxes, seen, heights, deepest, deepestNode)
      decreases |todo|
    {
      var name :| name in todo;
      heights, deepest, deepestNode := MeasureOne(c, depths, boxes, seen, heights, deepest, deepestNode, name);
      SeenMore(todo, seen, name);
      todo, seen := todo - {name}, seen + {name};
    }
    assert seen == c.children.Keys;
  }

  lemma EveryLayerUsed(c: Component, shape: Shape, boxes: map<nat, Box>, heights: map<nat, nat>, deepest: nat)
    requires c.Tree(shape) && LayerHeights(c, shape.depth, boxes, c.children.Keys, heights) && deepest in c.children
    ensures forall d: nat | d <= shape.depth[deepest] :: d in heights
  {
    forall d: nat | d <= shape.depth[deepest]
      ensures d in heights
    {
      var n := AncestorAt(c, shape, deepest, d);
    }
  }

  lemma OneMoreHeight(c: Component, depths: map<nat, nat>, boxes: map<nat, Box>, seen: set<nat>, heights: map<nat, nat>,
                      name: nat, heights': map<nat, nat>)
    requires LayerHeights(c, depths, boxes, seen, heights) && name in c.children
    requires heights'
             == heights[depths[name] :=
             Max(if depths[name] in heights then heights[depths[name]] else 0, boxes[name].height)]
    ensures LayerHeights(c, depths, boxes, seen + {name}, heights')
  {
    forall d | d in heights'
      ensures exists n :: n in seen + {name} && depths[n] == d && boxes[n].height == heights'[d]
    {
      if d in heights && heights'[d] == heights[d] {
        var n :| n in seen && depths[n] == d && boxes[n].height == heights[d];
        assert n in seen + {name};
      } else {
        assert name in seen + {name} && depths[name] == d && boxes[name].height == heights'[d];
      }
    }
  }

  /** Every layer above a node has a node. */
  lemma {:induction false} AncestorAt(c: Component, shape: Shape, n: nat, d: nat) returns (a: nat)
    requires c.Tree(shape) && n in c.children && d <= shape.depth[n]
    ensures a in c.children && shape.depth[a] == d
    decreases shape.depth[n]
  {
    if d == shape.depth[n] {
      a := n;
    } else {
      OnlyRootAtZero(c, shape, n);
      assert c.Hangs(shape, n);
      a := AncestorAt(c, shape, shape.parent[n], d);
    }
  }

  /** Layer tops, one gap below the layer above; `rows` repeats the heights as a list. */
  method StackLayers(heights: map<nat, nat>, deepest: nat) returns (tops: seq<nat>, rows: seq<nat>)
    requires forall d: nat | d <= deepest :: d in heights
    ensures |tops| == |rows| == deepest + 1 && tops[0] == 0
    ensures forall d | 0 <= d <= deepest :: rows[d] == heights[d]
    ensures forall d | 0 < d <= deepest :: tops[d] == tops[d - 1] + rows[d - 1] + LAYER_GAP
  {
    tops, rows := [], [];
    var nextTop := 0;
    for depth := 0 to deepest + 1
      invariant |tops| == |rows| == depth
      invariant forall d | 0 <= d < depth :: rows[d] == heights[d]
      invariant depth > 0 ==> tops[0] == 0
      invariant forall d | 0 < d < depth :: tops[d] == tops[d - 1] + rows[d - 1] + LAYER_GAP
      invariant nextTop == if depth == 0 then 0 else tops[depth - 1] + rows[depth - 1] + LAYER_GAP
    {
      tops := tops + [nextTop];
      rows := rows + [heights[depth]];
      nextTop := nextTop + heights[depth] + LAYER_GAP;
    }
  }

  method SumSpans(edges: seq<Edge>, widths: map<nat, nat>) returns (total: nat)
    requires Measured(edges, widths)
    ensures total == SpanSum(edges, widths)
  {
    var sum := 0;
    for k := 0 to |edges|
      invariant SpanUpTo(edges, widths, k) == sum + SIBLING_GAP * if k > 0 then k - 1 else 0
    {
      sum := sum + widths[edges[k].child];
    }
    total := if edges == [] then 0 else sum + SIBLING_GAP * (|edges| - 1);
  }

  /** The children side by side, the first one at `start`. */
  function SpotsFrom(edges: seq<Edge>, widths: map<nat, nat>, start: int, k: nat): (spots: seq<Spot>)
    requires k <= |edges| && Measured(edges, widths)
    ensures |spots| == k
  {
    seq(k, i requires 0 <= i < k => Spot(edges[i].child, start + Offset(edges, widths, i)))
  }

  method ChildSpots(edges: seq<Edge>, widths: map<nat, nat>, start: int) returns (spots: seq<Spot>)
    requires Measured(edges, widths)
    ensures spots == SpotsFrom(edges, widths, start, |edges|)
  {
    spots := [];
    var childLeft := start;
    for k := 0 to |edges|
      invariant childLeft == start + Offset(edges, widths, k)
      invariant spots == SpotsFrom(edges, widths, start, k)
    {
      spots := spots + [Spot(edges[k].child, childLeft)];
      childLeft := childLeft + widths[edges[k].child] + SIBLING_GAP;
    }
  }

  /** Where the block of children of `n` begins. */
  function BlockStart(c: Component, widths: map<nat, nat>, n: nat, left: int): (r: int)
    requires n in c.children && n in widths && Measured(c.children[n], widths)
  {
    left + (widths[n] - SpanSum(c.children[n], widths)) / 2
  }

  /** The children of `n` stand where the placement equation puts them. */
  ghost predicate ChildrenPlaced(c: Component, widths: map<nat, nat>, lefts: map<nat, int>, n: nat) {
    && n in c.children && n in widths && n in lefts && Measured(c.children[n], widths)
    && forall i: nat {:trigger ChildAt(c, widths, lefts, n, lefts[n], i)} | i < |c.children[n]| ::
         ChildAt(c, widths, lefts, n, lefts[n], i)
  }

  /** The i-th child of `n` stands in its place of the block, if `n` begins at `left`. */
  ghost predicate ChildAt(c: Component, widths: map<nat, nat>, lefts: map<nat, int>, n: nat, left: int, i: nat)
    requires n in c.children && n in widths && Measured(c.children[n], widths) && i < |c.children[n]|
  {
    && c.children[n][i].child in lefts
    && lefts[c.children[n][i].child] == BlockStart(c, widths, n, left) + Offset(c.children[n], widths, i)
  }

  /** The stack agrees with the left ends. */
  ghost predicate StackLefts(stack: seq<Spot>, lefts: map<nat, int>) {
    forall i | 0 <= i < |stack| :: stack[i].node in lefts && lefts[stack[i].node] == stack[i].left
  }

  ghost predicate DonePlaced(c: Component, widths: map<nat, nat>, done: set<nat>, lefts: map<nat, int>) {
    forall n {:trigger ChildrenPlaced(c, widths, lefts, n)} | n in done :: ChildrenPlaced(c, widths, lefts, n)
  }

  /** Where the placement stands: `done` is placed, `stack` waits with its left ends. */
  ghost predicate Placing(c: Component, shape: Shape, widths: map<nat, nat>, done: set<nat>, stack: seq<Spot>,
                          lefts: map<nat, int>) {
    && Frontier(c, shape, done, Nodes(stack))
    && lefts.Keys == done + Elements(Nodes(stack))
    && c.root in lefts && lefts[c.root] == 0
    && StackLefts(stack, lefts)
    && DonePlaced(c, widths, done, lefts)
  }

  lemma ChildIndices(c: Component, shape: Shape, n: nat)
    requires c.Tree(shape) && n in c.children
    ensures forall i | 0 <= i < |c.children[n]| ::
              && c.children[n][i].child in shape.index && shape.index[c.children[n][i].child] == i
              && c.children[n][i].child in Elements(Children(c.children[n]))
  {
    forall i | 0 <= i < |c.children[n]|
      ensures c.children[n][i].child in shape.index && shape.index[c.children[n][i].child] == i
      ensures c.children[n][i].child in Elements(Children(c.children[n]))
    {
      assert c.HasEdge(n, i);
      assert Children(c.children[n])[i] == c.children[n][i].child;
    }
  }

  /** The left ends of the children of `n`. */
  ghost function ChildLefts(c: Component, shape: Shape, widths: map<nat, nat>, n: nat, left: int): (m: map<nat, int>)
    requires c.Tree(shape) && n in c.children && n in widths && Measured(c.children[n], widths)
    ensures m.Keys == Elements(Children(c.children[n]))
    ensures forall i: nat {:trigger ChildAt(c, widths, m, n, left, i)} | i < |c.children[n]| ::
              ChildAt(c, widths, m, n, left, i)
  {
    var edges := c.children[n];
    ChildIndices(c, shape, n);
    map k | k in Elements(Children(edges)) :: BlockStart(c, widths, n, left) + Offset(edges, widths, shape.index[k])
  }

  lemma ReversedNodes(spots: seq<Spot>)
    requires Distinct(Nodes(spots))
    ensures Distinct(Nodes(Reversed(spots))) && Elements(Nodes(Reversed(spots))) == Elements(Nodes(spots))
  {
    forall n | n in Nodes(spots)
      ensures n in Nodes(Reversed(spots))
    {
      var i :| 0 <= i < |spots| && Nodes(spots)[i] == n;
      assert Nodes(Reversed(spots))[|spots| - 1 - i] == n;
    }
  }

  lemma NodesConcat(s: seq<Spot>, t: seq<Spot>)
    ensures Nodes(s + t) == Nodes(s) + Nodes(t)
  {
  }

  /** What popping `top` does to the frontier. */
  lemma PopFrontier(c: Component, shape: Shape, done: set<nat>, rest: seq<Spot>, top: Spot, spots: seq<Spot>)
    requires c.Tree(shape) && Frontier(c, shape, done, Nodes(rest + [top]))
    requires top.node in c.children && Nodes(spots) == Children(c.children[top.node])
    ensures Frontier(c, shape, done + {top.node}, Nodes(rest + Reversed(spots)))
    ensures top.node !in done
    ensures Elements(Nodes(rest + Reversed(spots))) == Elements(Nodes(rest)) + Elements(Nodes(spots))
    ensures Elements(Nodes(rest + [top])) == Elements(Nodes(rest)) + {top.node}
    ensures done + Elements(Nodes(rest + [top])) !! Elements(Nodes(spots))
    ensures |c.children.Keys - (done + {top.node})| < |c.children.Keys - done|
  {
    var node := top.node;
    NodesConcat(rest, [top]);
    NodesConcat(rest, Reversed(spots));
    assert Nodes([top]) == [node];
    Taken(Nodes(rest + [top]), node, Nodes(rest));
    FreshChildren(c, shape, done, Nodes(rest + [top]), node);
    ReversedNodes(spots);
    forall n | n in Nodes(Reversed(spots))
      ensures n !in Nodes(rest)
    {
      assert n in Elements(Nodes(Reversed(spots)));
      assert n in Nodes(spots);
    }
    DistinctConcat(Nodes(rest), Nodes(Reversed(spots)));
    Advance(c, shape, done, Nodes(rest + [top]), node, Nodes(rest), Nodes(rest + Reversed(spots)));
    assert c.children.Keys - done == c.children.Keys - (done + {node}) + {node};
  }

  /** Left ends of the nodes that still wait are kept, those of the new ones are the ones pushed. */
  lemma PopStackLefts(rest: seq<Spot>, top: Spot, spots: seq<Spot>, lefts: map<nat, int>, more: map<nat, int>)
    requires StackLefts(rest + [top], lefts) && StackLefts(spots, more) && more.Keys !! lefts.Keys
    ensures StackLefts(rest + Reversed(spots), lefts + more)
    ensures top.node in lefts && lefts[top.node] == top.left
  {
    var stack, next := rest + [top], rest + Reversed(spots);
    assert stack[|rest|] == top;
    forall i | 0 <= i < |next|
      ensures next[i].node in lefts + more && (lefts + more)[next[i].node] == next[i].left
    {
      if i < |rest| {
        assert next[i] == stack[i];
      } else {
        assert next[i] == spots[|spots| - 1 - (i - |rest|)];
      }
    }
  }

  lemma PopDonePlaced(c: Component, shape: Shape, widths: map<nat, nat>, done: set<nat>, lefts: map<nat, int>,
                      node: nat, more: map<nat, int>)
    requires c.Tree(shape) && DonePlaced(c, widths, done, lefts) && more.Keys !! lefts.Keys
    requires node in c.children && node in widths && Measured(c.children[node], widths) && node in lefts
    requires more == ChildLefts(c, shape, widths, node, lefts[node])
    ensures DonePlaced(c, widths, done + {node}, lefts + more)
  {
    forall n | n in done + {node}
      ensures ChildrenPlaced(c, widths, lefts + more, n)
    {
      assert n != node ==> ChildrenPlaced(c, widths, lefts, n);
      forall i: nat | i < |c.children[n]|
        ensures ChildAt(c, widths, lefts + more, n, lefts[n], i)
      {
        assert if n != node then ChildAt(c, widths, lefts, n, lefts[n], i)
               else ChildAt(c, widths, more, n, lefts[n], i);
      }
    }
  }

  lemma SpotsAgree(c: Component, shape: Shape, widths: map<nat, nat>, top: Spot, spots: seq<Spot>)
    requires c.Tree(shape) && top.node in c.children && top.node in widths && Measured(c.children[top.node], widths)
    requires spots
             == SpotsFrom(c.children[top.node], widths, BlockStart(c, widths, top.node, top.left),
             |c.children[top.node]|)
    ensures StackLefts(spots, ChildLefts(c, shape, widths, top.node, top.left))
    ensures Nodes(spots) == Children(c.children[top.node])
  {
    var more := ChildLefts(c, shape, widths, top.node, top.left);
    forall i | 0 <= i < |spots|
      ensures spots[i].node in more && more[spots[i].node] == spots[i].left
    {
      assert ChildAt(c, widths, more, top.node, top.left, i);
    }
  }

  /** Left ends of new nodes are added, none is changed. */
  lemma AddLefts(lefts: map<nat, int>, more: map<nat, int>, done: set<nat>, rest: set<nat>, node: nat)
    requires lefts.Keys == done + (rest + {node}) && more.Keys !! lefts.Keys
    ensures (lefts + more).Keys == done + {node} + (rest + more.Keys)
    ensures forall n | n in lefts :: n in lefts + more && (lefts + more)[n] == lefts[n]
  {
  }

  /** Placing `top` and putting its children on the stack. */
  lemma PlaceStep(c: Component, shape: Shape, widths: map<nat, nat>, done: set<nat>, lefts: map<nat, int>,
                  top: Spot, rest: seq<Spot>, spots: seq<Spot>, more: map<nat, int>)
    requires c.Tree(shape) && Placing(c, shape, widths, done, rest + [top], lefts)
    requires top.node in c.children && top.node in widths && Measured(c.children[top.node], widths)
    requires top.node in lefts && lefts[top.node] == top.left
    requires Nodes(spots) == Children(c.children[top.node]) && StackLefts(spots, more)
    requires more == ChildLefts(c, shape, widths, top.node, top.left)
    ensures Placing(c, shape, widths, done + {top.node}, rest + Reversed(spots), lefts + more)
    ensures top.node !in done && |c.children.Keys - (done + {top.node})| < |c.children.Keys - done|
    ensures forall n | n in lefts :: n in lefts + more && (lefts + more)[n] == lefts[n]
  {
    PopFrontier(c, shape, done, rest, top, spots);
    AddLefts(lefts, more, done, Elements(Nodes(rest)), top.node);
    PopStackLefts(rest, top, spots, lefts, more);
    PopDonePlaced(c, shape, widths, done, lefts, top.node, more);
  }

  function PlaceNodes(places: seq<Place>): (s: seq<nat>)
    ensures |s| == |places| && forall i | 0 <= i < |s| :: s[i] == places[i].node
  {
    seq(|places|, i requires 0 <= i < |places| => places[i].node)
  }

  /** A node's box, centred in its span on its layer. */
  ghost predicate At(shape: Shape, boxes: map<nat, Box>, widths: map<nat, nat>, lefts: map<nat, int>, tops: seq<nat>,
                     p: Place) {
    && p.node in lefts && p.node in widths && p.node in boxes && p.node in shape.depth && shape.depth[p.node] < |tops|
    && p.x == lefts[p.node] + (widths[p.node] - boxes[p.node].width) / 2 && p.y == tops[shape.depth[p.node]]
  }

  ghost predicate AllAt(shape: Shape, boxes: map<nat, Box>, widths: map<nat, nat>, lefts: map<nat, int>,
                        tops: seq<nat>, places: seq<Place>) {
    forall i | 0 <= i < |places| :: At(shape, boxes, widths, lefts, tops, places[i])
  }

  /** The placed nodes are the finished ones, each once and where it belongs. */
  ghost predicate PlacedOnce(shape: Shape, boxes: map<nat, Box>, widths: map<nat, nat>, lefts: map<nat, int>,
                             tops: seq<nat>,
                             places: seq<Place>, done: set<nat>) {
    AllAt(shape, boxes, widths, lefts, tops, places) && Distinct(PlaceNodes(places))
      && Elements(PlaceNodes(places)) == done
  }

  lemma OneMorePlace(shape: Shape, boxes: map<nat, Box>, widths: map<nat, nat>, lefts: map<nat, int>,
                     lefts': map<nat, int>,
                     tops: seq<nat>, places: seq<Place>, p: Place, done: set<nat>)
    requires PlacedOnce(shape, boxes, widths, lefts, tops, places, done) && At(shape, boxes, widths, lefts, tops, p)
    requires forall n | n in lefts :: n in lefts' && lefts'[n] == lefts[n]
    requires p.node !in done
    ensures PlacedOnce(shape, boxes, widths, lefts', tops, places + [p], done + {p.node})
  {
    assert PlaceNodes(places + [p]) == PlaceNodes(places) + [p.node];
    DistinctConcat(PlaceNodes(places), [p.node]);
    forall i | 0 <= i < |places + [p]|
      ensures At(shape, boxes, widths, lefts', tops, (places + [p])[i])
    {
      if i < |places| { assert At(shape, boxes, widths, lefts, tops, places[i]); }
    }
  }

  lemma FirstPlacing(c: Component, shape: Shape, widths: map<nat, nat>)
    requires c.Tree(shape)
    ensures Placing(c, shape, widths, {}, [Spot(c.root, 0)], map[c.root := 0])
  {
    FirstFrontier(c, shape);
    assert Nodes([Spot(c.root, 0)]) == [c.root];
  }

  lemma AllPlaced(c: Component, shape: Shape, widths: map<nat, nat>, done: set<nat>, lefts: map<nat, int>)
    requires c.Tree(shape) && Covers(c, widths) && Placing(c, shape, widths, done, [], lefts)
    ensures Placed(c, widths, lefts) && done == c.children.Keys
  {
    assert Nodes([]) == [];
    AllReached(c, shape, done);
    forall n, i | c.HasEdge(n, i)
      ensures c.children[n][i].child in lefts
      ensures lefts[c.children[n][i].child]
              == lefts[n] + (widths[n] - SpanSum(c.children[n], widths)) / 2 + Offset(c.children[n], widths, i)
    {
      assert ChildrenPlaced(c, widths, lefts, n);
      assert ChildAt(c, widths, lefts, n, lefts[n], i);
    }
  }

  lemma TopIsKnown(c: Component, shape: Shape, widths: map<nat, nat>, done: set<nat>, rest: seq<Spot>, top: Spot,
                   lefts: map<nat, int>)
    requires Covers(c, widths) && Placing(c, shape, widths, done, rest + [top], lefts)
    ensures top.node in c.children && top.node in widths && Measured(c.children[top.node], widths)
    ensures top.node in lefts && lefts[top.node] == top.left
  {
    assert (rest + [top])[|rest|] == top;
    assert Nodes(rest + [top])[|rest|] == top.node;
    assert top.node in Elements(Nodes(rest + [top]));
  }

  /** Where a node's box goes: centred in its span, on its layer. */
  function BoxPlace(c: Component, boxes: map<nat, Box>, widths: map<nat, nat>, depths: map<nat, nat>, tops: seq<nat>,
                    top: Spot): (r: Place)
    requires top.node in boxes && top.node in widths && top.node in depths && depths[top.node] < |tops|
  {
    Place(top.node, top.left + (widths[top.node] - boxes[top.node].width) / 2, tops[depths[top.node]])
  }

  /** Where the children of a node go: as a block, centred below it. */
  method SpotsBelow(c: Component, widths: map<nat, nat>, top: Spot) returns (spots: seq<Spot>)
    requires top.node in c.children && top.node in widths && Measured(c.children[top.node], widths)
    ensures spots == SpotsFrom(c.children[top.node], widths, BlockStart(c, widths, top.node, top.left),
                               |c.children[top.node]|)
  {
    var span: int, edges := widths[top.node], c.children[top.node];
    var childrenWidth: int := SumSpans(edges, widths);
    spots := ChildSpots(edges, widths, top.left + (span - childrenWidth) / 2);
  }

  lemma TopPlaced(c: Component, shape: Shape, widths: map<nat, nat>, done: set<nat>, lefts: map<nat, int>,
                  top: Spot, rest: seq<Spot>, spots: seq<Spot>)
    returns (lefts': map<nat, int>)
    requires c.Tree(shape) && Covers(c, widths) && Placing(c, shape, widths, done, rest + [top], lefts)
    requires top.node in c.children && top.node in widths && Measured(c.children[top.node], widths)
    requires top.node in lefts && lefts[top.node] == top.left
    requires spots == SpotsFrom(c.children[top.node], widths, BlockStart(c, widths, top.node, top.left),
                                |c.children[top.node]|)
    ensures Placing(c, shape, widths, done + {top.node}, rest + Reversed(spots), lefts')
    ensures top.node !in done && |c.children.Keys - (done + {top.node})| < |c.children.Keys - done|
    ensures forall n | n in lefts :: n in lefts' && lefts'[n] == lefts[n]
  {
    SpotsAgree(c, shape, widths, top, spots);
    var more := ChildLefts(c, shape, widths, top.node, top.left);
    PlaceStep(c, shape, widths, done, lefts, top, rest, spots, more);
    lefts' := lefts + more;
  }

  /** One turn of the placement loop. */
  method PlaceTop(c: Component, ghost shape: Shape, boxes: map<nat, Box>, widths: map<nat, nat>,
                  depths: map<nat, nat>, tops: seq<nat>,
                  rest: seq<Spot>, top: Spot, ghost lefts: map<nat, int>, ghost done: set<nat>)
    returns (place: Place, spots: seq<Spot>, ghost lefts': map<nat, int>)
    requires c.Tree(shape) && Covers(c, widths) && depths == shape.depth && boxes.Keys == c.children.Keys
    requires forall n | n in depths :: depths[n] < |tops|
    requires Placing(c, shape, widths, done, rest + [top], lefts)
    ensures place.node == top.node && top.node !in done && At(shape, boxes, widths, lefts, tops, place)
    ensures Placing(c, shape, widths, done + {top.node}, rest + Reversed(spots), lefts')
    ensures forall n | n in lefts :: n in lefts' && lefts'[n] == lefts[n]
    ensures |c.children.Keys - (done + {top.node})| < |c.children.Keys - done|
  {
    TopIsKnown(c, shape, widths, done, rest, top, lefts);
    place := BoxPlace(c, boxes, widths, depths, tops, top);
    spots := SpotsBelow(c, widths, top);
    lefts' := TopPlaced(c, shape, widths, done, lefts, top, rest, spots);
  }

  /** One turn of the placement loop, with the record of what is placed. */
  method PlaceNext(c: Component, ghost shape: Shape, boxes: map<nat, Box>, widths: map<nat, nat>,
                   depths: map<nat, nat>, tops: seq<nat>,
                   stack: seq<Spot>, places: seq<Place>, ghost lefts: map<nat, int>, ghost done: set<nat>)
    returns (stack': seq<Spot>, places': seq<Place>, ghost lefts': map<nat, int>, ghost done': set<nat>)
    requires c.Tree(shape) && Covers(c, widths) && depths == shape.depth && boxes.Keys == c.children.Keys && stack != []
    requires forall n | n in depths :: depths[n] < |tops|
    requires Placing(c, shape, widths, done, stack, lefts)
             && PlacedOnce(shape, boxes, widths, lefts, tops, places, done)
    ensures Placing(c, shape, widths, done', stack', lefts')
            && PlacedOnce(shape, boxes, widths, lefts', tops, places', done')
    ensures |c.children.Keys - done'| < |c.children.Keys - done|
  {
    var top, rest := stack[|stack| - 1], stack[..|stack| - 1];
    SplitLast(stack);
    var place, spots;
    place, spots, lefts' := PlaceTop(c, shape, boxes, widths, depths, tops, rest, top, lefts, done);
    OneMorePlace(shape, boxes, widths, lefts, lefts', tops, places, place, done);
    places', stack', done' := places + [place], rest + Reversed(spots), done + {top.node};
  }

  method PlaceAll(c: Component, ghost shape: Shape, boxes: map<nat, Box>, widths: map<nat, nat>,
                  depths: map<nat, nat>, tops: seq<nat>)
    returns (places: seq<Place>, ghost lefts: map<nat, int>)
    requires c.Tree(shape) && Covers(c, widths) && depths == shape.depth && boxes.Keys == c.children.Keys
    requires forall n | n in depths :: depths[n] < |tops|
    ensures Placed(c, widths, lefts)
    ensures PlacedOnce(shape, boxes, widths, lefts, tops, places, c.children.Keys)
  {
    places, lefts := [], map[c.root := 0];
    var stack := [Spot(c.root, 0)];
    ghost var done: set<nat> := {};
    FirstPlacing(c, shape, widths);
    NonePlaced(shape, boxes, widths, lefts, tops);
    while stack != []
      invariant Placing(c, shape, widths, done, stack, lefts)
      invariant PlacedOnce(shape, boxes, widths, lefts, tops, places, done)
      decreases |c.children.Keys - done|
    {
      stack, places, lefts, done := PlaceNext(c, shape, boxes, widths, depths, tops, stack, places, lefts, done);
    }
    AllPlaced(c, shape, widths, done, lefts);
  }

  lemma NonePlaced(shape: Shape, boxes: map<nat, Box>, widths: map<nat, nat>, lefts: map<nat, int>, tops: seq<nat>)
    ensures PlacedOnce(shape, boxes, widths, lefts, tops, [], {})
  {
  }

  /** The places of a layout in which all equations hold. */
  ghost predicate IsPlacement(c: Component, boxes: map<nat, Box>, places: seq<Place>) {
    exists sheet {:trigger Arranged(c, boxes, places, sheet)} :: Arranged(c, boxes, places, sheet)
  }

  ghost predicate Arranged(c: Component, boxes: map<nat, Box>, places: seq<Place>, sheet: Sheet) {
    && sheet.Good() && sheet.c == c && sheet.boxes == boxes
    && PlacedOnce(sheet.shape, boxes, sheet.widths, sheet.lefts, sheet.tops, places, c.children.Keys)
  }

  lemma ArrangedOn(sheet: Sheet, places: seq<Place>)
    requires sheet.Good()
    requires PlacedOnce(sheet.shape, sheet.boxes, sheet.widths, sheet.lefts, sheet.tops, places, sheet.c.children.Keys)
    ensures IsPlacement(sheet.c, sheet.boxes, places)
  {
    assert Arranged(sheet.c, sheet.boxes, places, sheet);
  }

  /** Layers one below the other with a gap, each high enough for its boxes, and one for every depth. */
  ghost predicate LayersFit(c: Component, depths: map<nat, nat>, boxes: map<nat, Box>, tops: seq<nat>, rows: seq<nat>) {
    && |tops| == |rows| > 0 && tops[0] == 0 && depths.Keys == boxes.Keys == c.children.Keys
    && (forall d | 0 < d < |tops| :: tops[d] == tops[d - 1] + rows[d - 1] + LAYER_GAP)
    && (forall n | n in depths :: depths[n] < |tops| && boxes[n].height <= rows[depths[n]])
  }

  /** The layers: their heights, then their tops. */
  method LayOut(c: Component, boxes: map<nat, Box>, depths: map<nat, nat>, ghost shape: Shape)
    returns (tops: seq<nat>, rows: seq<nat>)
    requires c.Tree(shape) && depths == shape.depth && boxes.Keys == c.children.Keys
    ensures LayersFit(c, depths, boxes, tops, rows)
  {
    var heights, deepest, deepestNode := MeasureLayers(c, boxes, depths);
    EveryLayerUsed(c, shape, boxes, heights, deepestNode);
    tops, rows := StackLayers(heights, deepest);
  }

  /** The whole layout of a component: every node placed once, and the geometry of a good sheet. */
  method PlaceComponent(c: Component, boxes: map<nat, Box>, ghost shape: Shape)
    returns (places: seq<Place>, ghost sheet: Sheet)
    requires c.Tree(shape) && Sized(c, boxes)
    ensures IsPlacement(c, boxes, places)
    ensures sheet.Good() && sheet.c == c && sheet.boxes == boxes && sheet.shape == shape
    ensures PlacedOnce(shape, boxes, sheet.widths, sheet.lefts, sheet.tops, places, c.children.Keys)
  {
    var depths := TreeDepths(c, shape);
    var tops, rows := LayOut(c, boxes, depths, shape);
    var widths := SubtreeWidths(c, boxes, shape);
    ghost var lefts;
    places, lefts := PlaceAll(c, shape, boxes, widths, depths, tops);
    sheet := Sheet(c, shape, boxes, widths, lefts, rows, tops);
    GoodSheet(sheet);
    ArrangedOn(sheet, places);
  }

  lemma GoodSheet(sheet: Sheet)
    requires sheet.c.Tree(sheet.shape) && Spanned(sheet.c, sheet.boxes, sheet.widths)
    requires Placed(sheet.c, sheet.widths, sheet.lefts)
    requires LayersFit(sheet.c, sheet.shape.depth, sheet.boxes, sheet.tops, sheet.heights)
    ensures sheet.Good()
  {
  }
}
