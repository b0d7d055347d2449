/** The display forest of a plan: one breadth-first tree a component, and the links that no tree uses. */
module Forest {
  import opened BreadthFirst
  import opened DisplayTree
  import opened Members
  import opened Multigraph
  import opened SpanningTree
  import opened Worklist

  /** A tree and, by number and in link order, the other links among its nodes. */
  datatype DisplayComponent = DisplayComponent(tree: Component, cross: seq<nat>)

  predicate Increasing(s: seq<nat>) {
    forall i, j | 0 <= i < j < |s| :: s[i] < s[j]
  }

  ghost predicate IsCross(g: Graph, tree: Component, k: nat) {
    k < |g.links| && !UsesLink(tree, k) && g.links[k].left.node in tree.children
      && g.links[k].right.node in tree.children
  }

  /** What the display of one component promises. */
  ghost predicate GoodComponent(g: Graph, order: map<nat, nat>, d: DisplayComponent, shape: Shape) {
    && d.tree.Tree(shape) && Genuine(g, d.tree) && g.Closed(d.tree.children.Keys)
    && d.tree.children.Keys <= g.NodeSet() <= order.Keys
    && (forall n | n in d.tree.children :: Preferred(g, order, d.tree.root, n))
    && (forall n {:trigger shape.depth[n]} | n in d.tree.children :: Distance(g, d.tree.root, n, shape.depth[n]))
    && Increasing(d.cross) && forall k: nat {:trigger IsCross(g, d.tree, k)} :: k in d.cross <==> IsCross(g, d.tree, k)
  }

  ghost predicate Apart(forest: seq<DisplayComponent>) {
    forall i, j | 0 <= i < j < |forest| :: forest[i].tree.children.Keys !! forest[j].tree.children.Keys
  }

  ghost predicate InSome(forest: seq<DisplayComponent>, n: nat) {
    exists i :: 0 <= i < |forest| && n in forest[i].tree.children
  }

  ghost predicate AllGood(g: Graph, order: map<nat, nat>, forest: seq<DisplayComponent>, shapes: seq<Shape>) {
    |shapes| == |forest| && forall i | 0 <= i < |forest| :: GoodComponent(g, order, forest[i], shapes[i])
  }

  ghost predicate TurnAt(g: Graph, forest: seq<DisplayComponent>, i: int)
    requires 0 <= i < |forest|
  {
    InTurn(g, forest[i].tree)
  }

  /** Every tree has the edges and the order of children that its breadth-first search gives. */
  ghost predicate AllInTurn(g: Graph, forest: seq<DisplayComponent>) {
    forall i {:trigger TurnAt(g, forest, i)} | 0 <= i < |forest| :: TurnAt(g, forest, i)
  }

  lemma TurnAppend(g: Graph, forest: seq<DisplayComponent>, d: DisplayComponent)
    requires AllInTurn(g, forest) && InTurn(g, d.tree)
    ensures AllInTurn(g, forest + [d])
  {
    forall i | 0 <= i < |forest + [d]|
      ensures TurnAt(g, forest + [d], i)
    {
      assert i < |forest| ==> TurnAt(g, forest, i);
    }
  }

  /** Components come in the order of their earliest nodes: `starts[i]` is that of the i-th. */
  ghost predicate InOrder(g: Graph, order: map<nat, nat>, forest: seq<DisplayComponent>, starts: seq<nat>) {
    && |starts| == |forest| && g.NodeSet() <= order.Keys
    && (forall i | 0 <= i < |starts| :: starts[i] < |g.nodes| && g.nodes[starts[i]] in forest[i].tree.children)
    && (forall i, j, n | 0 <= i <= j < |forest| && n in forest[j].tree.children && n in order :: starts[i] <= order[n])
  }

  ghost predicate NoneBeforeStarts(order: map<nat, nat>, starts: seq<nat>, remaining: set<nat>) {
    forall i, n | 0 <= i < |starts| && n in remaining && n in order :: starts[i] <= order[n]
  }

  /** The forest over the nodes that are not `remaining`. */
  ghost predicate ForestSoFar(g: Graph, order: map<nat, nat>, forest: seq<DisplayComponent>, shapes: seq<Shape>,
                              starts: seq<nat>,
                              remaining: set<nat>) {
    && AllGood(g, order, forest, shapes) && Apart(forest) && InOrder(g, order, forest, starts) && AllInTurn(g, forest)
    && remaining <= g.NodeSet() && g.Closed(remaining)
    && NoneBeforeStarts(order, starts, remaining)
    && forall n {:trigger InSome(forest, n)} | n in g.NodeSet() :: n in remaining <==> !InSome(forest, n)
  }

  /** No node before the t-th is left. */
  ghost predicate NoneBefore(order: map<nat, nat>, remaining: set<nat>, t: nat) {
    forall n | n in remaining :: n in order && t <= order[n]
  }

  method FilterCross(g: Graph, tree: Component, treeLinks: set<nat>) returns (cross: seq<nat>)
    requires RecordsLinks(tree, treeLinks)
    ensures Increasing(cross) && forall k: nat {:trigger IsCross(g, tree, k)} :: k in cross <==> IsCross(g, tree, k)
  {
    cross := [];
    for k := 0 to |g.links|
      invariant Increasing(cross) && forall l | l in cross :: l < k
      invariant forall l: nat {:trigger IsCross(g, tree, l)} | l < k :: l in cross <==> IsCross(g, tree, l)
    {
      assert k in treeLinks <==> UsesLink(tree, k);
      if k !in treeLinks && g.links[k].left.node in tree.children && g.links[k].right.node in tree.children {
        assert forall i | 0 <= i < |cross| :: cross[i] in cross;
        cross := cross + [k];
      }
    }
  }

  /** Node numbers by name. */
  method Numbering(g: Graph) returns (order: map<nat, nat>)
    requires g.WellFormed()
    ensures order.Keys == g.NodeSet() && forall i | 0 <= i < |g.nodes| :: order[g.nodes[i]] == i
  {
    order := map[];
    for i := 0 to |g.nodes|
      invariant order.Keys == set n | n in g.nodes[..i]
      invariant forall j | 0 <= j < i :: g.nodes[j] in g.nodes[..i] && order[g.nodes[j]] == j
    {
      assert g.nodes[..i + 1] == g.nodes[..i] + [g.nodes[i]];
      order := order[g.nodes[i] := i];
    }
    assert g.nodes[..|g.nodes|] == g.nodes;
  }

  method BuildComponent(g: Graph, adjacency: map<nat, seq<Hop>>, order: map<nat, nat>, first: nat, available: set<nat>)
    returns (d: DisplayComponent, remaining: set<nat>, ghost shape: Shape)
    requires g.WellFormed() && adjacency.Keys == order.Keys == g.NodeSet()
    requires forall n | n in adjacency :: adjacency[n] == g.Adjacent(n)
    requires first in available && available <= g.NodeSet() && g.Closed(available)
    ensures GoodComponent(g, order, d, shape) && InTurn(g, d.tree) && g.Closed(remaining)
    ensures first in d.tree.children && d.tree.children.Keys !! remaining
            && d.tree.children.Keys + remaining == available
  {
    var members;
    members, remaining := FindMembers(g, adjacency, available, first);
    assert first in Elements(members);
    var root := ChooseRoot(g, adjacency, order, members);
    assert root in Elements(members);
    var tree, treeLinks;
    tree, treeLinks, shape := GrowTree(g, adjacency, Elements(members), root, first);
    forall n | n in tree.children
      ensures Distance(g, root, n, shape.depth[n])
    {
      DepthIsDistance(g, tree, shape, n);
    }
    var cross := FilterCross(g, tree, treeLinks);
    d := DisplayComponent(tree, cross);
  }

  lemma PartitionAppend(g: Graph, forest: seq<DisplayComponent>, d: DisplayComponent, available: set<nat>,
                        remaining: set<nat>)
    requires available <= g.NodeSet()
    requires forall n {:trigger InSome(forest, n)} | n in g.NodeSet() :: n in available <==> !InSome(forest, n)
    requires d.tree.children.Keys !! remaining && d.tree.children.Keys + remaining == available
    ensures forall n {:trigger InSome(forest + [d], n)} | n in g.NodeSet() :: n in remaining <==>
              !InSome(forest + [d], n)
  {
    var longer := forest + [d];
    assert longer[|forest|] == d;
    forall n | n in g.NodeSet()
      ensures n in remaining <==> !InSome(longer, n)
    {
      assert n in available <==> !InSome(forest, n);
      if InSome(forest, n) {
        var i :| 0 <= i < |forest| && n in forest[i].tree.children;
        assert longer[i] == forest[i];
      }
    }
  }

  lemma ApartAppend(g: Graph, forest: seq<DisplayComponent>, d: DisplayComponent, available: set<nat>)
    requires Apart(forest) && available <= g.NodeSet() && d.tree.children.Keys <= available
    requires forall n {:trigger InSome(forest, n)} | n in g.NodeSet() :: n in available <==> !InSome(forest, n)
    ensures Apart(forest + [d])
  {
    forall i | 0 <= i < |forest|
      ensures forest[i].tree.children.Keys !! d.tree.children.Keys
    {
      forall n | n in d.tree.children
        ensures n !in forest[i].tree.children
      {
        assert !InSome(forest, n);
      }
    }
  }

  lemma OrderedAppend(g: Graph, order: map<nat, nat>, forest: seq<DisplayComponent>, starts: seq<nat>, t: nat,
                      d: DisplayComponent,
                      available: set<nat>)
    requires InOrder(g, order, forest, starts) && t < |g.nodes| && g.nodes[t] in d.tree.children
    requires d.tree.children.Keys <= available
    requires NoneBefore(order, available, t) && NoneBeforeStarts(order, starts, available)
    requires g.nodes[t] in available && order[g.nodes[t]] == t
    ensures InOrder(g, order, forest + [d], starts + [t])
    ensures NoneBeforeStarts(order, starts + [t], available)
  {
  }

  lemma OneMoreComponent(g: Graph, order: map<nat, nat>, forest: seq<DisplayComponent>, shapes: seq<Shape>,
                         starts: seq<nat>,
                         available: set<nat>, t: nat, d: DisplayComponent, shape: Shape, remaining: set<nat>)
    requires ForestSoFar(g, order, forest, shapes, starts, available)
    requires t < |g.nodes| && g.nodes[t] in d.tree.children && g.nodes[t] in order && order[g.nodes[t]] == t
    requires NoneBefore(order, available, t)
    requires GoodComponent(g, order, d, shape) && InTurn(g, d.tree) && g.Closed(remaining)
    requires d.tree.children.Keys !! remaining && d.tree.children.Keys + remaining == available
    ensures ForestSoFar(g, order, forest + [d], shapes + [shape], starts + [t], remaining)
  {
    assert g.nodes[t] in available;
    PartitionAppend(g, forest, d, available, remaining);
    ApartAppend(g, forest, d, available);
    OrderedAppend(g, order, forest, starts, t, d, available);
    GoodAppend(g, order, forest, shapes, d, shape);
    TurnAppend(g, forest, d);
  }

  lemma GoodAppend(g: Graph, order: map<nat, nat>, forest: seq<DisplayComponent>, shapes: seq<Shape>,
                   d: DisplayComponent, shape: Shape)
    requires AllGood(g, order, forest, shapes) && GoodComponent(g, order, d, shape)
    ensures AllGood(g, order, forest + [d], shapes + [shape])
  {
  }

  /** One turn of the outer loop, for a node that is in no component yet. */
  method NextComponent(g: Graph, adjacency: map<nat, seq<Hop>>, order: map<nat, nat>, t: nat,
                       forest: seq<DisplayComponent>, available: set<nat>,
                       ghost shapes: seq<Shape>, ghost starts: seq<nat>)
    returns (forest': seq<DisplayComponent>, remaining: set<nat>, ghost shapes': seq<Shape>, ghost starts': seq<nat>)
    requires g.WellFormed() && adjacency.Keys == order.Keys == g.NodeSet()
    requires forall n | n in adjacency :: adjacency[n] == g.Adjacent(n)
    requires t < |g.nodes| && g.nodes[t] in available && order[g.nodes[t]] == t
    requires ForestSoFar(g, order, forest, shapes, starts, available) && NoneBefore(order, available, t)
    ensures ForestSoFar(g, order, forest', shapes', starts', remaining)
    ensures remaining <= available && g.nodes[t] !in remaining
  {
    var d;
    ghost var shape;
    d, remaining, shape := BuildComponent(g, adjacency, order, g.nodes[t], available);
    OneMoreComponent(g, order, forest, shapes, starts, available, t, d, shape, remaining);
    forest', shapes', starts' := forest + [d], shapes + [shape], starts + [t];
  }

  lemma NoForest(g: Graph, order: map<nat, nat>)
    requires g.WellFormed() && order.Keys == g.NodeSet()
    ensures ForestSoFar(g, order, [], [], [], g.NodeSet())
  {
    forall n | n in g.NodeSet()
      ensures g.Neighbors(n) <= g.NodeSet()
    {
      NeighborsDeclared(g, n);
    }
  }

  /** A complete forest of the plan, in plan order. */
  ghost predicate IsForest(g: Graph, forest: seq<DisplayComponent>) {
    exists order: map<nat, nat>, shapes, starts {:trigger ForestSoFar(g, order, forest, shapes, starts, {})} ::
      && order.Keys == g.NodeSet() && (forall i | 0 <= i < |g.nodes| :: order[g.nodes[i]] == i)
      && ForestSoFar(g, order, forest, shapes, starts, {})
  }

  /**
   The display forest. Its components partition the nodes, each is a tree of all its members by hop
   distance from its best connected node, grown in turn and by the first links, and each keeps exactly the
   links that its tree leaves over.
   */
  method BuildForest(g: Graph)
    returns (forest: seq<DisplayComponent>, ghost shapes: seq<Shape>, ghost order: map<nat, nat>,
             ghost starts: seq<nat>)
    requires g.WellFormed()
    ensures IsForest(g, forest)
    ensures order.Keys == g.NodeSet() && forall i | 0 <= i < |g.nodes| :: order[g.nodes[i]] == i
    ensures ForestSoFar(g, order, forest, shapes, starts, {})
  {
    var numbers := Numbering(g);
    order := numbers;
    var adjacency := BuildAdjacency(g);
    var remaining := g.NodeSet();
    forest, shapes, starts := [], [], [];
    NoForest(g, order);
    for t := 0 to |g.nodes|
      invariant ForestSoFar(g, order, forest, shapes, starts, remaining)
      invariant NoneBefore(order, remaining, t)
    {
      var first := g.nodes[t];
      if first in remaining {
        forest, remaining, shapes, starts := NextComponent(g, adjacency, numbers, t, forest, remaining, shapes, starts);
      }
      LaterNodes(g, order, remaining, t);
    }
    NothingLeft(g, order, remaining);
  }

  /** A node that is not the t-th and not earlier is later. */
  lemma LaterNodes(g: Graph, order: map<nat, nat>, remaining: set<nat>, t: nat)
    requires g.WellFormed() && t < |g.nodes| && g.nodes[t] !in remaining && remaining <= g.NodeSet()
    requires order.Keys == g.NodeSet() && forall i | 0 <= i < |g.nodes| :: order[g.nodes[i]] == i
    requires NoneBefore(order, remaining, t)
    ensures NoneBefore(order, remaining, t + 1)
  {
    forall n | n in remaining
      ensures t + 1 <= order[n]
    {
      var i :| 0 <= i < |g.nodes| && g.nodes[i] == n;
      assert order[g.nodes[i]] == i;
    }
  }

  lemma NothingLeft(g: Graph, order: map<nat, nat>, remaining: set<nat>)
    requires remaining <= g.NodeSet() && order.Keys == g.NodeSet()
    requires forall i | 0 <= i < |g.nodes| :: order[g.nodes[i]] == i
    requires NoneBefore(order, remaining, |g.nodes|)
    ensures remaining == {}
  {
    forall n | n in g.NodeSet()
      ensures order[n] < |g.nodes|
    {
      var i :| 0 <= i < |g.nodes| && g.nodes[i] == n;
      assert order[g.nodes[i]] == i;
    }
  }

  /** How often the display shows link `k` in `d`: as a tree edge, as a cross-link. */
  ghost predicate Shows(d: DisplayComponent, k: nat) {
    UsesLink(d.tree, k) || k in d.cross
  }

  lemma ShownWithEnds(g: Graph, order: map<nat, nat>, d: DisplayComponent, shape: Shape, k: nat)
    requires GoodComponent(g, order, d, shape) && Shows(d, k)
    ensures k < |g.links| && g.links[k].left.node in d.tree.children && g.links[k].right.node in d.tree.children
    ensures k in d.cross <==> !UsesLink(d.tree, k)
  {
    assert k in d.cross <==> IsCross(g, d.tree, k);
    if UsesLink(d.tree, k) {
      var n, i :| d.tree.HasEdge(n, i) && d.tree.children[n][i].link == k;
      assert d.tree.children[n][i].child in d.tree.children;
    }
  }

  /**
   Every link is shown in exactly one component, either as a tree edge or as a cross-link. (Within a
   component it is one edge by LinkUsedOnce, or one entry because `cross` increases.)
   */
  lemma EveryLinkOnce(g: Graph, order: map<nat, nat>, forest: seq<DisplayComponent>, shapes: seq<Shape>,
                      starts: seq<nat>, k: nat)
    returns (at: nat)
    requires g.WellFormed() && ForestSoFar(g, order, forest, shapes, starts, {}) && k < |g.links|
    ensures at < |forest| && Shows(forest[at], k)
    ensures k in forest[at].cross <==> !UsesLink(forest[at].tree, k)
    ensures forall i | 0 <= i < |forest| && i != at :: !Shows(forest[i], k)
  {
    var left, right := g.links[k].left.node, g.links[k].right.node;
    assert left in g.NodeSet() && InSome(forest, left);
    at :| 0 <= at < |forest| && left in forest[at].tree.children;
    assert GoodComponent(g, order, forest[at], shapes[at]);
    NeighborsAreJoined(g, left, right);
    assert g.links[k].Joins(left, right);
    assert right in g.Neighbors(left);
    assert k in forest[at].cross <==> IsCross(g, forest[at].tree, k);
    ShownWithEnds(g, order, forest[at], shapes[at], k);
    forall i | 0 <= i < |forest| && i != at
      ensures !Shows(forest[i], k)
    {
      assert left in forest[at].tree.children.Keys && left !in forest[i].tree.children.Keys;
      if Shows(forest[i], k) {
        ShownWithEnds(g, order, forest[i], shapes[i], k);
      }
    }
  }

  /** Each node is in exactly one component. */
  lemma EveryNodeOnce(g: Graph, order: map<nat, nat>, forest: seq<DisplayComponent>, shapes: seq<Shape>,
                      starts: seq<nat>, n: nat)
    returns (at: nat)
    requires ForestSoFar(g, order, forest, shapes, starts, {}) && n in g.nodes
    ensures at < |forest| && n in forest[at].tree.children
    ensures forall i | 0 <= i < |forest| && i != at :: n !in forest[i].tree.children
  {
    assert n in g.NodeSet() && InSome(forest, n);
    at := OneOfThem(forest, n);
  }

  lemma OneOfThem(forest: seq<DisplayComponent>, n: nat) returns (at: nat)
    requires Apart(forest) && InSome(forest, n)
    ensures at < |forest| && n in forest[at].tree.children
    ensures forall i | 0 <= i < |forest| && i != at :: n !in forest[i].tree.children
  {
    at :| 0 <= at < |forest| && n in forest[at].tree.children;
    forall i | 0 <= i < |forest| && i != at
      ensures n !in forest[i].tree.children
    {
      assert n in forest[at].tree.children.Keys;
    }
  }
}
