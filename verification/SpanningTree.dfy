/** The second search of the forest: a breadth-first tree of one component, from its chosen root. */
module SpanningTree {
  import opened BreadthFirst
  import opened DisplayTree
  import opened Members
  import opened Multigraph
  import opened Worklist

  const ARROW := " \U{2194} "

  /** The edge as it is drawn from `parent` down to `child`. */
  function OrientedEdge(g: Graph, link: nat, parent: nat, child: nat): (r: Edge)
    requires link < |g.links|
  {
    var l := g.links[link];
    if l.left.node == parent && l.right.node == child
      then Edge(link, child, l.left.interface + ARROW + l.right.interface)
    else Edge(link, child, l.right.interface + ARROW + l.left.interface)
  }

  /** The text names the parent's interface first, whichever end of the link the parent is. */
  lemma OrientedText(g: Graph, link: nat, parent: nat, child: nat, from: End, to: End)
    requires link < |g.links| && g.links[link].Joins(parent, child) && parent != child
    requires {from, to} == {g.links[link].left, g.links[link].right} && from.node == parent && to.node == child
    ensures OrientedEdge(g, link, parent, child).text == from.interface + ARROW + to.interface
  {
    assert from in {g.links[link].left, g.links[link].right} && to in {g.links[link].left, g.links[link].right};
  }

  /** Every tree edge is a link of the plan between its two nodes, with that link's text. */
  ghost predicate Genuine(g: Graph, c: Component) {
    forall n, i {:trigger c.HasEdge(n, i)} | c.HasEdge(n, i) ::
      var e := c.children[n][i];
      e.link < |g.links| && g.links[e.link].Joins(n, e.child) && e == OrientedEdge(g, e.link, n, e.child)
  }

  /** A tree below the root over the nodes seen so far; the other members have no edges yet. */
  ghost predicate Partial(c: Component, shape: Shape, seen: set<nat>) {
    && shape.depth.Keys == seen && shape.parent.Keys == seen && shape.index.Keys == seen
    && seen <= c.children.Keys && c.root in seen && shape.depth[c.root] == 0
    && (forall n {:trigger c.Hangs(shape, n)} | n in seen && n != c.root :: c.Hangs(shape, n))
    && (forall n, i {:trigger c.HasEdge(n, i)} | c.HasEdge(n, i) :: EdgeFits(c, shape, n, i))
  }

  ghost predicate EdgeFits(c: Component, shape: Shape, n: nat, i: int)
    requires c.HasEdge(n, i)
  {
    var m := c.children[n][i].child;
    && m != c.root && n in shape.depth && m in shape.depth && m in shape.parent && m in shape.index
    && shape.depth[m] == shape.depth[n] + 1 && shape.parent[m] == n && shape.index[m] == i
  }

  ghost predicate UsesLink(c: Component, link: nat) {
    exists n, i :: c.HasEdge(n, i) && c.children[n][i].link == link
  }

  /** `treeLinks` is exactly the set of links of the tree edges. */
  ghost predicate RecordsLinks(c: Component, treeLinks: set<nat>) {
    && (forall n, i {:trigger c.HasEdge(n, i)} | c.HasEdge(n, i) :: c.children[n][i].link in treeLinks)
    && (forall k {:trigger UsesLink(c, k)} | k in treeLinks :: UsesLink(c, k))
  }

  function WithEdge(c: Component, parent: nat, edge: Edge): (r: Component)
    requires parent in c.children
  {
    Component(c.root, c.children[parent := c.children[parent] + [edge]])
  }

  function WithChild(c: Component, shape: Shape, parent: nat, child: nat): (r: Shape)
    requires parent in c.children && parent in shape.depth
  {
    Shape(shape.depth[child := shape.depth[parent] + 1], shape.parent[child := parent],
      shape.index[child := |c.children[parent]|])
  }

  lemma GrowsTree(c: Component, shape: Shape, seen: set<nat>, parent: nat, edge: Edge)
    requires Partial(c, shape, seen) && parent in seen && edge.child in c.children && edge.child !in seen
    ensures Partial(WithEdge(c, parent, edge), WithChild(c, shape, parent, edge.child), seen + {edge.child})
  {
    var c', shape' := WithEdge(c, parent, edge), WithChild(c, shape, parent, edge.child);
    forall n | n in seen + {edge.child} && n != c.root
      ensures c'.Hangs(shape', n)
    {
      if n != edge.child {
        assert c.Hangs(shape, n);
        assert c'.HasEdge(shape'.parent[n], shape'.index[n]);
      } else {
        assert c'.HasEdge(parent, |c.children[parent]|);
      }
    }
    forall n, i | c'.HasEdge(n, i)
      ensures EdgeFits(c', shape', n, i)
    {
      if !(n == parent && i == |c.children[parent]|) {
        assert c.HasEdge(n, i) && EdgeFits(c, shape, n, i);
      }
    }
  }

  lemma GrowsLinks(g: Graph, c: Component, treeLinks: set<nat>, parent: nat, hop: Hop)
    requires Genuine(g, c) && RecordsLinks(c, treeLinks)
    requires parent in c.children && hop.link < |g.links| && g.links[hop.link].Joins(parent, hop.node)
    ensures Genuine(g, WithEdge(c, parent, OrientedEdge(g, hop.link, parent, hop.node)))
    ensures RecordsLinks(WithEdge(c, parent, OrientedEdge(g, hop.link, parent, hop.node)), treeLinks + {hop.link})
  {
    var c' := WithEdge(c, parent, OrientedEdge(g, hop.link, parent, hop.node));
    forall n, i | c'.HasEdge(n, i)
      ensures c'.children[n][i].link in treeLinks + {hop.link}
      ensures var e := c'.children[n][i];
              e.link < |g.links| && g.links[e.link].Joins(n, e.child) && e == OrientedEdge(g, e.link, n, e.child)
    {
      if !(n == parent && i == |c.children[parent]|) {
        assert c.HasEdge(n, i);
      }
    }
    forall k | k in treeLinks + {hop.link}
      ensures UsesLink(c', k)
    {
      if k in treeLinks {
        assert UsesLink(c, k);
        var n, i :| c.HasEdge(n, i) && c.children[n][i].link == k;
        assert c'.HasEdge(n, i) && c'.children[n][i].link == k;
      } else {
        assert c'.HasEdge(parent, |c.children[parent]|);
      }
    }
  }

  // Breadth first: depths never differ by more than one along a link.

  /**
   The waiting nodes lie on at most two levels, the nearer ones first, and nothing finished lies deeper than the
   nearer level.
   */
  ghost predicate Levels(depth: map<nat, nat>, done: set<nat>, open: seq<nat>, base: nat) {
    && (forall n | n in done :: n in depth && depth[n] <= base)
    && (forall i | 0 <= i < |open| :: open[i] in depth && base <= depth[open[i]] <= base + 1)
    && (forall i, j | 0 <= i < j < |open| :: depth[open[i]] <= depth[open[j]])
  }

  lemma LevelsAppend(depth: map<nat, nat>, done: set<nat>, open: seq<nat>, base: nat, child: nat)
    requires Levels(depth, done, open, base) && child !in depth
    ensures Levels(depth[child := base + 1], done, open + [child], base)
  {
  }

  lemma LevelsNext(depth: map<nat, nat>, done: set<nat>, next: nat, rest: seq<nat>, base: nat)
    requires Levels(depth, done, [next] + rest, base)
    ensures next in depth && Levels(depth, done + {next}, rest, depth[next])
  {
    var open := [next] + rest;
    assert open[0] == next && forall i | 0 <= i < |rest| :: rest[i] == open[i + 1];
  }

  /** Every neighbour of `u` is known and at most one step further from the root. */
  ghost predicate Near(g: Graph, depth: map<nat, nat>, u: nat) {
    u in depth && forall v | v in g.Neighbors(u) :: v in depth && depth[v] <= depth[u] + 1
  }

  ghost predicate AllNear(g: Graph, depth: map<nat, nat>, done: set<nat>) {
    forall u {:trigger Near(g, depth, u)} | u in done :: Near(g, depth, u)
  }

  ghost predicate Extends(depth: map<nat, nat>, depth': map<nat, nat>) {
    depth.Keys <= depth'.Keys && forall n | n in depth :: depth'[n] == depth[n]
  }

  lemma StaysNear(g: Graph, depth: map<nat, nat>, depth': map<nat, nat>, done: set<nat>)
    requires AllNear(g, depth, done) && Extends(depth, depth')
    ensures AllNear(g, depth', done)
  {
    forall u | u in done
      ensures Near(g, depth', u)
    {
      assert Near(g, depth, u);
    }
  }

  ghost predicate TreeSoFar(g: Graph, c: Component, shape: Shape, treeLinks: set<nat>) {
    Partial(c, shape, shape.depth.Keys) && Genuine(g, c) && RecordsLinks(c, treeLinks)
  }

  /** What is seen is finished or waits, at the levels around `base`. */
  ghost predicate Waiting(depth: map<nat, nat>, done: set<nat>, open: seq<nat>, base: nat) {
    && depth.Keys == done + Elements(open) && Distinct(open) && done !! Elements(open)
    && Levels(depth, done, open, base)
  }

  /** The tree so far, with `open` waiting at the levels around `base`. */
  ghost predicate Growing(g: Graph, c: Component, shape: Shape, treeLinks: set<nat>, done: set<nat>, open: seq<nat>,
                          base: nat) {
    TreeSoFar(g, c, shape, treeLinks) && Waiting(shape.depth, done, open, base)
  }

  lemma WaitingAppend(depth: map<nat, nat>, done: set<nat>, open: seq<nat>, base: nat, child: nat)
    requires Waiting(depth, done, open, base) && child !in depth
    ensures Waiting(depth[child := base + 1], done, open + [child], base)
  {
    LevelsAppend(depth, done, open, base, child);
    ElementsAppend(open, child);
    assert forall i | 0 <= i < |open| :: open[i] in Elements(open);
  }

  lemma GrowsByHop(g: Graph, c: Component, shape: Shape, treeLinks: set<nat>, parent: nat, hop: Hop, c': Component,
                   shape': Shape)
    requires TreeSoFar(g, c, shape, treeLinks) && parent in shape.depth && parent in c.children
    requires hop.link < |g.links| && g.links[hop.link].Joins(parent, hop.node)
    requires hop.node in c.children && hop.node !in shape.depth
    requires c' == WithEdge(c, parent, OrientedEdge(g, hop.link, parent, hop.node))
             && shape' == WithChild(c, shape, parent, hop.node)
    ensures TreeSoFar(g, c', shape', treeLinks + {hop.link})
    ensures shape'.depth == shape.depth[hop.node := shape.depth[parent] + 1]
  {
    GrowsTree(c, shape, shape.depth.Keys, parent, OrientedEdge(g, hop.link, parent, hop.node));
    GrowsLinks(g, c, treeLinks, parent, hop);
    assert shape'.depth.Keys == shape.depth.Keys + {hop.node};
  }

  /** `c` and `shape` grew out of `old` and `before`, and the first `k` neighbours of the parent are in. */
  ghost predicate Hung(g: Graph, old': Component, before: Shape, c: Component, shape: Shape, treeLinks: set<nat>,
                       done: set<nat>,
                       open: seq<nat>, parent: nat, hops: seq<Hop>, k: nat) {
    && k <= |hops| && c.root == old'.root && c.children.Keys == old'.children.Keys
    && parent in before.depth && Extends(before.depth, shape.depth)
    && Growing(g, c, shape, treeLinks, done, open, before.depth[parent])
    && Targets(hops[..k]) <= shape.depth.Keys
  }

  lemma TargetsNext(hops: seq<Hop>, k: nat)
    requires k < |hops|
    ensures Targets(hops[..k + 1]) == Targets(hops[..k]) + {hops[k].node}
  {
    assert hops[..k + 1] == hops[..k] + [hops[k]];
  }

  lemma SkipHop(g: Graph, old': Component, before: Shape, c: Component, shape: Shape, treeLinks: set<nat>,
                done: set<nat>,
                open: seq<nat>, parent: nat, hops: seq<Hop>, k: nat)
    requires k < |hops| && Hung(g, old', before, c, shape, treeLinks, done, open, parent, hops, k)
    requires hops[k].node in done + Elements(open)
    ensures Hung(g, old', before, c, shape, treeLinks, done, open, parent, hops, k + 1)
  {
    TargetsNext(hops, k);
  }

  lemma TakeHop(g: Graph, old': Component, before: Shape, c: Component, shape: Shape, treeLinks: set<nat>,
                done: set<nat>,
                open: seq<nat>, parent: nat, hops: seq<Hop>, k: nat, c': Component, shape': Shape)
    requires k < |hops| && Hung(g, old', before, c, shape, treeLinks, done, open, parent, hops, k)
    requires parent in c.children && hops[k].node in c.children && parent in shape.depth && hops[k].link < |g.links|
    requires g.links[hops[k].link].Joins(parent, hops[k].node)
    requires hops[k].node !in done + Elements(open)
    requires c' == WithEdge(c, parent, OrientedEdge(g, hops[k].link, parent, hops[k].node))
    requires shape' == WithChild(c, shape, parent, hops[k].node)
    ensures Hung(g, old', before, c', shape', treeLinks + {hops[k].link}, done, open + [hops[k].node], parent, hops,
            k + 1)
  {
    var hop := hops[k];
    GrowsByHop(g, c, shape, treeLinks, parent, hop, c', shape');
    WaitingAppend(shape.depth, done, open, before.depth[parent], hop.node);
    TargetsNext(hops, k);
  }

  lemma ParentKnown(g: Graph, old': Component, before: Shape, c: Component, shape: Shape, treeLinks: set<nat>,
                    done: set<nat>,
                    open: seq<nat>, parent: nat, hops: seq<Hop>, k: nat)
    requires k < |hops| && Hung(g, old', before, c, shape, treeLinks, done, open, parent, hops, k)
    requires hops == g.Adjacent(parent) && g.Closed(old'.children.Keys)
    ensures parent in c.children && hops[k].node in c.children && parent in shape.depth && hops[k].link < |g.links|
    ensures g.links[hops[k].link].Joins(parent, hops[k].node)
  {
    KnownHop(g, c.children.Keys, parent, hops[k]);
  }

  /** The neighbours of nodes that are finished before the parent were all seen then. */
  lemma FreshToOthers(g: Graph, before: Shape, depth: map<nat, nat>, done: set<nat>, parent: nat, child: nat)
    requires AllNear(g, before.depth, done - {parent}) && Extends(before.depth, depth) && child !in depth
    ensures forall v | v in done && v != parent :: child !in g.Neighbors(v)
  {
    forall v | v in done && v != parent
      ensures child !in g.Neighbors(v)
    {
      assert Near(g, before.depth, v);
    }
  }

  /** A fresh hop is taken in turn. */
  lemma HopTurn(g: Graph, old': Component, before: Shape, c: Component, shape: Shape, treeLinks: set<nat>,
                done: set<nat>, open: seq<nat>, rank: map<nat, nat>, parent: nat, k: nat, c': Component)
    requires k < |g.Adjacent(parent)| && AllNear(g, before.depth, done - {parent})
    requires Hung(g, old', before, c, shape, treeLinks, done, open, parent, g.Adjacent(parent), k)
    requires MyTurn(g, c, rank, done, open, parent) && parent in c.children
    requires FromHops(c.children[parent], g.Adjacent(parent), k)
    requires var hop := g.Adjacent(parent)[k];
             && hop.node !in done + Elements(open) && hop.link < |g.links|
             && c' == WithEdge(c, parent, OrientedEdge(g, hop.link, parent, hop.node))
    ensures var hop := g.Adjacent(parent)[k];
            && MyTurn(g, c', rank[hop.node := |rank|], done, open + [hop.node], parent)
            && FromHops(c'.children[parent], g.Adjacent(parent), k + 1)
  {
    var hops := g.Adjacent(parent);
    var edge := OrientedEdge(g, hops[k].link, parent, hops[k].node);
    assert rank.Keys == shape.depth.Keys == done + Elements(open);
    FreshToOthers(g, before, shape.depth, done, parent, hops[k].node);
    forall j | 0 <= j < k
      ensures hops[j].node in rank
    {
      assert hops[..k][j] == hops[j] && hops[j].node in Targets(hops[..k]);
    }
    TakeTurn(g, c, c', rank, done, open, parent, k, edge);
    FromNextHop(c.children[parent], hops, k, edge);
  }

  /** The inner loop after `k` hops. */
  ghost predicate Hanging(g: Graph, old': Component, before: Shape, c: Component, shape: Shape, rank: map<nat, nat>,
                          seen: set<nat>, treeLinks: set<nat>, done: set<nat>, queue: seq<nat>, parent: nat, k: nat) {
    && Hung(g, old', before, c, shape, treeLinks, done, queue, parent, g.Adjacent(parent), k)
    && seen == done + Elements(queue)
    && MyTurn(g, c, rank, done, queue, parent) && FromHops(c.children[parent], g.Adjacent(parent), k)
  }

  lemma HangSkip(g: Graph, old': Component, before: Shape, c: Component, shape: Shape, rank: map<nat, nat>,
                 seen: set<nat>, treeLinks: set<nat>, done: set<nat>, queue: seq<nat>, parent: nat, k: nat, next: nat)
    requires Hanging(g, old', before, c, shape, rank, seen, treeLinks, done, queue, parent, k)
    requires k < |g.Adjacent(parent)| && g.Adjacent(parent)[k].node in seen && next == k + 1
    ensures Hanging(g, old', before, c, shape, rank, seen, treeLinks, done, queue, parent, next)
  {
    SkipHop(g, old', before, c, shape, treeLinks, done, queue, parent, g.Adjacent(parent), k);
    FromMoreHops(c.children[parent], g.Adjacent(parent), k);
  }

  lemma HangTake(g: Graph, old': Component, before: Shape, c: Component, shape: Shape, rank: map<nat, nat>,
                 seen: set<nat>, treeLinks: set<nat>, done: set<nat>, queue: seq<nat>, parent: nat, k: nat, next: nat,
                 hop: Hop, c': Component, shape': Shape)
    requires Hanging(g, old', before, c, shape, rank, seen, treeLinks, done, queue, parent, k)
    requires k < |g.Adjacent(parent)| && hop == g.Adjacent(parent)[k] && hop.node !in seen && next == k + 1
    requires g.Closed(old'.children.Keys) && AllNear(g, before.depth, done - {parent}) && parent in shape.depth
    requires hop.link < |g.links| && shape' == WithChild(c, shape, parent, hop.node)
    requires c' == WithEdge(c, parent, OrientedEdge(g, hop.link, parent, hop.node))
    ensures Hanging(g, old', before, c', shape', rank[hop.node := |rank|], seen + {hop.node}, treeLinks + {hop.link},
              done, queue + [hop.node], parent, next)
  {
    ParentKnown(g, old', before, c, shape, treeLinks, done, queue, parent, g.Adjacent(parent), k);
    HopTurn(g, old', before, c, shape, treeLinks, done, queue, rank, parent, k, c');
    TakeHop(g, old', before, c, shape, treeLinks, done, queue, parent, g.Adjacent(parent), k, c', shape');
    HangBoth(g, old', before, c', shape', rank[hop.node := |rank|], seen + {hop.node}, treeLinks + {hop.link}, done,
      queue, hop.node, parent, next);
  }

  lemma HangBoth(g: Graph, old': Component, before: Shape, c: Component, shape: Shape, rank: map<nat, nat>,
                 seen: set<nat>, treeLinks: set<nat>, done: set<nat>, queue: seq<nat>, child: nat, parent: nat, k: nat)
    requires Hung(g, old', before, c, shape, treeLinks, done, queue + [child], parent, g.Adjacent(parent), k)
    requires MyTurn(g, c, rank, done, queue + [child], parent)
    requires parent in c.children && FromHops(c.children[parent], g.Adjacent(parent), k)
    requires seen == done + Elements(queue) + {child}
    ensures Hanging(g, old', before, c, shape, rank, seen, treeLinks, done, queue + [child], parent, k)
  {
    ElementsAppend(queue, child);
  }

  lemma HopKnown(g: Graph, old': Component, before: Shape, c: Component, shape: Shape, rank: map<nat, nat>,
                 seen: set<nat>, treeLinks: set<nat>, done: set<nat>, queue: seq<nat>, parent: nat, k: nat)
    requires Hanging(g, old', before, c, shape, rank, seen, treeLinks, done, queue, parent, k)
    requires k < |g.Adjacent(parent)| && g.Closed(old'.children.Keys)
    ensures parent in c.children && parent in shape.depth && g.Adjacent(parent)[k].link < |g.links|
  {
    ParentKnown(g, old', before, c, shape, treeLinks, done, queue, parent, g.Adjacent(parent), k);
  }

  /** One hop: a neighbour that is not seen yet is hung below the parent. */
  method HangNext(g: Graph, hop: Hop, parent: nat, c: Component, seen: set<nat>, treeLinks: set<nat>, queue: seq<nat>,
                  ghost old': Component, ghost before: Shape, ghost shape: Shape, ghost done: set<nat>,
                  ghost rank: map<nat, nat>, ghost k: nat, ghost next: nat)
    returns (c': Component, seen': set<nat>, treeLinks': set<nat>, queue': seq<nat>, ghost shape': Shape,
             ghost rank': map<nat, nat>)
    requires g.Closed(old'.children.Keys) && AllNear(g, before.depth, done - {parent})
    requires k < |g.Adjacent(parent)| && hop == g.Adjacent(parent)[k] && next == k + 1
    requires Hanging(g, old', before, c, shape, rank, seen, treeLinks, done, queue, parent, k)
    ensures Hanging(g, old', before, c', shape', rank', seen', treeLinks', done, queue', parent, next)
  {
    c', seen', treeLinks', queue', shape', rank' := c, seen, treeLinks, queue, shape, rank;
    if hop.node in seen {
      HangSkip(g, old', before, c, shape, rank, seen, treeLinks, done, queue, parent, k, next);
    } else {
      HopKnown(g, old', before, c, shape, rank, seen, treeLinks, done, queue, parent, k);
      c' := WithEdge(c, parent, OrientedEdge(g, hop.link, parent, hop.node));
      seen', treeLinks', queue' := seen + {hop.node}, treeLinks + {hop.link}, queue + [hop.node];
      shape', rank' := WithChild(c, shape, parent, hop.node), rank[hop.node := |rank|];
      HangTake(g, old', before, c, shape, rank, seen, treeLinks, done, queue, parent, k, next, hop, c', shape');
    }
  }

  lemma HangFirst(g: Graph, parent: nat, c: Component, seen: set<nat>, treeLinks: set<nat>, queue: seq<nat>,
                  shape: Shape, done: set<nat>, rank: map<nat, nat>)
    requires parent in shape.depth && seen == done + Elements(queue)
    requires Growing(g, c, shape, treeLinks, done, queue, shape.depth[parent])
    requires MyTurn(g, c, rank, done, queue, parent) && c.children[parent] == []
    ensures Hanging(g, c, shape, c, shape, rank, seen, treeLinks, done, queue, parent, 0)
  {
  }

  /** The inner loop: hangs every unseen neighbour below `parent`, by the first link that leads there. */
  method HangChildren(g: Graph, hops: seq<Hop>, parent: nat, c: Component, seen: set<nat>, treeLinks: set<nat>,
                      queue: seq<nat>, ghost shape: Shape, ghost done: set<nat>, ghost rank: map<nat, nat>)
    returns (c': Component, seen': set<nat>, treeLinks': set<nat>, queue': seq<nat>, ghost shape': Shape,
             ghost rank': map<nat, nat>)
    requires g.Closed(c.children.Keys) && hops == g.Adjacent(parent)
    requires AllNear(g, shape.depth, done - {parent})
    requires Hanging(g, c, shape, c, shape, rank, seen, treeLinks, done, queue, parent, 0)
    ensures Hanging(g, c, shape, c', shape', rank', seen', treeLinks', done, queue', parent, |hops|)
  {
    c', seen', treeLinks', queue', shape', rank' := c, seen, treeLinks, queue, shape, rank;
    for k := 0 to |hops|
      invariant Hanging(g, c, shape, c', shape', rank', seen', treeLinks', done, queue', parent, k)
    {
      ghost var next := k + 1;
      c', seen', treeLinks', queue', shape', rank' :=
        HangNext(g, hops[k], parent, c', seen', treeLinks', queue', c, shape, shape', done, rank', k, next);
    }
  }

  lemma KnownHop(g: Graph, members: set<nat>, parent: nat, hop: Hop)
    requires g.Closed(members) && parent in members && hop in g.Adjacent(parent)
    ensures hop.node in members && hop.link < |g.links| && g.links[hop.link].Joins(parent, hop.node)
  {
    HopsAreLinks(g, parent, |g.links|, hop);
    assert hop.node in g.Neighbors(parent);
  }

  lemma AllWithinReach(g: Graph, old': Component, before: Shape, c: Component, shape: Shape, treeLinks: set<nat>,
                       done: set<nat>,
                       open: seq<nat>, parent: nat, hops: seq<Hop>)
    requires Hung(g, old', before, c, shape, treeLinks, done, open, parent, hops, |hops|) && hops == g.Adjacent(parent)
    ensures Near(g, shape.depth, parent)
  {
    assert hops[..|hops|] == hops;
  }

  lemma FirstGrowth(g: Graph, root: nat, members: set<nat>, c: Component)
    requires root in members && c == Component(root, map n | n in members :: [])
    ensures Growing(g, c, Shape(map[root := 0], map[root := root], map[root := 0]), {}, {}, [root], 0)
  {
    assert {} + Elements([root]) == {root};
  }

  lemma GrowthNext(g: Graph, c: Component, shape: Shape, treeLinks: set<nat>, done: set<nat>, parent: nat,
                   rest: seq<nat>, base: nat)
    requires Growing(g, c, shape, treeLinks, done, [parent] + rest, base)
    ensures parent in shape.depth && parent !in done && parent in c.children
    ensures Growing(g, c, shape, treeLinks, done + {parent}, rest, shape.depth[parent])
    ensures done + {parent} + Elements(rest) == done + Elements([parent] + rest)
    ensures |c.children.Keys - (done + {parent})| < |c.children.Keys - done|
  {
    Dequeued([], parent, rest);
    LevelsNext(shape.depth, done, parent, rest, base);
    assert done + {parent} + Elements(rest) == done + Elements([parent] + rest);
    assert c.children.Keys - done == c.children.Keys - (done + {parent}) + {parent};
  }

  /** The outer loop. */
  ghost predicate TreeGrows(g: Graph, root: nat, members: set<nat>, c: Component, shape: Shape, rank: map<nat, nat>,
                            seen: set<nat>, treeLinks: set<nat>, done: set<nat>, queue: seq<nat>, base: nat) {
    && c.root == root && c.children.Keys == members && seen == done + Elements(queue)
    && Growing(g, c, shape, treeLinks, done, queue, base)
    && AllNear(g, shape.depth, done) && Turn(g, c, rank, done, queue)
  }

  lemma TurnBegins(g: Graph, root: nat, members: set<nat>, c: Component, shape: Shape, rank: map<nat, nat>,
                   seen: set<nat>, treeLinks: set<nat>, done: set<nat>, parent: nat, rest: seq<nat>, base: nat)
    requires TreeGrows(g, root, members, c, shape, rank, seen, treeLinks, done, [parent] + rest, base)
    ensures parent in c.children && parent in shape.depth && |members - (done + {parent})| < |members - done|
    ensures Hanging(g, c, shape, c, shape, rank, seen, treeLinks, done + {parent}, rest, parent, 0)
    ensures AllNear(g, shape.depth, done + {parent} - {parent})
  {
    GrowthNext(g, c, shape, treeLinks, done, parent, rest, base);
    NextTurn(g, c, rank, done, parent, rest);
    assert done + {parent} - {parent} == done;
    HangFirst(g, parent, c, seen, treeLinks, rest, shape, done + {parent}, rank);
  }

  lemma TurnEnds(g: Graph, c: Component, before: Shape, c': Component, shape: Shape, rank: map<nat, nat>,
                 seen: set<nat>, treeLinks: set<nat>, done: set<nat>, queue: seq<nat>, parent: nat)
    requires AllNear(g, before.depth, done - {parent}) && parent in before.depth
    requires Hanging(g, c, before, c', shape, rank, seen, treeLinks, done, queue, parent, |g.Adjacent(parent)|)
    ensures TreeGrows(g, c.root, c.children.Keys, c', shape, rank, seen, treeLinks, done, queue, before.depth[parent])
  {
    AllWithinReach(g, c, before, c', shape, treeLinks, done, queue, parent, g.Adjacent(parent));
    StaysNear(g, before.depth, shape.depth, done - {parent});
  }

  /** One node's turn. */
  method GrowOnce(g: Graph, adjacency: map<nat, seq<Hop>>, ghost members: set<nat>, c: Component, seen: set<nat>,
                  treeLinks: set<nat>, queue: seq<nat>, ghost shape: Shape, ghost rank: map<nat, nat>,
                  ghost done: set<nat>, ghost base: nat)
    returns (c': Component, seen': set<nat>, treeLinks': set<nat>, queue': seq<nat>, ghost shape': Shape,
             ghost rank': map<nat, nat>, ghost done': set<nat>, ghost base': nat)
    requires g.Closed(members) && members <= adjacency.Keys && queue != []
    requires forall n | n in adjacency :: adjacency[n] == g.Adjacent(n)
    requires TreeGrows(g, c.root, members, c, shape, rank, seen, treeLinks, done, queue, base)
    ensures TreeGrows(g, c.root, members, c', shape', rank', seen', treeLinks', done', queue', base')
    ensures |members - done'| < |members - done|
  {
    var parent, rest := queue[0], queue[1..];
    SplitFirst(queue);
    TurnBegins(g, c.root, members, c, shape, rank, seen, treeLinks, done, parent, rest, base);
    done', base' := done + {parent}, shape.depth[parent];
    c', seen', treeLinks', queue', shape', rank' :=
      HangChildren(g, adjacency[parent], parent, c, seen, treeLinks, rest, shape, done', rank);
    TurnEnds(g, c, shape, c', shape', rank', seen', treeLinks', done', queue', parent);
  }

  /** The breadth-first tree. It reaches every member, and its depths are the distances from the root. */
  method GrowTree(g: Graph, adjacency: map<nat, seq<Hop>>, members: set<nat>, root: nat, ghost first: nat)
    returns (c: Component, treeLinks: set<nat>, ghost shape: Shape)
    requires g.WellFormed() && g.Closed(members) && members <= adjacency.Keys && root in members
    requires forall n | n in adjacency :: adjacency[n] == g.Adjacent(n)
    requires forall n {:trigger g.Reaches(first, n)} | n in members :: g.Reaches(first, n)
    ensures c.root == root && c.children.Keys == members && c.Tree(shape)
    ensures Genuine(g, c) && RecordsLinks(c, treeLinks)
    ensures AllNear(g, shape.depth, members) && InTurn(g, c)
  {
    c, treeLinks := Component(root, map n | n in members :: []), {};
    shape := Shape(map[root := 0], map[root := root], map[root := 0]);
    var seen, queue := {root}, [root];
    ghost var done: set<nat>, base: nat := {}, 0;
    ghost var rank: map<nat, nat> := map[root := 0];
    TreeBegins(g, root, members, c, shape, rank);
    while queue != []
      invariant TreeGrows(g, root, members, c, shape, rank, seen, treeLinks, done, queue, base)
      decreases |members - done|
    {
      c, seen, treeLinks, queue, shape, rank, done, base :=
        GrowOnce(g, adjacency, members, c, seen, treeLinks, queue, shape, rank, done, base);
    }
    TreeEnds(g, root, members, c, shape, rank, seen, treeLinks, done, base, first);
  }

  lemma TreeBegins(g: Graph, root: nat, members: set<nat>, c: Component, shape: Shape, rank: map<nat, nat>)
    requires root in members && c == Component(root, map n | n in members :: [])
    requires shape == Shape(map[root := 0], map[root := root], map[root := 0]) && rank == map[root := 0]
    ensures TreeGrows(g, root, members, c, shape, rank, {root}, {}, {}, [root], 0)
  {
    FirstGrowth(g, root, members, c);
    FirstTurn(g, c);
    assert {} + Elements([root]) == {root};
  }

  lemma TreeEnds(g: Graph, root: nat, members: set<nat>, c: Component, shape: Shape, rank: map<nat, nat>,
                 seen: set<nat>, treeLinks: set<nat>, done: set<nat>, base: nat, first: nat)
    requires TreeGrows(g, root, members, c, shape, rank, seen, treeLinks, done, [], base)
    requires forall n {:trigger g.Reaches(first, n)} | n in members :: g.Reaches(first, n)
    ensures c.root == root && c.children.Keys == members && c.Tree(shape) && Genuine(g, c)
    ensures RecordsLinks(c, treeLinks) && AllNear(g, shape.depth, members) && InTurn(g, c)
  {
    AllGrown(g, c, shape, treeLinks, done, base, first);
    LastTurn(g, c, rank, done);
  }

  /** What the search has seen is closed and holds the root, hence every member. */
  lemma AllGrown(g: Graph, c: Component, shape: Shape, treeLinks: set<nat>, done: set<nat>, base: nat, first: nat)
    requires Growing(g, c, shape, treeLinks, done, [], base) && AllNear(g, shape.depth, done)
    requires forall n {:trigger g.Reaches(first, n)} | n in c.children.Keys :: g.Reaches(first, n)
    ensures done == c.children.Keys && c.Tree(shape)
  {
    assert done + Elements([]) == done;
    assert g.Closed(done) by {
      forall n | n in done
        ensures g.Neighbors(n) <= done
      {
        assert Near(g, shape.depth, n);
      }
    }
    assert g.Reaches(first, c.root);
    ReachedFromInside(g, done, first, c.root);
    forall n | n in c.children.Keys
      ensures n in done
    {
      assert g.Reaches(first, n);
      ReachedFromInside(g, done, first, n);
    }
    forall n, i | c.HasEdge(n, i)
      ensures var m := c.children[n][i].child;
              m in c.children && m != c.root && shape.depth[m] == shape.depth[n] + 1 && shape.parent[m] == n
                && shape.index[m] == i
    {
      assert EdgeFits(c, shape, n, i);
    }
  }

  // Depth is hop distance.

  /** `d` is the least number of links on any walk from `u` to `v`. */
  ghost predicate Distance(g: Graph, u: nat, v: nat, d: nat) {
    && (exists path :: g.Connects(path, u, v) && |path| == d + 1)
    && (forall path {:trigger g.Connects(path, u, v)} | g.Connects(path, u, v) :: |path| >= d + 1)
  }

  lemma {:induction false} NoShortcut(g: Graph, depth: map<nat, nat>, path: seq<nat>, i: nat)
    requires AllNear(g, depth, depth.Keys) && g.Walk(path) && path[0] in depth && depth[path[0]] == 0 && i < |path|
    ensures path[i] in depth && depth[path[i]] <= i
  {
    if i > 0 {
      NoShortcut(g, depth, path, i - 1);
      assert g.Step(path, i - 1);
      assert Near(g, depth, path[i - 1]);
    }
  }

  lemma {:induction false} TreeWalk(g: Graph, c: Component, shape: Shape, n: nat) returns (path: seq<nat>)
    requires c.Tree(shape) && Genuine(g, c) && n in c.children
    ensures g.Connects(path, c.root, n) && |path| == shape.depth[n] + 1
    decreases shape.depth[n]
  {
    if n == c.root {
      path := [n];
    } else {
      assert c.Hangs(shape, n);
      var p, i := shape.parent[n], shape.index[n];
      assert c.HasEdge(p, i);
      path := TreeWalk(g, c, shape, p);
      NeighborsAreJoined(g, p, n);
      ExtendWalk(g, path, c.root, p, n);
      path := path + [n];
    }
  }

  /** Each node's tree depth is its hop distance from the root. */
  lemma DepthIsDistance(g: Graph, c: Component, shape: Shape, n: nat)
    requires c.Tree(shape) && Genuine(g, c) && AllNear(g, shape.depth, c.children.Keys) && n in c.children
    ensures Distance(g, c.root, n, shape.depth[n])
  {
    var path := TreeWalk(g, c, shape, n);
    forall other | g.Connects(other, c.root, n)
      ensures |other| >= shape.depth[n] + 1
    {
      NoShortcut(g, shape.depth, other, |other| - 1);
    }
  }

  /** No link is used by two tree edges: parent and child would have to be each other's parent. */
  lemma LinkUsedOnce(g: Graph, c: Component, shape: Shape, n: nat, i: nat, m: nat, j: nat)
    requires c.Tree(shape) && Genuine(g, c) && c.HasEdge(n, i) && c.HasEdge(m, j)
    requires c.children[n][i].link == c.children[m][j].link
    ensures n == m && i == j
  {
  }
}
