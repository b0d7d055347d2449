/** The order of the second search: who is seen first hangs first, and by the first link. */
module BreadthFirst {
  import opened DisplayTree
  import opened Multigraph
  import opened Worklist

  /** The first of the links between two nodes. */
  predicate FirstLink(g: Graph, link: nat, u: nat, v: nat) {
    link < |g.links| && g.links[link].Joins(u, v) && forall k | 0 <= k < link :: !g.links[k].Joins(u, v)
  }

  /** Of several links between parent and child the tree uses the first. */
  ghost predicate LeastLinks(g: Graph, c: Component) {
    forall n, i {:trigger c.HasEdge(n, i)} | c.HasEdge(n, i) ::
      FirstLink(g, c.children[n][i].link, n, c.children[n][i].child)
  }

  /** The children of a node are in the order of their links. */
  ghost predicate ByLink(c: Component) {
    forall n, i, j {:trigger c.HasEdge(n, i), c.HasEdge(n, j)} | c.HasEdge(n, i) && c.HasEdge(n, j) && i < j ::
      c.children[n][i].link < c.children[n][j].link
  }

  /** Of two edges the one whose parent comes first, or which comes first at its parent, has the earlier child. */
  ghost predicate PairAt(c: Component, rank: map<nat, nat>, n: nat, i: int, m: nat, j: int) {
    c.HasEdge(n, i) && c.HasEdge(m, j) && n in rank && m in rank && (rank[n] < rank[m] || (n == m && i < j)) ==>
      && c.children[n][i].child in rank && c.children[m][j].child in rank
      && rank[c.children[n][i].child] < rank[c.children[m][j].child]
  }

  ghost predicate Pairs(c: Component, rank: map<nat, nat>) {
    forall n, i, m, j {:trigger PairAt(c, rank, n, i, m, j)} :: PairAt(c, rank, n, i, m, j)
  }

  /** Different nodes have different places. */
  ghost predicate Places(rank: map<nat, nat>) {
    && (forall n, m | n in rank && m in rank && rank[n] == rank[m] :: n == m)
    && (forall n | n in rank :: rank[n] < |rank|)
  }

  ghost predicate Downwards(c: Component, rank: map<nat, nat>) {
    forall n, i {:trigger c.HasEdge(n, i)} | c.HasEdge(n, i) ::
      n in rank && c.children[n][i].child in rank && rank[n] < rank[c.children[n][i].child]
  }

  /** `rank` numbers the nodes of the tree breadth first. */
  ghost predicate BreadthFirstOrder(c: Component, rank: map<nat, nat>) {
    && rank.Keys == c.children.Keys && c.root in rank && rank[c.root] == 0
    && Places(rank) && Downwards(c, rank) && Pairs(c, rank)
  }

  ghost predicate NoneEarlier(g: Graph, c: Component, rank: map<nat, nat>, nodes: set<nat>, n: nat, i: int)
    requires c.HasEdge(n, i)
  {
    n in rank && forall v | v in nodes && c.children[n][i].child in g.Neighbors(v) :: v in rank && rank[n] <= rank[v]
  }

  /** The parent of a node is, of all its neighbours, the one that comes first. */
  ghost predicate EarliestParents(g: Graph, c: Component, rank: map<nat, nat>, nodes: set<nat>) {
    forall n, i {:trigger c.HasEdge(n, i)} | c.HasEdge(n, i) :: NoneEarlier(g, c, rank, nodes, n, i)
  }

  /** All of this of a tree. */
  ghost predicate InTurn(g: Graph, c: Component) {
    && LeastLinks(g, c) && ByLink(c)
    && exists rank {:trigger BreadthFirstOrder(c, rank)} ::
         BreadthFirstOrder(c, rank) && EarliestParents(g, c, rank, c.children.Keys)
  }

  // While the tree grows.

  /** Finished nodes come before waiting ones, and these in the order of the queue. */
  ghost predicate QueueRanked(rank: map<nat, nat>, done: set<nat>, queue: seq<nat>) {
    && rank.Keys == done + Elements(queue)
    && (forall n, i {:trigger Behind(rank, n, queue, i)} | n in done && 0 <= i < |queue| :: Behind(rank, n, queue, i))
    && (forall i, j {:trigger InLine(rank, queue, i, j)} | 0 <= i < j < |queue| :: InLine(rank, queue, i, j))
  }

  ghost predicate InLine(rank: map<nat, nat>, queue: seq<nat>, i: int, j: int)
    requires 0 <= i < j < |queue|
  {
    Behind(rank, queue[i], queue, j)
  }

  /** The i-th waiting node comes after `n`. */
  ghost predicate Behind(rank: map<nat, nat>, n: nat, queue: seq<nat>, i: int)
    requires 0 <= i < |queue|
  {
    n in rank && queue[i] in rank && rank[n] < rank[queue[i]]
  }

  ghost predicate OnlyBelow(c: Component, done: set<nat>) {
    forall n, i {:trigger c.HasEdge(n, i)} | c.HasEdge(n, i) :: n in done
  }

  /** The edges so far. */
  ghost predicate EdgesInTurn(g: Graph, c: Component, rank: map<nat, nat>, done: set<nat>) {
    && OnlyBelow(c, done) && Downwards(c, rank) && Pairs(c, rank)
    && LeastLinks(g, c) && ByLink(c) && EarliestParents(g, c, rank, done)
  }

  ghost predicate Turn(g: Graph, c: Component, rank: map<nat, nat>, done: set<nat>, queue: seq<nat>) {
    && c.root in rank && rank[c.root] == 0 && Places(rank) && QueueRanked(rank, done, queue)
    && EdgesInTurn(g, c, rank, done)
  }

  /** It is the turn of `parent`, the last of the finished nodes. */
  ghost predicate MyTurn(g: Graph, c: Component, rank: map<nat, nat>, done: set<nat>, queue: seq<nat>, parent: nat) {
    && Turn(g, c, rank, done, queue) && parent in c.children && parent in done && parent in rank
    && forall n | n in done && n in rank :: rank[n] <= rank[parent]
  }

  lemma FirstTurn(g: Graph, c: Component)
    requires c.root in c.children && forall n | n in c.children :: c.children[n] == []
    ensures Turn(g, c, map[c.root := 0], {}, [c.root])
  {
    forall n, i
      ensures !c.HasEdge(n, i)
    {
    }
    forall n, i, m, j
      ensures PairAt(c, map[c.root := 0], n, i, m, j)
    {
      assert !c.HasEdge(n, i);
    }
    assert {} + Elements([c.root]) == {c.root};
  }

  /** The first waiting node is finished next. */
  lemma NextTurn(g: Graph, c: Component, rank: map<nat, nat>, done: set<nat>, parent: nat, rest: seq<nat>)
    requires Turn(g, c, rank, done, [parent] + rest) && parent in c.children && parent !in done
    ensures MyTurn(g, c, rank, done + {parent}, rest, parent) && c.children[parent] == []
  {
    NextQueue(rank, done, parent, rest);
    NextParents(g, c, rank, done, parent);
    assert !c.HasEdge(parent, 0);
  }

  lemma NextQueue(rank: map<nat, nat>, done: set<nat>, parent: nat, rest: seq<nat>)
    requires QueueRanked(rank, done, [parent] + rest)
    ensures parent in rank && QueueRanked(rank, done + {parent}, rest)
    ensures forall n | n in done :: n in rank && rank[n] < rank[parent]
  {
    var open := [parent] + rest;
    assert open[0] == parent && forall i | 0 <= i < |rest| :: rest[i] == open[i + 1];
    assert parent in Elements(open);
    assert Elements(open) == {parent} + Elements(rest) by {
      assert forall n | n in open :: n == parent || n in rest;
    }
    forall n, i | n in done + {parent} && 0 <= i < |rest|
      ensures Behind(rank, n, rest, i)
    {
      if n in done {
        assert Behind(rank, n, open, i + 1);
      } else {
        assert InLine(rank, open, 0, i + 1);
      }
    }
    forall i, j | 0 <= i < j < |rest|
      ensures InLine(rank, rest, i, j)
    {
      assert InLine(rank, open, i + 1, j + 1);
    }
    forall n | n in done
      ensures n in rank && rank[n] < rank[parent]
    {
      assert Behind(rank, n, open, 0);
    }
  }

  lemma NextParents(g: Graph, c: Component, rank: map<nat, nat>, done: set<nat>, parent: nat)
    requires EarliestParents(g, c, rank, done) && parent in rank
    requires OnlyBelow(c, done) && forall n | n in done :: n in rank && rank[n] < rank[parent]
    ensures EarliestParents(g, c, rank, done + {parent})
  {
    forall n, i | c.HasEdge(n, i)
      ensures NoneEarlier(g, c, rank, done + {parent}, n, i)
    {
      assert NoneEarlier(g, c, rank, done, n, i);
    }
  }

  lemma {:induction false} HopsSorted(g: Graph, n: nat, k: nat, i: nat, j: nat)
    requires k <= |g.links| && i < j < |g.Hops(n, k)|
    ensures g.Hops(n, k)[i].link <= g.Hops(n, k)[j].link
    ensures g.Hops(n, k)[i].link == g.Hops(n, k)[j].link ==> g.Hops(n, k)[i].node == g.Hops(n, k)[j].node == n
  {
    var before := g.Hops(n, k - 1);
    if j < |before| {
      HopsSorted(g, n, k - 1, i, j);
      assert g.Hops(n, k)[i] == before[i] && g.Hops(n, k)[j] == before[j];
    } else if i < |before| {
      assert g.Hops(n, k)[i] == before[i] && before[i] in before;
      HopsAreLinks(g, n, k - 1, before[i]);
    }
  }

  /** A hop to a node that no earlier hop leads to is by the first link there. */
  lemma FreshHopIsFirst(g: Graph, n: nat, k: nat)
    requires k < |g.Adjacent(n)|
    requires forall j | 0 <= j < k :: g.Adjacent(n)[j].node != g.Adjacent(n)[k].node
    ensures FirstLink(g, g.Adjacent(n)[k].link, n, g.Adjacent(n)[k].node)
  {
    var hops := g.Adjacent(n);
    assert hops[k] in hops;
    HopsAreLinks(g, n, |g.links|, hops[k]);
    forall l | 0 <= l < hops[k].link
      ensures !g.links[l].Joins(n, hops[k].node)
    {
      if g.links[l].Joins(n, hops[k].node) {
        HopsAreLinks(g, n, |g.links|, Hop(l, hops[k].node));
        var j :| 0 <= j < |hops| && hops[j] == Hop(l, hops[k].node);
        if k < j { HopsSorted(g, n, |g.links|, k, j); }
      }
    }
  }

  ghost predicate CameFrom(edge: Edge, hops: seq<Hop>, k: nat) {
    exists j :: 0 <= j < k && j < |hops| && hops[j] == Hop(edge.link, edge.child)
  }

  /** The edges come from the first `k` hops. */
  ghost predicate FromHops(edges: seq<Edge>, hops: seq<Hop>, k: nat) {
    forall i {:trigger edges[i]} | 0 <= i < |edges| :: CameFrom(edges[i], hops, k)
  }

  lemma FromMoreHops(edges: seq<Edge>, hops: seq<Hop>, k: nat)
    requires FromHops(edges, hops, k)
    ensures FromHops(edges, hops, k + 1)
  {
    var next := k + 1;
    forall i | 0 <= i < |edges|
      ensures CameFrom(edges[i], hops, next)
    {
      assert CameFrom(edges[i], hops, k);
    }
  }

  lemma FromNextHop(edges: seq<Edge>, hops: seq<Hop>, k: nat, edge: Edge)
    requires k < |hops| && FromHops(edges, hops, k) && hops[k] == Hop(edge.link, edge.child)
    ensures FromHops(edges + [edge], hops, k + 1)
  {
    var more, next := edges + [edge], k + 1;
    FromMoreHops(edges, hops, k);
    forall i | 0 <= i < |more|
      ensures CameFrom(more[i], hops, next)
    {
      if i < |edges| {
        assert more[i] == edges[i];
      }
    }
  }

  lemma LinkBefore(g: Graph, parent: nat, edges: seq<Edge>, k: nat, i: nat)
    requires k < |g.Adjacent(parent)| && FromHops(edges, g.Adjacent(parent), k) && i < |edges|
    requires edges[i].child != parent
    ensures edges[i].link < g.Adjacent(parent)[k].link
  {
    var hops := g.Adjacent(parent);
    assert CameFrom(edges[i], hops, k);
    var j :| 0 <= j < k && j < |hops| && hops[j] == Hop(edges[i].link, edges[i].child);
    HopsSorted(g, parent, |g.links|, j, k);
  }

  /** A tree with one edge more, the last at its parent. */
  ghost predicate Grown(c: Component, c': Component, parent: nat, edge: Edge) {
    parent in c.children && c' == Component(c.root, c.children[parent := c.children[parent] + [edge]])
  }

  lemma GrownEdges(c: Component, c': Component, parent: nat, edge: Edge, n: nat, i: int)
    requires Grown(c, c', parent, edge)
    ensures c'.HasEdge(n, i) <==> c.HasEdge(n, i) || (n == parent && i == |c.children[parent]|)
    ensures c.HasEdge(n, i) ==> c'.children[n][i] == c.children[n][i]
    ensures n == parent && i == |c.children[parent]| ==> c'.children[n][i] == edge
  {
  }

  lemma GrownPairs(c: Component, c': Component, rank: map<nat, nat>, parent: nat, edge: Edge, done: set<nat>)
    requires Grown(c, c', parent, edge) && Places(rank) && Pairs(c, rank) && Downwards(c, rank)
    requires edge.child !in rank && OnlyBelow(c, done)
    requires parent in rank && done <= rank.Keys && forall n | n in done :: rank[n] <= rank[parent]
    ensures Pairs(c', rank[edge.child := |rank|]) && Downwards(c', rank[edge.child := |rank|])
  {
    var rank' := rank[edge.child := |rank|];
    forall n, i, m, j
      ensures PairAt(c', rank', n, i, m, j)
    {
      assert PairAt(c, rank, n, i, m, j);
      GrownEdges(c, c', parent, edge, n, i);
      GrownEdges(c, c', parent, edge, m, j);
    }
    forall n: nat, i | c'.HasEdge(n, i)
      ensures n in rank' && c'.children[n][i].child in rank' && rank'[n] < rank'[c'.children[n][i].child]
    {
      GrownEdges(c, c', parent, edge, n, i);
    }
  }

  lemma GrownLinks(g: Graph, c: Component, c': Component, parent: nat, edge: Edge)
    requires Grown(c, c', parent, edge) && LeastLinks(g, c) && ByLink(c) && FirstLink(g, edge.link, parent, edge.child)
    requires forall i | 0 <= i < |c.children[parent]| :: c.children[parent][i].link < edge.link
    ensures LeastLinks(g, c') && ByLink(c')
  {
    forall n, i | c'.HasEdge(n, i)
      ensures FirstLink(g, c'.children[n][i].link, n, c'.children[n][i].child)
    {
      GrownEdges(c, c', parent, edge, n, i);
    }
    forall n, i, j | c'.HasEdge(n, i) && c'.HasEdge(n, j) && i < j
      ensures c'.children[n][i].link < c'.children[n][j].link
    {
      GrownEdges(c, c', parent, edge, n, i);
      GrownEdges(c, c', parent, edge, n, j);
    }
  }

  lemma GrownParents(g: Graph, c: Component, c': Component, rank: map<nat, nat>, parent: nat, edge: Edge,
                     done: set<nat>)
    requires Grown(c, c', parent, edge) && EarliestParents(g, c, rank, done) && edge.child !in rank
    requires parent in rank && done <= rank.Keys
    requires forall v | v in done && v != parent :: edge.child !in g.Neighbors(v)
    ensures EarliestParents(g, c', rank[edge.child := |rank|], done)
  {
    var rank' := rank[edge.child := |rank|];
    forall n, i | c'.HasEdge(n, i)
      ensures NoneEarlier(g, c', rank', done, n, i)
    {
      GrownEdges(c, c', parent, edge, n, i);
      if c.HasEdge(n, i) { assert NoneEarlier(g, c, rank, done, n, i); }
    }
  }

  lemma RankedAppend(rank: map<nat, nat>, done: set<nat>, queue: seq<nat>, child: nat)
    requires Places(rank) && QueueRanked(rank, done, queue) && child !in rank
    ensures var rank' := rank[child := |rank|];
            Places(rank') && QueueRanked(rank', done, queue + [child])
  {
    PlacesAppend(rank, child);
    QueueAppend(rank, done, queue, child);
  }

  lemma PlacesAppend(rank: map<nat, nat>, child: nat)
    requires Places(rank) && child !in rank
    ensures Places(rank[child := |rank|])
  {
    var rank' := rank[child := |rank|];
    assert rank'.Keys == rank.Keys + {child} && |rank'.Keys| == |rank.Keys| + 1;
    assert |rank'| == |rank'.Keys| && |rank| == |rank.Keys|;
  }

  lemma QueueAppend(rank: map<nat, nat>, done: set<nat>, queue: seq<nat>, child: nat)
    requires (forall n | n in rank :: rank[n] < |rank|) && QueueRanked(rank, done, queue) && child !in rank
    ensures QueueRanked(rank[child := |rank|], done, queue + [child])
  {
    ElementsAppend(queue, child);
    var rank', queue' := rank[child := |rank|], queue + [child];
    forall n, i | n in done && 0 <= i < |queue'|
      ensures Behind(rank', n, queue', i)
    {
      assert i < |queue| ==> Behind(rank, n, queue, i);
      BehindAppend(rank, n, queue, child, i);
    }
    forall i, j | 0 <= i < j < |queue'|
      ensures InLine(rank', queue', i, j)
    {
      assert queue[i] in Elements(queue);
      assert j < |queue| ==> InLine(rank, queue, i, j);
      BehindAppend(rank, queue[i], queue, child, j);
    }
  }

  lemma BehindAppend(rank: map<nat, nat>, n: nat, queue: seq<nat>, child: nat, i: nat)
    requires n in rank && rank[n] < |rank| && child !in rank && i <= |queue|
    requires i < |queue| ==> Behind(rank, n, queue, i)
    ensures Behind(rank[child := |rank|], n, queue + [child], i)
  {
  }

  lemma TakeLink(g: Graph, c: Component, c': Component, parent: nat, k: nat, edge: Edge)
    requires Grown(c, c', parent, edge) && LeastLinks(g, c) && ByLink(c)
    requires k < |g.Adjacent(parent)| && g.Adjacent(parent)[k] == Hop(edge.link, edge.child)
    requires forall j | 0 <= j < k :: g.Adjacent(parent)[j].node != edge.child
    requires FromHops(c.children[parent], g.Adjacent(parent), k)
    requires forall i | 0 <= i < |c.children[parent]| :: c.children[parent][i].child != parent
    ensures LeastLinks(g, c') && ByLink(c')
  {
    FreshHopIsFirst(g, parent, k);
    forall i | 0 <= i < |c.children[parent]|
      ensures c.children[parent][i].link < edge.link
    {
      LinkBefore(g, parent, c.children[parent], k, i);
    }
    GrownLinks(g, c, c', parent, edge);
  }

  lemma TakeEdge(g: Graph, c: Component, c': Component, rank: map<nat, nat>, done: set<nat>, parent: nat, k: nat,
                 edge: Edge)
    requires EdgesInTurn(g, c, rank, done) && Places(rank) && Grown(c, c', parent, edge) && edge.child !in rank
    requires parent in rank && parent in done && done <= rank.Keys && forall n | n in done :: rank[n] <= rank[parent]
    requires forall v | v in done && v != parent :: edge.child !in g.Neighbors(v)
    requires k < |g.Adjacent(parent)| && g.Adjacent(parent)[k] == Hop(edge.link, edge.child)
    requires forall j | 0 <= j < k :: g.Adjacent(parent)[j].node in rank
    requires FromHops(c.children[parent], g.Adjacent(parent), k)
    ensures EdgesInTurn(g, c', rank[edge.child := |rank|], done)
  {
    NotItself(c, rank, parent);
    TakeLink(g, c, c', parent, k, edge);
    GrownPairs(c, c', rank, parent, edge, done);
    GrownParents(g, c, c', rank, parent, edge, done);
    GrownDone(c, c', parent, edge, done);
  }

  lemma NotItself(c: Component, rank: map<nat, nat>, parent: nat)
    requires Downwards(c, rank) && parent in c.children
    ensures forall i | 0 <= i < |c.children[parent]| :: c.children[parent][i].child != parent
  {
    forall i | 0 <= i < |c.children[parent]|
      ensures c.children[parent][i].child != parent
    {
      assert c.HasEdge(parent, i);
    }
  }

  /** Hanging a fresh node below the node whose turn it is. */
  lemma TakeTurn(g: Graph, c: Component, c': Component, rank: map<nat, nat>, done: set<nat>, queue: seq<nat>,
                 parent: nat, k: nat, edge: Edge)
    requires MyTurn(g, c, rank, done, queue, parent) && Grown(c, c', parent, edge) && edge.child !in rank
    requires forall v | v in done && v != parent :: edge.child !in g.Neighbors(v)
    requires k < |g.Adjacent(parent)| && g.Adjacent(parent)[k] == Hop(edge.link, edge.child)
    requires forall j | 0 <= j < k :: g.Adjacent(parent)[j].node in rank
    requires FromHops(c.children[parent], g.Adjacent(parent), k)
    ensures MyTurn(g, c', rank[edge.child := |rank|], done, queue + [edge.child], parent)
  {
    assert done <= rank.Keys;
    TakeEdge(g, c, c', rank, done, parent, k, edge);
    RankedAppend(rank, done, queue, edge.child);
  }

  lemma GrownDone(c: Component, c': Component, parent: nat, edge: Edge, done: set<nat>)
    requires Grown(c, c', parent, edge) && parent in done && OnlyBelow(c, done)
    ensures OnlyBelow(c', done)
  {
    forall n, i | c'.HasEdge(n, i)
      ensures n in done
    {
      GrownEdges(c, c', parent, edge, n, i);
    }
  }

  /** When nobody waits, the tree is in turn. */
  lemma LastTurn(g: Graph, c: Component, rank: map<nat, nat>, done: set<nat>)
    requires Turn(g, c, rank, done, []) && done == c.children.Keys
    ensures InTurn(g, c)
  {
    assert done + Elements([]) == done;
    assert BreadthFirstOrder(c, rank);
  }
}
