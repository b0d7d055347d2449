/**
 The node graph of a plan: nodes in declaration order, links with their two ends; parallel and self links are
 allowed.
 */
module Multigraph {
  /** One end of a link: a node, by its number, and the interface there. */
  datatype End = End(node: nat, interface: string)

  datatype Link = Link(left: End, right: End) {
    /** The link runs between `u` and `v`, in either direction. */
    predicate Joins(u: nat, v: nat) {
      (left.node == u && right.node == v) || (left.node == v && right.node == u)
    }
  }

  /** What one node sees of a link: its number and the node at the other end. */
  datatype Hop = Hop(link: nat, node: nat)

  datatype Graph = Graph(nodes: seq<nat>, links: seq<Link>) {
    function NodeSet(): (r: set<nat>) {
      set n | n in nodes
    }

    /** Node names are keys, and links end on declared nodes. */
    ghost predicate WellFormed() {
      && (forall i, j | 0 <= i < j < |nodes| :: nodes[i] != nodes[j])
      && (forall k | 0 <= k < |links| :: links[k].left.node in nodes && links[k].right.node in nodes)
    }

    /** The hops of `n` over the first `k` links, in link order; a self link gives two. */
    function Hops(n: nat, k: nat): (r: seq<Hop>)
      requires k <= |links|
    {
      if k == 0 then []
      else
        Hops(n, k - 1)
        + (if links[k - 1].left.node == n then [Hop(k - 1, links[k - 1].right.node)] else [])
        + (if links[k - 1].right.node == n then [Hop(k - 1, links[k - 1].left.node)] else [])
    }

    function Adjacent(n: nat): (r: seq<Hop>) {
      Hops(n, |links|)
    }

    function Degree(n: nat): (r: nat) {
      |Adjacent(n)|
    }

    function Neighbors(n: nat): (r: set<nat>) {
      set h | h in Adjacent(n) :: h.node
    }

    /** Consecutive nodes are joined. */
    ghost predicate Walk(path: seq<nat>) {
      && path != []
      && forall i {:trigger Step(path, i)} | 0 <= i < |path| - 1 :: Step(path, i)
    }

    ghost predicate Step(path: seq<nat>, i: int)
      requires 0 <= i < |path| - 1
    {
      path[i + 1] in Neighbors(path[i])
    }

    /** `path` walks from `u` to `v`. */
    ghost predicate Connects(path: seq<nat>, u: nat, v: nat) {
      Walk(path) && path[0] == u && path[|path| - 1] == v
    }

    ghost predicate Reaches(u: nat, v: nat) {
      exists path :: Connects(path, u, v)
    }

    /** No link leaves `s`. */
    ghost predicate Closed(s: set<nat>) {
      forall n {:trigger Neighbors(n)} | n in s :: Neighbors(n) <= s
    }
  }

  lemma {:induction false} HopsAreLinks(g: Graph, n: nat, k: nat, h: Hop)
    requires k <= |g.links|
    ensures h in g.Hops(n, k) <==> h.link < k && g.links[h.link].Joins(n, h.node)
  {
    if k > 0 {
      HopsAreLinks(g, n, k - 1, h);
    }
  }

  /** Adjacency is symmetric, and exactly the joined pairs. */
  lemma NeighborsAreJoined(g: Graph, u: nat, v: nat)
    ensures v in g.Neighbors(u) <==> exists k | 0 <= k < |g.links| :: g.links[k].Joins(u, v)
    ensures v in g.Neighbors(u) <==> u in g.Neighbors(v)
  {
    forall a: nat, b: nat, k | 0 <= k < |g.links| && g.links[k].Joins(a, b)
      ensures b in g.Neighbors(a)
    {
      HopsAreLinks(g, a, |g.links|, Hop(k, b));
      assert Hop(k, b) in g.Adjacent(a);
    }
    forall a: nat, h | h in g.Adjacent(a)
      ensures h.link < |g.links| && g.links[h.link].Joins(a, h.node) && g.links[h.link].Joins(h.node, a)
    {
      HopsAreLinks(g, a, |g.links|, h);
    }
  }

  lemma ExtendWalk(g: Graph, path: seq<nat>, u: nat, v: nat, w: nat)
    requires g.Connects(path, u, v) && w in g.Neighbors(v)
    ensures g.Connects(path + [w], u, w)
  {
    var longer := path + [w];
    forall i | 0 <= i < |longer| - 1
      ensures g.Step(longer, i)
    {
      if i < |path| - 1 {
        assert g.Step(path, i);
        assert longer[i] == path[i] && longer[i + 1] == path[i + 1];
      }
    }
  }

  /** A walk that starts in a closed set stays there. */
  lemma {:induction false} WalkStaysIn(g: Graph, s: set<nat>, path: seq<nat>, i: nat)
    requires g.Closed(s) && g.Walk(path) && path[0] in s && i < |path|
    ensures path[i] in s
  {
    if i > 0 {
      WalkStaysIn(g, s, path, i - 1);
      assert g.Step(path, i - 1);
    }
  }

  /** A walk that ends in a closed set was always there. */
  lemma {:induction false} WalkWasIn(g: Graph, s: set<nat>, path: seq<nat>, i: nat)
    requires g.Closed(s) && g.Walk(path) && path[|path| - 1] in s && i < |path|
    ensures path[i] in s
    decreases |path| - i
  {
    if i < |path| - 1 {
      WalkWasIn(g, s, path, i + 1);
      assert g.Step(path, i);
      NeighborsAreJoined(g, path[i], path[i + 1]);
    }
  }

  lemma ReachedFromInside(g: Graph, s: set<nat>, u: nat, v: nat)
    requires g.Closed(s) && g.Reaches(u, v)
    ensures u in s <==> v in s
  {
    var path :| g.Connects(path, u, v);
    if u in s { WalkStaysIn(g, s, path, |path| - 1); }
    if v in s { WalkWasIn(g, s, path, 0); }
  }

  lemma NeighborsDeclared(g: Graph, n: nat)
    requires g.WellFormed()
    ensures g.Neighbors(n) <= g.NodeSet()
  {
    forall h | h in g.Adjacent(n)
      ensures h.node in g.NodeSet()
    {
      HopsAreLinks(g, n, |g.links|, h);
    }
  }
}
