/** One component of the display forest: a rooted tree over node ids, children in drawing order. */
module DisplayTree {
  /** An edge to `child` by the link numbered `link`; `text` names the two interfaces, the parent's first. */
  datatype Edge = Edge(link: nat, child: nat, text: string) {
    function LabelWidth(): (r: nat) {
      |text|
    }
  }

  /** Where each node hangs: its distance from the root, its parent and its place among the parent's children. */
  datatype Shape = Shape(depth: map<nat, nat>, parent: map<nat, nat>, index: map<nat, nat>)

  datatype Component = Component(root: nat, children: map<nat, seq<Edge>>) {
    predicate HasEdge(n: nat, i: int) {
      n in children && 0 <= i < |children[n]|
    }

    ghost predicate Hangs(shape: Shape, n: nat) {
      && n in shape.parent && n in shape.index
      && HasEdge(shape.parent[n], shape.index[n])
      && children[shape.parent[n]][shape.index[n]].child == n
    }

    /** `children` is a tree below `root`: every other node hangs in exactly one place, one level further down. */
    ghost predicate Tree(shape: Shape) {
      && shape.depth.Keys == children.Keys && shape.parent.Keys == children.Keys && shape.index.Keys == children.Keys
      && root in children && shape.depth[root] == 0
      && (forall n {:trigger Hangs(shape, n)} | n in children && n != root :: Hangs(shape, n))
      && (forall n, i {:trigger HasEdge(n, i)} | HasEdge(n, i) ::
            var m := children[n][i].child;
            m in children && m != root && shape.depth[m] == shape.depth[n] + 1 && shape.parent[m] == n
              && shape.index[m] == i)
    }
  }

  /** A set of nodes that has the root, and with every node its children, has every node. */
  lemma {:induction false} ClosedFromRoot(c: Component, shape: Shape, reached: set<nat>, n: nat)
    requires c.Tree(shape) && c.root in reached && n in c.children
    requires forall m, i | c.HasEdge(m, i) && m in reached :: c.children[m][i].child in reached
    ensures n in reached
    decreases shape.depth[n]
  {
    if n != c.root {
      assert c.Hangs(shape, n);
      ClosedFromRoot(c, shape, reached, shape.parent[n]);
    }
  }

  lemma OnlyRootAtZero(c: Component, shape: Shape, n: nat)
    requires c.Tree(shape) && n in c.children
    ensures shape.depth[n] == 0 <==> n == c.root
  {
    if n != c.root {
      assert c.Hangs(shape, n);
    }
  }
}
