/** The first search of the forest: the members of one connected component, and the choice of its root. */
module Members {
  import opened Multigraph
  import opened Worklist

  /** The adjacency table: one row a node, filled link by link, the left end first. */
  method BuildAdjacency(g: Graph) returns (adjacency: map<nat, seq<Hop>>)
    requires g.WellFormed()
    ensures adjacency.Keys == g.NodeSet()
    ensures forall n | n in adjacency :: adjacency[n] == g.Adjacent(n)
  {
    adjacency := map n | n in g.nodes :: [];
    for k := 0 to |g.links|
      invariant adjacency.Keys == g.NodeSet()
      invariant forall n | n in adjacency :: adjacency[n] == g.Hops(n, k)
    {
      var left, right := g.links[k].left.node, g.links[k].right.node;
      adjacency := adjacency[left := adjacency[left] + [Hop(k, right)]];
      adjacency := adjacency[right := adjacency[right] + [Hop(k, left)]];
    }
  }

  /** Where the search stands: `open` waits, and what is known was not taken by an earlier component. */
  ghost predicate Explored(g: Graph, available: set<nat>, first: nat, done: set<nat>, open: set<nat>,
                           remaining: set<nat>) {
    && done !! open && (done + open) !! remaining && done + open + remaining == available
    && first in done + open
    && (forall n {:trigger g.Neighbors(n)} | n in done :: g.Neighbors(n) <= done + open)
    && (forall n {:trigger g.Reaches(first, n)} | n in done + open :: g.Reaches(first, n))
  }

  ghost predicate Searching(g: Graph, available: set<nat>, first: nat, done: seq<nat>, open: seq<nat>,
                            remaining: set<nat>) {
    Distinct(done) && Distinct(open) && Explored(g, available, first, Elements(done), Elements(open), remaining)
  }

  /** A component: connected, closed, and taken out of what was available. */
  ghost predicate IsComponent(g: Graph, available: set<nat>, first: nat, members: seq<nat>, remaining: set<nat>) {
    && Distinct(members) && first in members
    && Elements(members) !! remaining && Elements(members) + remaining == available
    && g.Closed(Elements(members))
    && forall n {:trigger g.Reaches(first, n)} | n in members :: g.Reaches(first, n)
  }

  lemma FirstOpen(g: Graph, available: set<nat>, first: nat)
    requires first in available
    ensures Searching(g, available, first, [], [first], available - {first})
  {
    assert g.Connects([first], first, first);
    assert Elements([first]) == {first} && Elements([]) == {};
  }

  function Targets(hops: seq<Hop>): (r: set<nat>) {
    set h | h in hops :: h.node
  }

  /** The nodes that a hop list adds, in order, each once and only if still available. */
  method Discover(hops: seq<Hop>, queue: seq<nat>, remaining: set<nat>) returns (queue': seq<nat>, remaining': set<nat>)
    requires Distinct(queue) && Elements(queue) !! remaining
    ensures Distinct(queue') && Elements(queue') !! remaining' && Elements(queue) <= Elements(queue')
    ensures Elements(queue') + remaining' == Elements(queue) + remaining
    ensures Elements(queue') - Elements(queue) <= Targets(hops) && Targets(hops) !! remaining'
  {
    queue', remaining' := queue, remaining;
    for k := 0 to |hops|
      invariant Distinct(queue') && Elements(queue') !! remaining' && Elements(queue) <= Elements(queue')
      invariant Elements(queue') + remaining' == Elements(queue) + remaining
      invariant Elements(queue') - Elements(queue) <= Targets(hops[..k]) && Targets(hops[..k]) !! remaining'
    {
      var neighbor := hops[k].node;
      assert hops[..k + 1] == hops[..k] + [hops[k]];
      assert Targets(hops[..k + 1]) == Targets(hops[..k]) + {neighbor};
      if neighbor in remaining' {
        assert Elements(queue' + [neighbor]) == Elements(queue') + {neighbor};
        remaining' := remaining' - {neighbor};
        queue' := queue' + [neighbor];
      }
    }
    assert hops[..|hops|] == hops;
  }

  lemma ReachesFurther(g: Graph, first: nat, current: nat, n: nat)
    requires g.Reaches(first, current) && n in g.Neighbors(current)
    ensures g.Reaches(first, n)
  {
    var path :| g.Connects(path, first, current);
    ExtendWalk(g, path, first, current, n);
  }

  lemma ExploreStep(g: Graph, available: set<nat>, first: nat, done: set<nat>, rest: set<nat>, current: nat,
                    remaining: set<nat>,
                    open': set<nat>, remaining': set<nat>)
    requires Explored(g, available, first, done, rest + {current}, remaining) && current !in rest && g.Closed(available)
    requires open' !! remaining' && rest <= open' && open' + remaining' == rest + remaining
    requires g.Neighbors(current) !! remaining' && open' - rest <= g.Neighbors(current)
    ensures Explored(g, available, first, done + {current}, open', remaining')
  {
    assert g.Neighbors(current) <= available;
    forall n | n in done + {current} + open'
      ensures g.Reaches(first, n)
    {
      if n !in done + (rest + {current}) {
        assert g.Reaches(first, current);
        ReachesFurther(g, first, current, n);
      }
    }
  }

  lemma Dequeued(done: seq<nat>, current: nat, rest: seq<nat>)
    requires Distinct(done) && Distinct([current] + rest) && Elements(done) !! Elements([current] + rest)
    ensures Distinct(done + [current]) && Distinct(rest) && current !in rest && current !in done
    ensures Elements([current] + rest) == Elements(rest) + {current}
    ensures Elements(done + [current]) == Elements(done) + {current}
  {
    var open := [current] + rest;
    assert open[0] == current && forall i | 0 <= i < |rest| :: rest[i] == open[i + 1];
    assert current in Elements(open);
    assert forall i | 0 <= i < |done| :: done[i] in Elements(done);
  }

  lemma SearchStep(g: Graph, available: set<nat>, first: nat, done: seq<nat>, current: nat, rest: seq<nat>,
                   remaining: set<nat>,
                   open': seq<nat>, remaining': set<nat>)
    requires Searching(g, available, first, done, [current] + rest, remaining) && g.Closed(available)
    requires Distinct(open') && Elements(open') !! remaining' && Elements(rest) <= Elements(open')
    requires Elements(open') + remaining' == Elements(rest) + remaining
    requires Elements(open') - Elements(rest) <= g.Neighbors(current) && g.Neighbors(current) !! remaining'
    ensures Searching(g, available, first, done + [current], open', remaining')
    ensures |available - Elements(done + [current])| < |available - Elements(done)|
  {
    Dequeued(done, current, rest);
    ExploreStep(g, available, first, Elements(done), Elements(rest), current, remaining, Elements(open'), remaining');
    assert available - Elements(done) == available - (Elements(done) + {current}) + {current};
  }

  /** All nodes linked to `first`, directly or not, taken out of `available`. */
  method FindMembers(g: Graph, adjacency: map<nat, seq<Hop>>, available: set<nat>, first: nat)
    returns (members: seq<nat>, remaining: set<nat>)
    requires available <= adjacency.Keys && g.Closed(available) && first in available
    requires forall n | n in adjacency :: adjacency[n] == g.Adjacent(n)
    ensures IsComponent(g, available, first, members, remaining) && g.Closed(remaining)
  {
    members, remaining := [], available - {first};
    var queue := [first];
    FirstOpen(g, available, first);
    while queue != []
      invariant Searching(g, available, first, members, queue, remaining)
      decreases |available - Elements(members)|
    {
      var current, rest := queue[0], queue[1..];
      SplitFirst(queue);
      Dequeued(members, current, rest);
      ghost var before := remaining;
      queue, remaining := Discover(adjacency[current], rest, remaining);
      SearchStep(g, available, first, members, current, rest, before, queue, remaining);
      members := members + [current];
    }
    SearchedOut(g, available, first, members, remaining);
  }

  lemma SearchedOut(g: Graph, available: set<nat>, first: nat, members: seq<nat>, remaining: set<nat>)
    requires Searching(g, available, first, members, [], remaining) && g.Closed(available)
    ensures IsComponent(g, available, first, members, remaining) && g.Closed(remaining)
  {
    assert Elements([]) == {};
    assert first in Elements(members);
    forall n | n in members
      ensures g.Reaches(first, n)
    {
      assert n in Elements(members);
    }
    RemainderClosed(g, available, Elements(members), remaining);
  }

  lemma RemainderClosed(g: Graph, available: set<nat>, taken: set<nat>, remaining: set<nat>)
    requires g.Closed(available) && g.Closed(taken) && taken !! remaining && taken + remaining == available
    ensures g.Closed(remaining)
  {
    forall n, m | n in remaining && m in g.Neighbors(n)
      ensures m in remaining
    {
      NeighborsAreJoined(g, n, m);
      assert m in taken ==> g.Neighbors(m) <= taken;
    }
  }

  /** `u` comes before `v` in the choice of a root: more links, or as many and declared earlier. */
  predicate Preferred(g: Graph, order: map<nat, nat>, u: nat, v: nat)
    requires u in order && v in order
  {
    g.Degree(u) > g.Degree(v) || (g.Degree(u) == g.Degree(v) && order[u] <= order[v])
  }

  method ChooseRoot(g: Graph, adjacency: map<nat, seq<Hop>>, order: map<nat, nat>, members: seq<nat>)
    returns (root: nat)
    requires members != [] && Elements(members) <= adjacency.Keys && Elements(members) <= order.Keys
    requires forall n | n in adjacency :: adjacency[n] == g.Adjacent(n)
    ensures root in members && forall n | n in members :: Preferred(g, order, root, n)
  {
    root := members[0];
    assert members[0] in Elements(members);
    for k := 1 to |members|
      invariant root in members && root in order
      invariant forall i | 0 <= i < k :: members[i] in order && Preferred(g, order, root, members[i])
    {
      assert members[k] in Elements(members) && root in Elements(members);
      var degree, best := |adjacency[members[k]]|, |adjacency[root]|;
      if degree > best || (degree == best && order[members[k]] < order[root]) {
        root := members[k];
      }
    }
  }
}
