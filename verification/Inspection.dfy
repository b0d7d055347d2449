/** A whole inspection: live differences, differences to the recorded state, and the status they go with. */
module Inspection {
  import opened Configured
  import opened Inspector
  import opened Json
  import opened Matcher
  import opened Network
  import opened Options
  import opened Ownership
  import opened Topology
  import opened Validation

  /** A validated snapshot, as far as the inspection reads it. */
  datatype Checked = Checked(deployed: bool, complete: bool, records: Records)

  datatype Status = Absent | Stale | Deployed | Degraded

  datatype NodeStatus = Missing | Impaired | Matching

  /** The interface at a port, if its namespace exists. */
  function LiveAt(o: Observed, p: Port): (r: Option<Interface>) {
    if Present(o, p) && o.namespaces[p.namespace].exists_ then Some(o.namespaces[p.namespace].interfaces[p.interface])
      else None
  }

  /** A veth with an identity in a namespace that exists. */
  predicate Grouped(o: Observed, p: Port) {
    LiveAt(o, p).Some? && LiveAt(o, p).value.kind == Veth && LiveAt(o, p).value.linkId.Some?
  }

  function GroupedPorts(o: Observed): (r: set<Port>) {
    set s, n | s in o.namespaces && n in o.namespaces[s].interfaces && Grouped(o, Port(s, n)) :: Port(s, n)
  }

  /** Both ends are live veths, and they are all that has their identity. */
  ghost predicate LinkPresent(o: Observed, l: LinkPlan) {
    && Grouped(o, l.left.port) && Grouped(o, l.right.port) && IdAt(o, l.left.port) == IdAt(o, l.right.port)
    && forall p {:trigger Grouped(o, p)} :: Grouped(o, p) && IdAt(o, p) == IdAt(o, l.left.port) ==>
         p == l.left.port || p == l.right.port
  }

  /** Nothing to report about a node. */
  ghost predicate NodeClean(plan: NetworkPlan, node: NodePlan, o: Observed)
    requires DevicesPlanned(plan, node)
  {
    && node.namespace in o.namespaces
    && var i := o.namespaces[node.namespace];
       && i.node == node.name && i.bridge == node.bridge.Some? && i.namespace == node.namespace && i.exists_
       && InterfacesClean(DesiredMap(plan, node), i.interfaces, RuntimeNames(node))
       && NeighborsAgree(node.neighbors, i.neighbors) && SysctlsMatch(node.sysctls, i.sysctls)
  }

  predicate InterfacesClean(desired: map<string, InterfaceView>, actual: map<string, Interface>, runtime: set<string>) {
    && desired.Keys <= actual.Keys && actual.Keys - desired.Keys <= runtime
    && forall n | n in desired && n in actual :: SameAs(desired[n], actual[n])
  }

  ghost predicate AllPlanned(plan: NetworkPlan) {
    forall k {:trigger plan.nodes[k]} | 0 <= k < |plan.nodes| :: DevicesPlanned(plan, plan.nodes[k])
  }

  /** Nothing to report about the live network. */
  ghost predicate LiveClean(plan: NetworkPlan, o: Observed)
    requires AllPlanned(plan)
  {
    && o.namespaces.Keys == PlannedNamespaces(plan) && o.root == {}
    && NodesClean(plan, o, |plan.nodes|)
    && (forall k {:trigger plan.links[k]} | 0 <= k < |plan.links| :: LinkPresent(o, plan.links[k]))
  }

  // The report on a node.

  function OfNode(node: NodePlan, at: Property): (r: Difference) {
    Difference(true, Some(node.name), None, at)
  }

  function OfInterface(node: NodePlan, n: string, at: Property): (r: Difference) {
    Difference(true, Some(node.name), Some(n), at)
  }

  /** One of these names is missing or too many. */
  predicate NameReported(node: NodePlan, names: set<string>, d: Difference) {
    d.interface.Some? && d.interface.value in names && d == OfInterface(node, d.interface.value, AtPresent)
  }

  /** Under one of these names the live interface is not as desired. */
  ghost predicate CommonReported(node: NodePlan, desired: map<string, InterfaceView>, actual: map<string, Interface>,
                                 names: set<string>, d: Difference) {
    exists n :: n in names && n in desired && n in actual && InterfaceReported(node, desired[n], actual[n], d)
  }

  ghost predicate TableReported(node: NodePlan, desired: map<string, InterfaceView>, actual: map<string, Interface>,
                                d: Difference) {
    || NameReported(node, desired.Keys - actual.Keys, d)
    || NameReported(node, actual.Keys - desired.Keys - RuntimeNames(node), d)
    || CommonReported(node, desired, actual, desired.Keys * actual.Keys, d)
  }

  predicate SysctlReported(node: NodePlan, i: Inventory, d: Difference) {
    && d == OfNode(node, d.at) && d.at.AtSysctl? && d.at.name in node.sysctls
    && !(d.at.name in i.sysctls && i.sysctls[d.at.name] == node.sysctls[d.at.name])
  }

  predicate HeadReported(node: NodePlan, i: Inventory, d: Difference) {
    || (d == OfNode(node, AtNodeName) && i.node != node.name)
    || (d == OfNode(node, AtNodeKind) && i.bridge != node.bridge.Some?)
    || (d == OfNode(node, AtNamespace) && i.namespace != node.namespace)
    || (d == OfNode(node, AtExists) && !i.exists_)
  }

  /** A difference between a node and its namespace. */
  ghost predicate NodeReported(plan: NetworkPlan, node: NodePlan, o: Observed, d: Difference)
    requires DevicesPlanned(plan, node)
  {
    if node.namespace !in o.namespaces then d == OfNode(node, AtExists)
    else
      var i := o.namespaces[node.namespace];
      || HeadReported(node, i, d)
      || (i.exists_ && TableReported(node, DesiredMap(plan, node), i.interfaces, d))
      || (i.exists_ && d == OfNode(node, AtNeighbors) && !NeighborsAgree(node.neighbors, i.neighbors))
      || (i.exists_ && SysctlReported(node, i, d))
  }

  /** One difference for each name that is missing or too many. */
  method PresenceDifferences(node: NodePlan, names: set<string>) returns (differences: seq<Difference>)
    ensures differences == [] <==> names == {}
    ensures forall d :: d in differences <==> NameReported(node, names, d)
  {
    differences := [];
    var todo := names;
    while todo != {}
      invariant todo <= names && (differences == [] <==> todo == names)
      invariant forall d :: d in differences <==> NameReported(node, names - todo, d)
      decreases |todo|
    {
      var n :| n in todo;
      differences, todo := differences + [OfInterface(node, n, AtPresent)], todo - {n};
    }
    assert names - todo == names;
  }

  lemma CommonNext(node: NodePlan, desired: map<string, InterfaceView>, actual: map<string, Interface>,
                   names: set<string>, n: string, d: Difference)
    requires n in desired && n in actual
    ensures CommonReported(node, desired, actual, names + {n}, d)
            <==> CommonReported(node, desired, actual, names, d) || InterfaceReported(node, desired[n], actual[n], d)
  {
    if InterfaceReported(node, desired[n], actual[n], d) { assert n in names + {n}; }
    if CommonReported(node, desired, actual, names, d) {
      var m :| m in names && m in desired && m in actual && InterfaceReported(node, desired[m], actual[m], d);
      assert m in names + {n};
    }
  }

  method CommonDifferences(node: NodePlan, desired: map<string, InterfaceView>, actual: map<string, Interface>,
                           common: set<string>)
    returns (differences: seq<Difference>)
    requires common <= desired.Keys && common <= actual.Keys
    ensures differences == [] <==> forall n | n in common :: SameAs(desired[n], actual[n])
    ensures forall d :: d in differences <==> CommonReported(node, desired, actual, common, d)
  {
    differences := [];
    var todo := common;
    while todo != {}
      invariant todo <= common
      invariant differences == [] <==> forall n | n in common && n !in todo :: SameAs(desired[n], actual[n])
      invariant forall d :: d in differences <==> CommonReported(node, desired, actual, common - todo, d)
      decreases |todo|
    {
      var n :| n in todo;
      var more := CompareInterface(node, desired[n], actual[n]);
      ghost var seen := common - todo;
      assert common - (todo - {n}) == seen + {n};
      forall d
        ensures d in differences + more <==> CommonReported(node, desired, actual, seen + {n}, d)
      {
        CommonNext(node, desired, actual, seen, n, d);
      }
      differences, todo := differences + more, todo - {n};
    }
    assert common - todo == common;
  }

  method CompareInterfaces(node: NodePlan, desired: map<string, InterfaceView>, actual: map<string, Interface>)
    returns (differences: seq<Difference>)
    ensures differences == [] <==> InterfacesClean(desired, actual, RuntimeNames(node))
    ensures forall d :: d in differences <==> TableReported(node, desired, actual, d)
  {
    var missing := PresenceDifferences(node, desired.Keys - actual.Keys);
    var unexpected := PresenceDifferences(node, actual.Keys - desired.Keys - RuntimeNames(node));
    var common := CommonDifferences(node, desired, actual, desired.Keys * actual.Keys);
    differences := missing + unexpected + common;
    NothingLeft(desired.Keys, actual.Keys);
    NothingLeft(actual.Keys - desired.Keys, RuntimeNames(node));
  }

  lemma NothingLeft(names: set<string>, known: set<string>)
    ensures names - known == {} <==> names <= known
  {
    if names - known == {} {
      forall n | n in names
        ensures n in known
      {
        assert n !in known ==> n in names - known;
      }
    }
  }

  function When(wrong: bool, d: Difference): (r: seq<Difference>)
    ensures forall x :: x in r <==> wrong && x == d
  {
    if wrong then [d] else []
  }

  method HeadDifferences(node: NodePlan, i: Inventory) returns (differences: seq<Difference>)
    ensures forall d :: d in differences <==> HeadReported(node, i, d)
    ensures differences == [] <==>
            i.node == node.name && i.bridge == node.bridge.Some? && i.namespace == node.namespace && i.exists_
  {
    differences := When(i.node != node.name, OfNode(node, AtNodeName))
                   + When(i.bridge != node.bridge.Some?, OfNode(node, AtNodeKind))
                   + When(i.namespace != node.namespace, OfNode(node, AtNamespace))
                   + When(!i.exists_, OfNode(node, AtExists));
  }

  method ContentsDifferences(plan: NetworkPlan, node: NodePlan, i: Inventory) returns (differences: seq<Difference>)
    requires DevicesPlanned(plan, node)
    ensures forall d :: d in differences <==>
              || TableReported(node, DesiredMap(plan, node), i.interfaces, d)
              || (d == OfNode(node, AtNeighbors) && !NeighborsAgree(node.neighbors, i.neighbors))
              || SysctlReported(node, i, d)
    ensures differences == [] <==>
            && InterfacesClean(DesiredMap(plan, node), i.interfaces, RuntimeNames(node))
            && NeighborsAgree(node.neighbors, i.neighbors) && SysctlsMatch(node.sysctls, i.sysctls)
  {
    var desired := DesiredInterfaces(plan, node);
    var table := CompareInterfaces(node, desired, i.interfaces);
    var neighbors := NeighborsMatch(node.neighbors, i.neighbors);
    var sysctls := SysctlDifferences(node, i);
    differences := table + When(!neighbors, OfNode(node, AtNeighbors)) + sysctls;
  }

  /** The differences of one node: nothing more of a namespace that does not exist. */
  method NodeDifferences(plan: NetworkPlan, node: NodePlan, o: Observed) returns (differences: seq<Difference>)
    requires DevicesPlanned(plan, node)
    ensures forall d :: d in differences <==> NodeReported(plan, node, o, d)
    ensures differences == [] <==> NodeClean(plan, node, o)
  {
    if node.namespace !in o.namespaces {
      return [OfNode(node, AtExists)];
    }
    var i := o.namespaces[node.namespace];
    differences := HeadDifferences(node, i);
    if i.exists_ {
      var more := ContentsDifferences(plan, node, i);
      differences := differences + more;
    }
  }

  method SysctlDifferences(node: NodePlan, i: Inventory) returns (differences: seq<Difference>)
    ensures differences == [] <==> SysctlsMatch(node.sysctls, i.sysctls)
    ensures forall d :: d in differences <==> SysctlReported(node, i, d)
  {
    differences := [];
    var todo := node.sysctls.Keys;
    while todo != {}
      invariant todo <= node.sysctls.Keys
      invariant differences == [] <==>
                  forall k | k in node.sysctls && k !in todo :: k in i.sysctls && i.sysctls[k] == node.sysctls[k]
      invariant forall d :: d in differences <==> SysctlReported(node, i, d) && d.at.name !in todo
      decreases |todo|
    {
      var name :| name in todo;
      if name !in i.sysctls || i.sysctls[name] != node.sysctls[name] {
        differences := differences + [OfNode(node, AtSysctl(name))];
      }
      todo := todo - {name};
    }
  }

  lemma GroupedIffListed(o: Observed, p: Port)
    ensures p in GroupedPorts(o) <==> Grouped(o, p)
  {
    assert Grouped(o, p) ==> p == Port(p.namespace, p.interface);
  }

  /** The look at one link. */
  method LookAtLink(o: Observed, groups: map<nat, set<Port>>, l: LinkPlan) returns (present: bool)
    requires IsGrouping(o, GroupedPorts(o), groups)
    ensures present <==> LinkPresent(o, l)
  {
    present := Grouped(o, l.left.port) && Grouped(o, l.right.port) && IdAt(o, l.right.port) == IdAt(o, l.left.port);
    if present {
      var id := IdAt(o, l.left.port).value;
      GroupedIffListed(o, l.left.port);
      GroupedIffListed(o, l.right.port);
      LinkGroup(o, groups, l, id);
      present := groups[id] == {l.left.port, l.right.port};
    }
  }

  lemma GroupMembers(o: Observed, groups: map<nat, set<Port>>, id: nat)
    requires IsGrouping(o, GroupedPorts(o), groups) && id in groups
    ensures forall p {:trigger Grouped(o, p)} :: p in groups[id] <==> Grouped(o, p) && IdAt(o, p) == Some(id)
  {
    forall p: Port
      ensures p in groups[id] <==> Grouped(o, p) && IdAt(o, p) == Some(id)
    {
      GroupedIffListed(o, p);
    }
  }

  lemma LinkGroup(o: Observed, groups: map<nat, set<Port>>, l: LinkPlan, id: nat)
    requires IsGrouping(o, GroupedPorts(o), groups) && id in groups
    requires Grouped(o, l.left.port) && Grouped(o, l.right.port)
             && IdAt(o, l.left.port) == Some(id) == IdAt(o, l.right.port)
    ensures groups[id] == {l.left.port, l.right.port} <==> LinkPresent(o, l)
  {
    GroupMembers(o, groups, id);
    assert l.left.port in groups[id] && l.right.port in groups[id];
    if LinkPresent(o, l) {
      forall p | p in groups[id]
        ensures p in {l.left.port, l.right.port}
      {
        assert Grouped(o, p);
      }
    }
  }

  lemma GroupedHaveIds(o: Observed)
    ensures forall p | p in GroupedPorts(o) :: IdAt(o, p).Some?
  {
    forall p | p in GroupedPorts(o)
      ensures IdAt(o, p).Some?
    {
      GroupedIffListed(o, p);
    }
  }

  function OfLink(l: LinkPlan, live: bool, at: Property): (r: Difference) {
    Difference(live, Some(l.left.node), Some(l.left.port.interface), at)
  }

  predicate EndsAt(l: LinkPlan, name: string) {
    l.left.node == name || l.right.node == name
  }

  /** One of the first `k` links is not there, and `d` says so. */
  ghost predicate LinkReported(plan: NetworkPlan, o: Observed, k: nat, d: Difference)
    requires k <= |plan.links|
  {
    exists i {:trigger plan.links[i]} :: 0 <= i < k && !LinkPresent(o, plan.links[i])
                                         && d == OfLink(plan.links[i], true, AtLink)
  }

  /** One of the first `k` links is not there, and it ends at the node of this name. */
  ghost predicate LosesLink(plan: NetworkPlan, o: Observed, k: nat, name: string)
    requires k <= |plan.links|
  {
    exists i {:trigger plan.links[i]} :: 0 <= i < k && !LinkPresent(o, plan.links[i]) && EndsAt(plan.links[i], name)
  }

  method LinkDifferences(plan: NetworkPlan, o: Observed) returns (differences: seq<Difference>, impacted: set<string>)
    ensures differences == [] <==>
              forall k {:trigger plan.links[k]} | 0 <= k < |plan.links| :: LinkPresent(o, plan.links[k])
    ensures forall d :: d in differences <==> LinkReported(plan, o, |plan.links|, d)
    ensures forall x :: x in impacted <==> LosesLink(plan, o, |plan.links|, x)
  {
    var groups := Group(o, GroupedPorts(o));
    GroupedHaveIds(o);
    differences, impacted := [], {};
    for k := 0 to |plan.links|
      invariant differences == [] <==> forall i {:trigger plan.links[i]} | 0 <= i < k :: LinkPresent(o, plan.links[i])
      invariant forall d :: d in differences <==> LinkReported(plan, o, k, d)
      invariant forall x :: x in impacted <==> LosesLink(plan, o, k, x)
    {
      var l := plan.links[k];
      var present := LookAtLink(o, groups.value, l);
      if !present {
        differences := differences + [OfLink(l, true, AtLink)];
        impacted := impacted + {l.left.node, l.right.node};
      }
    }
  }

  // Temporaries left in the root.

  /** The last link end with this temporary name is one of the node's. */
  ghost predicate Owns(plan: NetworkPlan, name: string, node: string) {
    exists e :: 0 <= e < 2 * |plan.links| && OwnsBy(plan, name, node, e, 2 * |plan.links|)
  }

  /** Of the first `k` ends the e-th is the last with this temporary name. */
  ghost predicate OwnsBy(plan: NetworkPlan, name: string, node: string, e: int, k: nat)
    requires 0 <= e < 2 * |plan.links|
  {
    && e < k <= 2 * |plan.links| && Ends(plan.links)[e].temporary == name && Ends(plan.links)[e].node == node
    && forall f | e < f < k :: Ends(plan.links)[f].temporary != name
  }

  ghost predicate OwnedBy(plan: NetworkPlan, name: string, node: string, k: nat) {
    exists e :: 0 <= e < 2 * |plan.links| && OwnsBy(plan, name, node, e, k)
  }

  ghost predicate OwnersSoFar(plan: NetworkPlan, k: nat, owners: map<string, string>)
    requires k <= 2 * |plan.links|
  {
    && (forall name {:trigger OwnedBy(plan, name, owners[name], k)} | name in owners ::
          OwnedBy(plan, name, owners[name], k))
    && forall e | 0 <= e < k :: Ends(plan.links)[e].temporary in owners
  }

  method TemporaryOwners(plan: NetworkPlan) returns (owners: map<string, string>)
    ensures OwnersSoFar(plan, 2 * |plan.links|, owners)
  {
    owners := map[];
    for k := 0 to 2 * |plan.links|
      invariant OwnersSoFar(plan, k, owners)
    {
      var end, next := Ends(plan.links)[k], k + 1;
      OwnersNext(plan, k, next, owners, owners[end.temporary := end.node]);
      owners := owners[end.temporary := end.node];
    }
  }

  lemma OwnersNext(plan: NetworkPlan, k: nat, next: nat, owners: map<string, string>, owners': map<string, string>)
    requires k < 2 * |plan.links| && next == k + 1 && OwnersSoFar(plan, k, owners)
    requires owners' == owners[Ends(plan.links)[k].temporary := Ends(plan.links)[k].node]
    ensures OwnersSoFar(plan, next, owners')
  {
    forall name | name in owners'
      ensures OwnedBy(plan, name, owners'[name], next)
    {
      if name == Ends(plan.links)[k].temporary {
        assert OwnsBy(plan, name, owners'[name], k, next);
      } else {
        StillOwned(plan, name, owners[name], k, next);
      }
    }
  }

  lemma StillOwned(plan: NetworkPlan, name: string, node: string, k: nat, next: nat)
    requires k < 2 * |plan.links| && next == k + 1 && OwnedBy(plan, name, node, k)
    requires name != Ends(plan.links)[k].temporary
    ensures OwnedBy(plan, name, node, next)
  {
    var e :| 0 <= e < 2 * |plan.links| && OwnsBy(plan, name, node, e, k);
    assert OwnsBy(plan, name, node, e, next);
  }

  lemma OwnersMean(plan: NetworkPlan, owners: map<string, string>, name: string, node: string)
    requires OwnersSoFar(plan, 2 * |plan.links|, owners)
    ensures Owns(plan, name, node) <==> name in owners && owners[name] == node
  {
    if name in owners { assert OwnedBy(plan, name, owners[name], 2 * |plan.links|); }
    if Owns(plan, name, node) {
      var e :| 0 <= e < 2 * |plan.links| && OwnsBy(plan, name, node, e, 2 * |plan.links|);
      assert Ends(plan.links)[e].temporary in owners;
      var f :| 0 <= f < 2 * |plan.links| && OwnsBy(plan, name, owners[name], f, 2 * |plan.links|);
    }
  }

  /** A temporary name is left in the root; the difference names its owner, if it has one. */
  ghost predicate RootReported(plan: NetworkPlan, names: set<string>, d: Difference) {
    && d.interface.Some? && d.interface.value in names
    && d == Difference(true, d.node, d.interface, AtRootTemporary)
    && forall node {:trigger Owns(plan, d.interface.value, node)} ::
         d.node == Some(node) <==> Owns(plan, d.interface.value, node)
  }

  ghost predicate OwnsOneOf(plan: NetworkPlan, names: set<string>, node: string) {
    exists name {:trigger Owns(plan, name, node)} :: name in names && Owns(plan, name, node)
  }

  function OfRoot(owners: map<string, string>, name: string): (r: Difference) {
    Difference(true, if name in owners then Some(owners[name]) else None, Some(name), AtRootTemporary)
  }

  lemma RootNext(plan: NetworkPlan, owners: map<string, string>, names: set<string>, name: string, d: Difference)
    requires OwnersSoFar(plan, 2 * |plan.links|, owners)
    ensures RootReported(plan, names + {name}, d) <==> RootReported(plan, names, d) || d == OfRoot(owners, name)
  {
    forall n, node
      ensures Owns(plan, n, node) <==> n in owners && owners[n] == node
    {
      OwnersMean(plan, owners, n, node);
    }
    if RootReported(plan, names + {name}, d) && d.interface == Some(name) {
      assert name in owners ==> Owns(plan, name, owners[name]);
      assert d.node.Some? ==> Owns(plan, name, d.node.value);
    }
  }

  lemma OwnsNext(plan: NetworkPlan, owners: map<string, string>, names: set<string>, name: string, node: string)
    requires OwnersSoFar(plan, 2 * |plan.links|, owners)
    ensures OwnsOneOf(plan, names + {name}, node)
            <==> OwnsOneOf(plan, names, node) || (name in owners && owners[name] == node)
  {
    OwnersMean(plan, owners, name, node);
    if OwnsOneOf(plan, names, node) {
      var n :| n in names && Owns(plan, n, node);
      assert n in names + {name};
    }
    if name in owners && owners[name] == node { assert name in names + {name}; }
  }

  method RootDifferences(plan: NetworkPlan, o: Observed)
    returns (differences: seq<Difference>, impacted: set<string>)
    ensures differences == [] <==> o.root == {}
    ensures forall d :: d in differences <==> RootReported(plan, o.root, d)
    ensures forall x :: x in impacted <==> OwnsOneOf(plan, o.root, x)
  {
    var owners := TemporaryOwners(plan);
    differences, impacted := [], {};
    var todo := o.root;
    while todo != {}
      invariant todo <= o.root && (differences == [] <==> todo == o.root)
      invariant forall d :: d in differences <==> RootReported(plan, o.root - todo, d)
      invariant forall x :: x in impacted <==> OwnsOneOf(plan, o.root - todo, x)
      decreases |todo|
    {
      var name :| name in todo;
      ghost var seen := o.root - todo;
      assert o.root - (todo - {name}) == seen + {name};
      forall d
        ensures RootReported(plan, seen + {name}, d) <==> d in differences + [OfRoot(owners, name)]
      {
        RootNext(plan, owners, seen, name, d);
      }
      forall x
        ensures OwnsOneOf(plan, seen + {name}, x) <==> x in impacted || (name in owners && owners[name] == x)
      {
        OwnsNext(plan, owners, seen, name, x);
      }
      differences, todo := differences + [OfRoot(owners, name)], todo - {name};
      if name in owners { impacted := impacted + {owners[name]}; }
    }
    assert o.root - todo == o.root;
  }

  ghost predicate NodesClean(plan: NetworkPlan, o: Observed, k: nat)
    requires AllPlanned(plan) && k <= |plan.nodes|
  {
    forall i {:trigger plan.nodes[i]} | 0 <= i < k :: NodeClean(plan, plan.nodes[i], o)
  }

  ghost predicate SomeNodeReported(plan: NetworkPlan, o: Observed, k: nat, d: Difference)
    requires AllPlanned(plan) && k <= |plan.nodes|
  {
    exists i {:trigger plan.nodes[i]} :: 0 <= i < k && NodeReported(plan, plan.nodes[i], o, d)
  }

  /** One of the first `k` nodes has this name and is not clean. */
  ghost predicate Unclean(plan: NetworkPlan, o: Observed, k: nat, name: string)
    requires AllPlanned(plan) && k <= |plan.nodes|
  {
    exists i {:trigger plan.nodes[i]} :: 0 <= i < k && plan.nodes[i].name == name && !NodeClean(plan, plan.nodes[i], o)
  }

  method AllNodeDifferences(plan: NetworkPlan, o: Observed)
    returns (differences: seq<Difference>, impacted: set<string>)
    requires AllPlanned(plan)
    ensures differences == [] <==> NodesClean(plan, o, |plan.nodes|)
    ensures forall d :: d in differences <==> SomeNodeReported(plan, o, |plan.nodes|, d)
    ensures forall x :: x in impacted <==> Unclean(plan, o, |plan.nodes|, x)
  {
    differences, impacted := [], {};
    for k := 0 to |plan.nodes|
      invariant differences == [] <==> NodesClean(plan, o, k)
      invariant forall d :: d in differences <==> SomeNodeReported(plan, o, k, d)
      invariant forall x :: x in impacted <==> Unclean(plan, o, k, x)
    {
      var more := NodeDifferences(plan, plan.nodes[k], o);
      var next := k + 1;
      NodesCleanNext(plan, o, k, next);
      forall d
        ensures d in differences + more <==> SomeNodeReported(plan, o, next, d)
      {
        SomeNodeNext(plan, o, k, next, d);
      }
      differences := differences + more;
      if more != [] {
        impacted := impacted + {plan.nodes[k].name};
      }
    }
  }

  lemma SomeNodeNext(plan: NetworkPlan, o: Observed, k: nat, next: nat, d: Difference)
    requires AllPlanned(plan) && k < |plan.nodes| && next == k + 1
    ensures SomeNodeReported(plan, o, next, d)
            <==> SomeNodeReported(plan, o, k, d) || NodeReported(plan, plan.nodes[k], o, d)
  {
  }

  lemma NodesCleanNext(plan: NetworkPlan, o: Observed, k: nat, next: nat)
    requires AllPlanned(plan) && k < |plan.nodes| && next == k + 1
    ensures NodesClean(plan, o, next) <==> NodesClean(plan, o, k) && NodeClean(plan, plan.nodes[k], o)
    ensures forall x :: Unclean(plan, o, next, x)
                        <==> Unclean(plan, o, k, x) || (x == plan.nodes[k].name && !NodeClean(plan, plan.nodes[k], o))
  {
  }

  const WRONG_NAMESPACES := Difference(true, None, None, AtNamespaces)

  /** A difference between the live network and the plan. */
  ghost predicate LiveReported(plan: NetworkPlan, o: Observed, d: Difference)
    requires AllPlanned(plan)
  {
    || (d == WRONG_NAMESPACES && o.namespaces.Keys != PlannedNamespaces(plan))
    || SomeNodeReported(plan, o, |plan.nodes|, d)
    || LinkReported(plan, o, |plan.links|, d)
    || RootReported(plan, o.root, d)
  }

  /** The live network leaves the node of this name wanting: itself, a link of its, or a temporary of its own. */
  ghost predicate LiveImpacted(plan: NetworkPlan, o: Observed, name: string)
    requires AllPlanned(plan)
  {
    || Unclean(plan, o, |plan.nodes|, name) || LosesLink(plan, o, |plan.links|, name)
    || OwnsOneOf(plan, o.root, name)
  }

  /** All live differences, and the nodes they touch. */
  method LiveDifferences(plan: NetworkPlan, o: Observed) returns (differences: seq<Difference>, impacted: set<string>)
    requires AllPlanned(plan)
    ensures differences == [] <==> LiveClean(plan, o)
    ensures forall d :: d in differences <==> LiveReported(plan, o, d)
    ensures forall x :: x in impacted <==> LiveImpacted(plan, o, x)
  {
    var whole := When(o.namespaces.Keys != PlannedNamespaces(plan), WRONG_NAMESPACES);
    var nodes, touched := AllNodeDifferences(plan, o);
    var links, ends := LinkDifferences(plan, o);
    var root, owners := RootDifferences(plan, o);
    differences, impacted := whole + nodes + links + root, touched + ends + owners;
    assert differences == [] <==> whole == [] && nodes == [] && links == [] && root == [];
    assert whole == [] <==> WRONG_NAMESPACES !in whole;
  }

  /** What a snapshot records of an end; none if it is missing or null. */
  function RecordedId(records: Records, e: End): (r: Option<Value>) {
    if IdOf(records, e) == Some(Null) then None else IdOf(records, e)
  }

  function ObservedId(o: Observed, e: End): (r: Option<Value>) {
    var i := LiveAt(o, e.port);
    if i.Some? && i.value.linkId.Some? then Some(Str(IdText(i.value.linkId.value))) else None
  }

  predicate PairRecorded(o: Observed, records: Records, l: LinkPlan) {
    && RecordedId(records, l.left).Some? && RecordedId(records, l.right).Some?
    && RecordedId(records, l.left) == ObservedId(o, l.left) && RecordedId(records, l.right) == ObservedId(o, l.right)
  }

  /** The recorded identities are those observed, and the observed links agree with the plan. */
  ghost predicate RecordedMatches(plan: NetworkPlan, o: Observed, records: Records) {
    LinksAgree(plan, o) && forall k {:trigger plan.links[k]} | 0 <= k < |plan.links| ::
        PairRecordedLive(o, records, plan.links[k])
  }

  /** The matcher's comparison of one pair; it does not ask whether a namespace exists. */
  predicate PairRecordedLive(o: Observed, records: Records, l: LinkPlan) {
    && IsId(IdOf(records, l.left)) && IsId(IdOf(records, l.right))
    && IdAt(o, l.left.port).Some? && IdOf(records, l.left) == Some(Str(IdText(IdAt(o, l.left.port).value)))
    && IdAt(o, l.right.port).Some? && IdOf(records, l.right) == Some(Str(IdText(IdAt(o, l.right.port).value)))
    && IdOf(records, l.left) == IdOf(records, l.right)
  }

  method RecordedLinkIdsMatch(plan: NetworkPlan, o: Observed, records: Records) returns (same: bool)
    ensures same <==> RecordedMatches(plan, o, records)
  {
    same := Matcher.LinksMatch(plan, o);
    if !same {
      return;
    }
    for k := 0 to |plan.links|
      invariant forall i {:trigger plan.links[i]} | 0 <= i < k :: PairRecordedLive(o, records, plan.links[i])
    {
      if !PairRecordedLive(o, records, plan.links[k]) {
        return false;
      }
    }
  }

  /** Nothing to report about the recorded state. */
  ghost predicate StateClean(plan: NetworkPlan, checked: Option<Checked>, o: Observed, absent: bool) {
    if checked.None? then absent
    else checked.value.deployed && forall k {:trigger plan.links[k]} | 0 <= k < |plan.links| ::
        PairRecorded(o, checked.value.records, plan.links[k])
  }

  /** The ids recorded for one of the first `k` links are missing or not those observed. */
  ghost predicate PairReported(plan: NetworkPlan, o: Observed, records: Records, k: nat, d: Difference)
    requires k <= |plan.links|
  {
    exists i {:trigger plan.links[i]} :: 0 <= i < k && !PairRecorded(o, records, plan.links[i])
                                         && d == OfPair(records, plan.links[i])
  }

  /** Missing ids are a fault of the recorded state, others of the live network. */
  function OfPair(records: Records, l: LinkPlan): (r: Difference) {
    OfLink(l, RecordedId(records, l.left).Some? && RecordedId(records, l.right).Some?, AtLinkId)
  }

  ghost predicate LosesRecord(plan: NetworkPlan, o: Observed, records: Records, k: nat, name: string)
    requires k <= |plan.links|
  {
    exists i {:trigger plan.links[i]} :: 0 <= i < k && !PairRecorded(o, records, plan.links[i])
                                         && EndsAt(plan.links[i], name)
  }

  const NO_SNAPSHOT := Difference(false, None, None, AtSnapshot)

  const NOT_DEPLOYED := Difference(false, None, None, AtSnapshotStatus)

  /** A difference to the recorded state. */
  ghost predicate StateReported(plan: NetworkPlan, checked: Option<Checked>, o: Observed, absent: bool, d: Difference) {
    match checked
    case None => !absent && d == NO_SNAPSHOT
    case Some(c) =>
      if !c.deployed then d == NOT_DEPLOYED else PairReported(plan, o, c.records, |plan.links|, d)
  }

  ghost predicate StateImpacted(plan: NetworkPlan, checked: Option<Checked>, o: Observed, name: string) {
    checked.Some? && checked.value.deployed && LosesRecord(plan, o, checked.value.records, |plan.links|, name)
  }

  method PairDifferences(plan: NetworkPlan, records: Records, o: Observed)
    returns (differences: seq<Difference>, impacted: set<string>)
    ensures differences == [] <==>
            forall k {:trigger plan.links[k]} | 0 <= k < |plan.links| :: PairRecorded(o, records, plan.links[k])
    ensures forall d :: d in differences <==> PairReported(plan, o, records, |plan.links|, d)
    ensures forall x :: x in impacted <==> LosesRecord(plan, o, records, |plan.links|, x)
  {
    differences, impacted := [], {};
    for k := 0 to |plan.links|
      invariant differences == [] <==>
                  forall i {:trigger plan.links[i]} | 0 <= i < k :: PairRecorded(o, records, plan.links[i])
      invariant forall d :: d in differences <==> PairReported(plan, o, records, k, d)
      invariant forall x :: x in impacted <==> LosesRecord(plan, o, records, k, x)
    {
      var l := plan.links[k];
      var missing := RecordedId(records, l.left).None? || RecordedId(records, l.right).None?;
      if missing || RecordedId(records, l.left) != ObservedId(o, l.left)
        || RecordedId(records, l.right) != ObservedId(o, l.right) {
        differences := differences + [OfLink(l, !missing, AtLinkId)];
        impacted := impacted + {l.left.node, l.right.node};
      }
    }
  }

  method StateDifferences(plan: NetworkPlan, checked: Option<Checked>, o: Observed, absent: bool)
    returns (differences: seq<Difference>, impacted: set<string>)
    ensures differences == [] <==> StateClean(plan, checked, o, absent)
    ensures forall d :: d in differences <==> StateReported(plan, checked, o, absent, d)
    ensures forall x :: x in impacted <==> StateImpacted(plan, checked, o, x)
  {
    differences, impacted := [], {};
    if checked.None? {
      if !absent { differences := [NO_SNAPSHOT]; }
      return;
    }
    if !checked.value.deployed {
      return [NOT_DEPLOYED], {};
    }
    differences, impacted := PairDifferences(plan, checked.value.records, o);
  }

  // The inspector and the matcher.

  /** Every TBF of the node's link ends is observed exactly as planned. */
  ghost predicate TbfsAsPlanned(plan: NetworkPlan, node: NodePlan, o: Observed) {
    forall k {:trigger EndHere(plan, node, k)} | EndHere(plan, node, k) :: TbfAt(plan, o, k)
  }

  ghost predicate TbfAt(plan: NetworkPlan, o: Observed, k: int)
    requires 0 <= k < 2 * |plan.links|
  {
    var p := Ends(plan.links)[k].port;
    Present(o, p) && TbfAsPlanned(plan.links[k / 2].qdisc, o.namespaces[p.namespace].interfaces[p.interface].qdisc)
  }

  /** Only link ends are expected to have a qdisc. */
  lemma OnlyEndsShaped(plan: NetworkPlan, node: NodePlan, expected: map<string, Expected>, n: string)
    requires IsExpected(plan, node, expected) && n in expected && expected[n].qdisc.Some?
    ensures exists k :: EndHere(plan, node, k) && Ends(plan.links)[k].port.interface == n
  {
    NameCases(plan, node, n);
  }

  /** The interfaces of a matching node differ only in rounded TBFs. */
  lemma InterfacesAgree(plan: NetworkPlan, node: NodePlan, expected: map<string, Expected>,
                        actual: map<string, Interface>)
    requires DevicesPlanned(plan, node) && IsExpected(plan, node, expected)
             && actual.Keys - RuntimeNames(node) == expected.Keys
    requires forall n | n in expected :: n in actual && Fits(n, expected[n], actual[n])
    ensures InterfacesClean(DesiredMap(plan, node), actual, RuntimeNames(node))
            <==> forall n | n in expected :: TbfAsPlanned(expected[n].qdisc, actual[n].qdisc)
  {
    DesiredIsExpected(plan, node, expected);
    SameUnlessRounded(DesiredMap(plan, node), expected, actual, RuntimeNames(node));
  }

  lemma SameUnlessRounded(desired: map<string, InterfaceView>, expected: map<string, Expected>,
                          actual: map<string, Interface>,
                          runtime: set<string>)
    requires desired.Keys == expected.Keys == actual.Keys - runtime
    requires forall n | n in expected :: desired[n] == ToView(n, expected[n])
    requires forall n | n in expected :: n in actual && Fits(n, expected[n], actual[n])
    ensures InterfacesClean(desired, actual, runtime)
            <==> forall n | n in expected :: TbfAsPlanned(expected[n].qdisc, actual[n].qdisc)
  {
    forall n | n in expected
      ensures SameAs(desired[n], actual[n]) <==> TbfAsPlanned(expected[n].qdisc, actual[n].qdisc)
    {
      FitsIsSame(n, expected[n], actual[n]);
    }
  }

  lemma RoundedByName(plan: NetworkPlan, node: NodePlan, expected: map<string, Expected>, o: Observed)
    requires IsExpected(plan, node, expected) && node.namespace in o.namespaces
    requires expected.Keys <= o.namespaces[node.namespace].interfaces.Keys
    ensures TbfsAsPlanned(plan, node, o)
            <==> forall n | n in expected ::
                TbfAsPlanned(expected[n].qdisc, o.namespaces[node.namespace].interfaces[n].qdisc)
  {
    if TbfsAsPlanned(plan, node, o) {
      forall n | n in expected
        ensures TbfAsPlanned(expected[n].qdisc, o.namespaces[node.namespace].interfaces[n].qdisc)
      {
        if expected[n].qdisc.Some? {
          OnlyEndsShaped(plan, node, expected, n);
          var k :| EndHere(plan, node, k) && Ends(plan.links)[k].port.interface == n;
          assert TbfAt(plan, o, k);
        }
      }
    } else {
      var k :| EndHere(plan, node, k) && !TbfAt(plan, o, k);
      var n := Ends(plan.links)[k].port.interface;
      assert n in expected && expected[n].qdisc == plan.links[k / 2].qdisc;
    }
  }

  /** In a matching node the inspector finds fault with rounded TBFs and nothing else. */
  lemma CleanUnlessRounded(plan: NetworkPlan, node: NodePlan, o: Observed)
    requires DevicesPlanned(plan, node) && NodeObserved(plan, node, o)
    ensures NodeClean(plan, node, o) <==> TbfsAsPlanned(plan, node, o)
  {
    var i := o.namespaces[node.namespace];
    var expected :| IsExpected(plan, node, expected) && NodeAgrees(plan, node, expected, i);
    InterfacesAgree(plan, node, expected, i.interfaces);
    RoundedByName(plan, node, expected, o);
  }

  /** Every namespace of a matching inventory exists. */
  lemma MatchedExists(plan: NetworkPlan, o: Observed, p: Port)
    requires MatchesPlan(plan, o) && Present(o, p)
    ensures LiveAt(o, p).Some?
  {
    assert p.namespace in PlannedNamespaces(plan);
    var k :| 0 <= k < |plan.nodes| && plan.nodes[k].namespace == p.namespace;
    assert NodeObserved(plan, plan.nodes[k], o);
    var expected :| IsExpected(plan, plan.nodes[k], expected)
      && NodeAgrees(plan, plan.nodes[k], expected, o.namespaces[p.namespace]);
  }

  /** A link that agrees is one that the inspector shows as present. */
  lemma AgreedIsPresent(plan: NetworkPlan, o: Observed, l: LinkPlan)
    requires MatchesPlan(plan, o) && l in plan.links
    ensures LinkPresent(o, l)
  {
    assert LinkAgrees(o, l);
    assert IsVeth(o, l.left.port) && IsVeth(o, l.right.port);
    MatchedExists(plan, o, l.left.port);
    MatchedExists(plan, o, l.right.port);
    forall p {:trigger Grouped(o, p)} | Grouped(o, p) && IdAt(o, p) == IdAt(o, l.left.port)
      ensures p == l.left.port || p == l.right.port
    {
      assert IsVeth(o, p);
    }
  }

  /** Every TBF of the plan is observed exactly as planned. */
  ghost predicate AllTbfsAsPlanned(plan: NetworkPlan, o: Observed) {
    forall k {:trigger plan.nodes[k]} | 0 <= k < |plan.nodes| :: TbfsAsPlanned(plan, plan.nodes[k], o)
  }

  /** Of a matching inventory the inspector reports exactly the rounded TBFs. */
  lemma LiveCleanUnlessRounded(plan: NetworkPlan, o: Observed)
    requires AllPlanned(plan) && MatchesPlan(plan, o)
    ensures LiveClean(plan, o) <==> AllTbfsAsPlanned(plan, o)
  {
    forall k {:trigger plan.nodes[k]} | 0 <= k < |plan.nodes|
      ensures NodeClean(plan, plan.nodes[k], o) <==> TbfsAsPlanned(plan, plan.nodes[k], o)
    {
      assert NodeObserved(plan, plan.nodes[k], o);
      CleanUnlessRounded(plan, plan.nodes[k], o);
    }
    forall k {:trigger plan.links[k]} | 0 <= k < |plan.links|
      ensures LinkPresent(o, plan.links[k])
    {
      AgreedIsPresent(plan, o, plan.links[k]);
    }
  }

  /** Identities that the matcher accepts are identities that the inspector accepts. */
  lemma RecordedIsClean(plan: NetworkPlan, o: Observed, records: Records)
    requires MatchesPlan(plan, o) && RecordedMatches(plan, o, records)
    ensures forall k {:trigger plan.links[k]} | 0 <= k < |plan.links| :: PairRecorded(o, records, plan.links[k])
  {
    forall k {:trigger plan.links[k]} | 0 <= k < |plan.links|
      ensures PairRecorded(o, records, plan.links[k])
    {
      assert PairRecordedLive(o, records, plan.links[k]);
      MatchedExists(plan, o, plan.links[k].left.port);
      MatchedExists(plan, o, plan.links[k].right.port);
    }
  }

  lemma WellFormedIsPlanned(plan: NetworkPlan)
    requires WellFormed(plan)
    ensures AllPlanned(plan)
  {
    forall k {:trigger plan.nodes[k]} | 0 <= k < |plan.nodes|
      ensures DevicesPlanned(plan, plan.nodes[k])
    {
      assert NodeFits(plan, plan.nodes[k]);
    }
  }

  /** The snapshot says deployed and complete, and inventory, plan and records agree. */
  ghost predicate IsDeployed(plan: NetworkPlan, checked: Option<Checked>, o: Observed) {
    && checked.Some? && checked.value.deployed && checked.value.complete
    && MatchesPlan(plan, o) && RecordedMatches(plan, o, checked.value.records)
  }

  method StatusOf(plan: NetworkPlan, checked: Option<Checked>, o: Observed, absent: bool) returns (status: Status)
    requires WellFormed(plan)
    ensures absent ==> status == if checked.None? then Absent else Status.Stale
    ensures !absent ==> status == if IsDeployed(plan, checked, o) then Deployed else Degraded
  {
    var live := InventoryMatchesPlan(plan, o);
    var recorded := false;
    if checked.Some? && checked.value.complete {
      recorded := RecordedLinkIdsMatch(plan, o, checked.value.records);
    }
    if absent {
      status := if checked.None? then Absent else Status.Stale;
    } else {
      status := if checked.Some? && checked.value.deployed && live && recorded then Deployed else Degraded;
    }
  }

  /** The status of each node: missing, touched by a difference, or matching. */
  function NodeStatuses(plan: NetworkPlan, o: Observed, impacted: set<string>): (s: seq<NodeStatus>)
    ensures |s| == |plan.nodes|
  {
    seq(|plan.nodes|, k requires 0 <= k < |plan.nodes| =>
      var node := plan.nodes[k];
      if node.namespace !in o.namespaces || !o.namespaces[node.namespace].exists_ then Missing
      else if node.name in impacted then Impaired else Matching)
  }

  lemma DeployedIsClean(plan: NetworkPlan, checked: Option<Checked>, o: Observed)
    requires AllPlanned(plan) && IsDeployed(plan, checked, o)
    ensures LiveClean(plan, o) <==> AllTbfsAsPlanned(plan, o)
    ensures StateClean(plan, checked, o, false)
  {
    LiveCleanUnlessRounded(plan, o);
    RecordedIsClean(plan, o, checked.value.records);
  }

  /** The node is missing: its namespace is not observed, or does not exist. */
  predicate IsMissing(o: Observed, node: NodePlan) {
    node.namespace !in o.namespaces || !o.namespaces[node.namespace].exists_
  }

  /**
   Nothing is wrong at a node: it is clean, none of its links is missing or recorded with other ids, and none of its
   temporaries is left in the root.
   */
  ghost predicate IsSound(plan: NetworkPlan, checked: Option<Checked>, o: Observed, k: nat)
    requires AllPlanned(plan) && k < |plan.nodes|
  {
    var node := plan.nodes[k];
    && NodeClean(plan, node, o)
    && (forall i {:trigger plan.links[i]} | 0 <= i < |plan.links| && EndsAt(plan.links[i], node.name) ::
          && LinkPresent(o, plan.links[i])
          && (checked.Some? && checked.value.deployed ==> PairRecorded(o, checked.value.records, plan.links[i])))
    && forall t {:trigger Owns(plan, t, node.name)} | t in o.root :: !Owns(plan, t, node.name)
  }

  lemma UncleanNode(plan: NetworkPlan, o: Observed, k: nat)
    requires AllPlanned(plan) && DistinctNames(plan) && k < |plan.nodes|
    ensures Unclean(plan, o, |plan.nodes|, plan.nodes[k].name) <==> !NodeClean(plan, plan.nodes[k], o)
  {
    if Unclean(plan, o, |plan.nodes|, plan.nodes[k].name) {
      var i :| 0 <= i < |plan.nodes| && plan.nodes[i].name == plan.nodes[k].name
        && !NodeClean(plan, plan.nodes[i], o);
      assert i == k;
    }
  }

  /** The nodes that no difference touches are the sound ones. */
  lemma ImpactedIffUnsound(plan: NetworkPlan, checked: Option<Checked>, o: Observed, k: nat)
    requires AllPlanned(plan) && DistinctNames(plan) && k < |plan.nodes|
    ensures !LiveImpacted(plan, o, plan.nodes[k].name) && !StateImpacted(plan, checked, o, plan.nodes[k].name)
            <==> IsSound(plan, checked, o, k)
  {
    UncleanNode(plan, o, k);
  }

  /** All that the report may list, in one status or another. */
  ghost predicate Reported(plan: NetworkPlan, checked: Option<Checked>, o: Observed, d: Difference)
    requires AllPlanned(plan)
  {
    LiveReported(plan, o, d) || StateReported(plan, checked, o, InventoryAbsent(plan, o), d)
  }

  const NO_MATCH := Difference(true, None, None, AtInventory)

  /**
   The report. A topology that was never deployed is absent, one that is gone is stale, and a deployed one is what
   the matcher and the snapshot agree on; each difference is one that there is, and none is left out.
   A deployed topology is reported without differences exactly when no TBF was rounded; an absent one never has
   any, a stale or degraded one always has.
   */
  method InspectTopology(plan: NetworkPlan, checked: Option<Checked>, o: Observed)
    returns (status: Status, differences: seq<Difference>, nodes: seq<NodeStatus>)
    requires WellFormed(plan)
    ensures AllPlanned(plan)
    ensures status == Absent <==> InventoryAbsent(plan, o) && checked.None?
    ensures status == Status.Stale <==> InventoryAbsent(plan, o) && checked.Some?
    ensures status == Deployed <==> !InventoryAbsent(plan, o) && IsDeployed(plan, checked, o)
    ensures status == Deployed ==> (differences == [] <==> AllTbfsAsPlanned(plan, o))
    ensures status == Absent ==> differences == []
    ensures status == Status.Stale || status == Degraded ==> differences != []
    ensures status != Absent ==> Lists(plan, checked, o, differences)
    ensures |nodes| == |plan.nodes|
    ensures forall k | 0 <= k < |nodes| :: nodes[k] == Missing <==> IsMissing(o, plan.nodes[k])
    ensures forall k | 0 <= k < |nodes| :: nodes[k] == Matching <==> IsSound(plan, checked, o, k)
  {
    WellFormedIsPlanned(plan);
    var absent := InventoryAbsent(plan, o);
    status := StatusOf(plan, checked, o, absent);
    var live, touched := LiveDifferences(plan, o);
    var state, recorded := StateDifferences(plan, checked, o, absent);
    differences := if status == Absent then [] else live + state;
    if (status == Status.Stale || status == Degraded) && differences == [] {
      differences := [NO_MATCH];
    }
    nodes := NodeStatuses(plan, o, touched + recorded);
    if status == Deployed { DeployedIsClean(plan, checked, o); }
    if status != Absent { ListMeans(plan, checked, o, live, state, differences); }
    StatusesMean(plan, checked, o, touched + recorded, nodes);
  }

  /** The list is what there is to report, or the one difference that stands for an unexplained mismatch. */
  ghost predicate Lists(plan: NetworkPlan, checked: Option<Checked>, o: Observed, differences: seq<Difference>)
    requires AllPlanned(plan)
  {
    if differences == [NO_MATCH] then forall d :: !Reported(plan, checked, o, d)
    else forall d :: d in differences <==> Reported(plan, checked, o, d)
  }

  lemma ListMeans(plan: NetworkPlan, checked: Option<Checked>, o: Observed, live: seq<Difference>,
                  state: seq<Difference>, differences: seq<Difference>)
    requires AllPlanned(plan)
    requires forall d :: d in live <==> LiveReported(plan, o, d)
    requires forall d :: d in state <==> StateReported(plan, checked, o, InventoryAbsent(plan, o), d)
    requires differences == live + state || (live + state == [] && differences == [NO_MATCH])
    ensures Lists(plan, checked, o, differences)
  {
    if differences == live + state {
      forall d
        ensures d in differences <==> Reported(plan, checked, o, d)
      {
      }
      assert NO_MATCH !in differences;
    } else {
      forall d
        ensures !Reported(plan, checked, o, d)
      {
        assert d !in live + state;
      }
    }
  }

  lemma StatusesMean(plan: NetworkPlan, checked: Option<Checked>, o: Observed, impacted: set<string>,
                     nodes: seq<NodeStatus>)
    requires AllPlanned(plan) && DistinctNames(plan) && nodes == NodeStatuses(plan, o, impacted)
    requires forall x :: x in impacted <==> LiveImpacted(plan, o, x) || StateImpacted(plan, checked, o, x)
    ensures forall k | 0 <= k < |nodes| :: nodes[k] == Missing <==> IsMissing(o, plan.nodes[k])
    ensures forall k | 0 <= k < |nodes| :: nodes[k] == Matching <==> IsSound(plan, checked, o, k)
  {
    forall k | 0 <= k < |nodes|
      ensures nodes[k] == Missing <==> IsMissing(o, plan.nodes[k])
      ensures nodes[k] == Matching <==> IsSound(plan, checked, o, k)
    {
      ImpactedIffUnsound(plan, checked, o, k);
    }
  }
}
