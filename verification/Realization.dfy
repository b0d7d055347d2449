/**
 The two sides together: the in-memory backend builds and configures any well-formed plan so that the
 independently computed expectation accepts it, and tears it down again to nothing.
 */
module Realization {
  import opened Configure
  import opened Configured
  import opened FakeBackend
  import opened Indexes
  import opened Matcher
  import opened Network
  import opened Options
  import opened Planned
  import opened Topology

  /** Interfaces of a node after its bridge, if `bridged`, and the first `k` link ends were created. */
  function BuiltTable(plan: NetworkPlan, node: NodePlan, bridged: bool, k: nat, first: nat): (r: map<string, Interface>)
    requires k <= 2 * |plan.links|
  {
    if k == 0 then
      if bridged && node.bridge.Some?
        then map["lo" := NewLoopback()][node.bridge.value.name := NewBridge(node.bridge.value)]
      else map["lo" := NewLoopback()]
    else
      var before := BuiltTable(plan, node, bridged, k - 1, first);
      if EndHere(plan, node, k - 1) then before[Ends(plan.links)[k - 1].port.interface := NewEnd(plan, k - 1, first)]
        else before
  }

  function NewEnd(plan: NetworkPlan, e: nat, first: nat): (r: Interface)
    requires e < 2 * |plan.links|
  {
    NewVeth(Ends(plan.links)[e].port.interface, plan.links[e / 2], first + e / 2)
  }

  function BuiltNode(plan: NetworkPlan, node: NodePlan, bridged: bool, k: nat, first: nat): (r: Inventory)
    requires k <= 2 * |plan.links|
  {
    Inventory(node.name, node.bridge.Some?, node.namespace, true, BuiltTable(plan, node, bridged, k, first), [], map[])
  }

  /** The first `i` namespaces exist, the first `b` bridges, and the first `k` link ends. */
  ghost predicate Built(plan: NetworkPlan, i: nat, b: nat, k: nat, first: nat, namespaces: Namespaces) {
    && i <= |plan.nodes| && k <= 2 * |plan.links|
    && namespaces.Keys == (set n | n in plan.nodes[..i] :: n.namespace)
    && forall j {:trigger AsBuilt(plan, j, b, k, first, namespaces)} | 0 <= j < i ::
         AsBuilt(plan, j, b, k, first, namespaces)
  }

  ghost predicate AsBuilt(plan: NetworkPlan, j: nat, b: nat, k: nat, first: nat, namespaces: Namespaces)
    requires j < |plan.nodes| && k <= 2 * |plan.links|
  {
    && plan.nodes[j].namespace in namespaces
    && namespaces[plan.nodes[j].namespace] == BuiltNode(plan, plan.nodes[j], j < b, k, first)
  }

  lemma {:induction false} BuiltKeys(plan: NetworkPlan, node: NodePlan, bridged: bool, k: nat, first: nat)
    requires k <= 2 * |plan.links|
    ensures BuiltTable(plan, node, bridged, k, first).Keys
            == {"lo"} + (if bridged then BridgeNames(node) else {}) + EndNames(plan, node, k)
  {
    if k > 0 {
      BuiltKeys(plan, node, bridged, k - 1, first);
    }
  }

  /** Loopback and bridge are not overwritten by link ends. */
  lemma {:induction false} BuiltBase(plan: NetworkPlan, node: NodePlan, k: nat, first: nat, n: string)
    requires k <= 2 * |plan.links| && DistinctEnds(plan) && DevicesFit(plan, node) && n in {"lo"} + BridgeNames(node)
    ensures n in BuiltTable(plan, node, true, k, first)
    ensures BuiltTable(plan, node, true, k, first)[n] == if n == "lo" then NewLoopback()
            else NewBridge(node.bridge.value)
  {
    if k > 0 {
      BuiltBase(plan, node, k - 1, first, n);
      if EndHere(plan, node, k - 1) {
        EndIsFresh(plan, node, k - 1);
      }
    }
  }

  /** Nor are earlier link ends by later ones. */
  lemma {:induction false} BuiltAt(plan: NetworkPlan, node: NodePlan, k: nat, first: nat, e: nat)
    requires k <= 2 * |plan.links| && DistinctEnds(plan) && DevicesFit(plan, node) && EndHere(plan, node, e) && e < k
    ensures var n := Ends(plan.links)[e].port.interface;
            n in BuiltTable(plan, node, true, k, first)
              && BuiltTable(plan, node, true, k, first)[n] == NewEnd(plan, e, first)
  {
    if e < k - 1 {
      BuiltAt(plan, node, k - 1, first, e);
      if EndHere(plan, node, k - 1) {
        EndIsFresh(plan, node, k - 1);
      }
    }
  }

  /** When all is built, the node is ready to be configured. */
  lemma BuiltIsRaw(plan: NetworkPlan, node: NodePlan, first: nat)
    requires DistinctEnds(plan) && DevicesFit(plan, node)
    ensures Raw(plan, node, BuiltTable(plan, node, true, 2 * |plan.links|, first))
  {
    var m := BuiltTable(plan, node, true, 2 * |plan.links|, first);
    BuiltKeys(plan, node, true, 2 * |plan.links|, first);
    AllEndNames(plan, node);
    BuiltBase(plan, node, 2 * |plan.links|, first, "lo");
    if node.bridge.Some? { BuiltBase(plan, node, 2 * |plan.links|, first, node.bridge.value.name); }
    forall n | n in LinkedNames(plan, node.namespace)
      ensures RawEnd(m[n], n)
    {
      EndNamesHave(plan, node, 2 * |plan.links|, n);
      var e :| EndHere(plan, node, e) && Ends(plan.links)[e].port.interface == n;
      BuiltAt(plan, node, 2 * |plan.links|, first, e);
    }
  }

  lemma NamespaceIsFree(plan: NetworkPlan, i: nat, first: nat, namespaces: Namespaces)
    requires DistinctNamespaces(plan) && i < |plan.nodes| && Built(plan, i, 0, 0, first, namespaces)
    ensures plan.nodes[i].namespace !in namespaces
  {
    forall n | n in plan.nodes[..i]
      ensures n.namespace != plan.nodes[i].namespace
    {
      var j :| 0 <= j < i && plan.nodes[j] == n;
    }
  }

  lemma OneMoreNamespace(plan: NetworkPlan, i: nat, first: nat, namespaces: Namespaces, after: Namespaces)
    requires i < |plan.nodes| && Built(plan, i, 0, 0, first, namespaces) && plan.nodes[i].namespace !in namespaces
    requires after == namespaces[plan.nodes[i].namespace := BuiltNode(plan, plan.nodes[i], false, 0, first)]
    ensures Built(plan, i + 1, 0, 0, first, after)
  {
    assert plan.nodes[..i + 1] == plan.nodes[..i] + [plan.nodes[i]];
    var next := i + 1;
    forall j: nat | j < next
      ensures AsBuilt(plan, j, 0, 0, first, after)
    {
      assert j < i ==> AsBuilt(plan, j, 0, 0, first, namespaces);
    }
  }

  lemma NodeBuilt(plan: NetworkPlan, b: nat, k: nat, first: nat, namespaces: Namespaces, j: nat)
    requires Built(plan, |plan.nodes|, b, k, first, namespaces) && j < |plan.nodes|
    ensures plan.nodes[j].namespace in namespaces
    ensures namespaces[plan.nodes[j].namespace] == BuiltNode(plan, plan.nodes[j], j < b, k, first)
  {
    assert AsBuilt(plan, j, b, k, first, namespaces);
  }

  lemma OneMoreBridge(plan: NetworkPlan, b: nat, first: nat, namespaces: Namespaces, after: Namespaces)
    requires DistinctNamespaces(plan) && b < |plan.nodes| && Built(plan, |plan.nodes|, b, 0, first, namespaces)
    requires plan.nodes[b].namespace in namespaces
    requires var node := plan.nodes[b];
             after == if node.bridge.None? then namespaces
                      else WithInterface(namespaces, Port(node.namespace, node.bridge.value.name),
                        NewBridge(node.bridge.value))
    ensures Built(plan, |plan.nodes|, b + 1, 0, first, after)
  {
    var next := b + 1;
    forall j: nat | j < |plan.nodes|
      ensures AsBuilt(plan, j, next, 0, first, after)
    {
      NodeBuilt(plan, b, 0, first, namespaces, j);
    }
  }

  lemma OneMoreEnd(plan: NetworkPlan, e: nat, first: nat, namespaces: Namespaces)
    requires DistinctNamespaces(plan) && e < 2 * |plan.links|
             && Built(plan, |plan.nodes|, |plan.nodes|, e, first, namespaces)
    requires Ends(plan.links)[e].port.namespace in namespaces
    ensures Built(plan, |plan.nodes|, |plan.nodes|, e + 1, first,
            WithInterface(namespaces, Ends(plan.links)[e].port, NewEnd(plan, e, first)))
  {
    var after := WithInterface(namespaces, Ends(plan.links)[e].port, NewEnd(plan, e, first));
    var next := e + 1;
    forall j: nat | j < |plan.nodes|
      ensures AsBuilt(plan, j, |plan.nodes|, next, first, after)
    {
      NodeBuilt(plan, |plan.nodes|, e, first, namespaces, j);
    }
  }

  /** The end's namespace exists and its name is still free there. */
  lemma EndIsFree(plan: NetworkPlan, e: nat, p: Port, k: nat, first: nat, namespaces: Namespaces)
    requires WellFormed(plan) && k <= e < 2 * |plan.links|
             && Built(plan, |plan.nodes|, |plan.nodes|, k, first, namespaces)
    requires p == Ends(plan.links)[e].port
    ensures p.namespace in namespaces && !Has(namespaces, p)
  {
    assert OnNode(plan, Ends(plan.links)[e]);
    var j :| 0 <= j < |plan.nodes| && plan.nodes[j].namespace == Ends(plan.links)[e].port.namespace;
    var node := plan.nodes[j];
    assert NodeFits(plan, node);
    NodeBuilt(plan, |plan.nodes|, k, first, namespaces, j);
    BuiltKeys(plan, node, true, k, first);
    EndIsFresh(plan, node, e);
    EndNamesHave(plan, node, k, Ends(plan.links)[e].port.interface);
  }

  lemma EndsOfLink(plan: NetworkPlan, k: nat, first: nat)
    requires k < |plan.links|
    ensures Ends(plan.links)[2 * k] == plan.links[k].left && Ends(plan.links)[2 * k + 1] == plan.links[k].right
    ensures NewEnd(plan, 2 * k, first) == NewVeth(plan.links[k].left.port.interface, plan.links[k], first + k)
    ensures NewEnd(plan, 2 * k + 1, first) == NewVeth(plan.links[k].right.port.interface, plan.links[k], first + k)
  {
  }

  lemma OneMoreLink(plan: NetworkPlan, k: nat, e: nat, first: nat, namespaces: Namespaces, after: Namespaces)
    requires DistinctNamespaces(plan) && k < |plan.links| && e == 2 * k
             && Built(plan, |plan.nodes|, |plan.nodes|, e, first, namespaces)
    requires plan.links[k].left.port.namespace in namespaces && plan.links[k].right.port.namespace in namespaces
    requires after == WithLink(namespaces, plan.links[k], first + k)
    ensures Built(plan, |plan.nodes|, |plan.nodes|, e + 2, first, after)
  {
    EndsOfLink(plan, k, first);
    OneMoreEnd(plan, e, first, namespaces);
    SecondEnd(plan, k, e, first, WithInterface(namespaces, plan.links[k].left.port, NewEnd(plan, e, first)));
  }

  lemma SecondEnd(plan: NetworkPlan, k: nat, e: nat, first: nat, one: Namespaces)
    requires DistinctNamespaces(plan) && k < |plan.links| && e == 2 * k
             && Built(plan, |plan.nodes|, |plan.nodes|, e + 1, first, one)
    requires plan.links[k].right.port.namespace in one
    ensures Built(plan, |plan.nodes|, |plan.nodes|, e + 2, first,
                  WithInterface(one, plan.links[k].right.port,
                    NewVeth(plan.links[k].right.port.interface, plan.links[k], first + k)))
  {
    EndsOfLink(plan, k, first);
    OneMoreEnd(plan, e + 1, first, one);
  }

  /** The live veths are exactly the planned link ends, and the k-th link has identity `first + k` at both. */
  ghost predicate IdsRight(plan: NetworkPlan, o: Observed, first: nat) {
    && (forall e {:trigger Ends(plan.links)[e]} | 0 <= e < 2 * |plan.links| ::
          IsVeth(o, Ends(plan.links)[e].port) && IdAt(o, Ends(plan.links)[e].port) == Some(first + e / 2))
    && (forall p {:trigger IsVeth(o, p)} | IsVeth(o, p) :: IsEnd(plan, p))
  }

  ghost predicate IsEnd(plan: NetworkPlan, p: Port) {
    exists e :: 0 <= e < 2 * |plan.links| && Ends(plan.links)[e].port == p
  }

  lemma EndIsBuilt(plan: NetworkPlan, first: nat, namespaces: Namespaces, e: nat)
    requires WellFormed(plan) && Built(plan, |plan.nodes|, |plan.nodes|, 2 * |plan.links|, first, namespaces)
             && e < 2 * |plan.links|
    ensures IsVeth(View(namespaces), Ends(plan.links)[e].port)
    ensures IdAt(View(namespaces), Ends(plan.links)[e].port) == Some(first + e / 2)
  {
    assert OnNode(plan, Ends(plan.links)[e]);
    var j :| 0 <= j < |plan.nodes| && plan.nodes[j].namespace == Ends(plan.links)[e].port.namespace;
    NodeBuilt(plan, |plan.nodes|, 2 * |plan.links|, first, namespaces, j);
    assert NodeFits(plan, plan.nodes[j]);
    BuiltAt(plan, plan.nodes[j], 2 * |plan.links|, first, e);
  }

  lemma VethIsEnd(plan: NetworkPlan, first: nat, namespaces: Namespaces, p: Port)
    requires WellFormed(plan) && Built(plan, |plan.nodes|, |plan.nodes|, 2 * |plan.links|, first, namespaces)
    requires IsVeth(View(namespaces), p)
    ensures IsEnd(plan, p)
  {
    assert plan.nodes[..|plan.nodes|] == plan.nodes;
    var j :| 0 <= j < |plan.nodes| && plan.nodes[j].namespace == p.namespace;
    var node := plan.nodes[j];
    NodeBuilt(plan, |plan.nodes|, 2 * |plan.links|, first, namespaces, j);
    BuiltKeys(plan, node, true, 2 * |plan.links|, first);
    assert NodeFits(plan, node);
    if p.interface in {"lo"} + BridgeNames(node) {
      BuiltBase(plan, node, 2 * |plan.links|, first, p.interface);
    } else {
      EndNamesHave(plan, node, 2 * |plan.links|, p.interface);
      var e :| EndHere(plan, node, e) && Ends(plan.links)[e].port.interface == p.interface;
      assert Ends(plan.links)[e].port == p;
    }
  }

  lemma BuiltIds(plan: NetworkPlan, first: nat, namespaces: Namespaces)
    requires WellFormed(plan) && Built(plan, |plan.nodes|, |plan.nodes|, 2 * |plan.links|, first, namespaces)
    ensures IdsRight(plan, View(namespaces), first)
  {
    forall e | 0 <= e < 2 * |plan.links|
      ensures IsVeth(View(namespaces), Ends(plan.links)[e].port)
              && IdAt(View(namespaces), Ends(plan.links)[e].port) == Some(first + e / 2)
    {
      EndIsBuilt(plan, first, namespaces, e);
    }
    forall p | IsVeth(View(namespaces), p)
      ensures IsEnd(plan, p)
    {
      VethIsEnd(plan, first, namespaces, p);
    }
  }

  lemma IdsStay(plan: NetworkPlan, o: Observed, o': Observed, first: nat)
    requires IdsRight(plan, o, first) && SameIds(o, o')
    ensures IdsRight(plan, o', first)
  {
    forall e | 0 <= e < 2 * |plan.links|
      ensures IsVeth(o', Ends(plan.links)[e].port) && IdAt(o', Ends(plan.links)[e].port) == Some(first + e / 2)
    {
      assert IsVeth(o, Ends(plan.links)[e].port);
    }
    forall p | IsVeth(o', p)
      ensures IsEnd(plan, p)
    {
      assert IsVeth(o, p);
    }
  }

  /** Right identities make every link agree. */
  lemma IdsAgree(plan: NetworkPlan, o: Observed, first: nat)
    requires IdsRight(plan, o, first)
    ensures LinksAgree(plan, o)
  {
    forall p | IsVeth(o, p)
      ensures IdAt(o, p).Some?
    {
      assert IsEnd(plan, p);
    }
    forall k | 0 <= k < |plan.links|
      ensures LinkAgrees(o, plan.links[k]) && IdAt(o, plan.links[k].left.port) == Some(first + k)
    {
      LinkIdAgrees(plan, o, first, k);
    }
  }

  lemma LinkIdAgrees(plan: NetworkPlan, o: Observed, first: nat, k: nat)
    requires IdsRight(plan, o, first) && k < |plan.links|
    ensures LinkAgrees(o, plan.links[k]) && IdAt(o, plan.links[k].left.port) == Some(first + k)
  {
    EndsOfLink(plan, k, first);
    forall p: Port
      ensures IsVeth(o, p) && IdAt(o, p) == Some(first + k)
              <==> p == plan.links[k].left.port || p == plan.links[k].right.port
    {
      if IsVeth(o, p) && IdAt(o, p) == Some(first + k) {
        assert IsEnd(plan, p);
        var e :| 0 <= e < 2 * |plan.links| && Ends(plan.links)[e].port == p;
        assert e == 2 * k || e == 2 * k + 1;
      }
    }
  }

  lemma EndsDiffer(plan: NetworkPlan, k: nat)
    requires DistinctEnds(plan) && k < |plan.links|
    ensures plan.links[k].left.port != plan.links[k].right.port
  {
    EndsOfLink(plan, k, 0);
    assert EndsDifferAt(plan, 2 * k, 2 * k + 1);
  }

  method BuildNamespaces(b: Backend, plan: NetworkPlan)
    requires b.Valid() && WellFormed(plan) && b.failOn == None && b.namespaces == map[]
    modifies b
    ensures b.Valid() && b.nextLink == old(b.nextLink) && Built(plan, |plan.nodes|, 0, 0, b.nextLink, b.namespaces)
  {
    for i := 0 to |plan.nodes|
      invariant b.Valid() && b.nextLink == old(b.nextLink) && Built(plan, i, 0, 0, b.nextLink, b.namespaces)
    {
      ghost var before := b.namespaces;
      NamespaceIsFree(plan, i, b.nextLink, b.namespaces);
      var outcome := b.CreateNamespace(plan.nodes[i]);
      OneMoreNamespace(plan, i, b.nextLink, before, b.namespaces);
    }
  }

  method BuildBridge(b: Backend, plan: NetworkPlan, i: nat, ghost first: nat)
    requires b.Valid() && WellFormed(plan) && b.failOn == None && i < |plan.nodes|
    requires Built(plan, |plan.nodes|, i, 0, first, b.namespaces)
    modifies b
    ensures b.Valid() && b.nextLink == old(b.nextLink) && Built(plan, |plan.nodes|, i + 1, 0, first, b.namespaces)
  {
    ghost var before := b.namespaces;
    BridgeIsFree(plan, i, first, before);
    if plan.nodes[i].bridge.Some? {
      var outcome := b.CreateBridge(plan.nodes[i]);
    }
    OneMoreBridge(plan, i, first, before, b.namespaces);
  }

  lemma BridgeIsFree(plan: NetworkPlan, i: nat, first: nat, namespaces: Namespaces)
    requires WellFormed(plan) && i < |plan.nodes| && Built(plan, |plan.nodes|, i, 0, first, namespaces)
    ensures plan.nodes[i].namespace in namespaces
    ensures plan.nodes[i].bridge.Some? ==>
              !Has(namespaces, Port(plan.nodes[i].namespace, plan.nodes[i].bridge.value.name))
  {
    NodeBuilt(plan, i, 0, first, namespaces, i);
    assert NodeFits(plan, plan.nodes[i]);
  }

  method BuildBridges(b: Backend, plan: NetworkPlan)
    requires b.Valid() && WellFormed(plan) && b.failOn == None
             && Built(plan, |plan.nodes|, 0, 0, b.nextLink, b.namespaces)
    modifies b
    ensures b.Valid() && b.nextLink == old(b.nextLink)
            && Built(plan, |plan.nodes|, |plan.nodes|, 0, b.nextLink, b.namespaces)
  {
    ghost var first := b.nextLink;
    for i := 0 to |plan.nodes|
      invariant b.Valid() && b.nextLink == first && Built(plan, |plan.nodes|, i, 0, first, b.namespaces)
    {
      BuildBridge(b, plan, i, first);
    }
  }

  lemma PortsFree(plan: NetworkPlan, k: nat, e: nat, first: nat, namespaces: Namespaces)
    requires WellFormed(plan) && k < |plan.links| && e == 2 * k
             && Built(plan, |plan.nodes|, |plan.nodes|, e, first, namespaces)
    ensures LinkIsFree(plan.links[k], namespaces)
  {
    EndsOfLink(plan, k, first);
    EndIsFree(plan, e, plan.links[k].left.port, e, first, namespaces);
    EndIsFree(plan, e + 1, plan.links[k].right.port, e, first, namespaces);
    EndsDiffer(plan, k);
  }

  lemma LinkBuilt(plan: NetworkPlan, k: nat, e: nat, first: nat, namespaces: Namespaces)
    requires DistinctNamespaces(plan) && k < |plan.links| && e == 2 * k
             && Built(plan, |plan.nodes|, |plan.nodes|, e, first, namespaces)
    requires LinkIsFree(plan.links[k], namespaces)
    ensures plan.links[k].left.port != plan.links[k].right.port
    ensures Built(plan, |plan.nodes|, |plan.nodes|, e + 2, first, WithLink(namespaces, plan.links[k], first + k))
  {
    OneMoreLink(plan, k, e, first, namespaces, WithLink(namespaces, plan.links[k], first + k));
  }

  method BuildFreeLink(b: Backend, plan: NetworkPlan, k: nat, ghost e: nat, ghost first: nat)
    requires b.Valid() && b.failOn == None && k < |plan.links| && e == 2 * k && b.nextLink == first + k
    requires DistinctNamespaces(plan) && LinkIsFree(plan.links[k], b.namespaces)
    requires Built(plan, |plan.nodes|, |plan.nodes|, e, first, b.namespaces)
    modifies b
    ensures b.Valid() && b.nextLink == first + k + 1
    ensures Built(plan, |plan.nodes|, |plan.nodes|, e + 2, first, b.namespaces)
  {
    ghost var before := b.namespaces;
    LinkBuilt(plan, k, e, first, before);
    var outcome := b.CreateVeth(plan.links[k]);
  }

  method BuildLink(b: Backend, plan: NetworkPlan, k: nat, ghost e: nat, ghost first: nat)
    requires b.Valid() && WellFormed(plan) && b.failOn == None && k < |plan.links| && e == 2 * k
             && b.nextLink == first + k
    requires Built(plan, |plan.nodes|, |plan.nodes|, e, first, b.namespaces)
    modifies b
    ensures b.Valid() && b.nextLink == first + k + 1
    ensures Built(plan, |plan.nodes|, |plan.nodes|, e + 2, first, b.namespaces)
  {
    PortsFree(plan, k, e, first, b.namespaces);
    BuildFreeLink(b, plan, k, e, first);
  }

  method BuildLinks(b: Backend, plan: NetworkPlan) returns (ghost first: nat)
    requires b.Valid() && WellFormed(plan) && b.failOn == None
             && Built(plan, |plan.nodes|, |plan.nodes|, 0, b.nextLink, b.namespaces)
    modifies b
    ensures b.Valid() && Built(plan, |plan.nodes|, |plan.nodes|, 2 * |plan.links|, first, b.namespaces)
  {
    first := b.nextLink;
    ghost var e := 0;
    for k := 0 to |plan.links|
      invariant e == 2 * k && b.Valid() && b.nextLink == first + k
                && Built(plan, |plan.nodes|, |plan.nodes|, e, first, b.namespaces)
    {
      BuildLink(b, plan, k, e, first);
      e := e + 2;
    }
  }

  /** The first `c` nodes are configured, the others are as built. */
  ghost predicate ConfiguredUpTo(plan: NetworkPlan, c: nat, first: nat, namespaces: Namespaces) {
    && c <= |plan.nodes| && namespaces.Keys == PlannedNamespaces(plan)
    && forall j {:trigger NodeStands(plan, j, c, first, namespaces)} | 0 <= j < |plan.nodes| ::
         NodeStands(plan, j, c, first, namespaces)
  }

  ghost predicate NodeStands(plan: NetworkPlan, j: nat, c: nat, first: nat, namespaces: Namespaces)
    requires j < |plan.nodes|
  {
    var node, built := plan.nodes[j], BuiltNode(plan, plan.nodes[j], true, 2 * |plan.links|, first);
    && node.namespace in namespaces
    && if j < c then NodeConfigured(plan, node, built, namespaces[node.namespace])
       else namespaces[node.namespace] == built
  }

  lemma NoneConfigured(plan: NetworkPlan, first: nat, namespaces: Namespaces)
    requires Built(plan, |plan.nodes|, |plan.nodes|, 2 * |plan.links|, first, namespaces)
    ensures ConfiguredUpTo(plan, 0, first, namespaces)
  {
    assert plan.nodes[..|plan.nodes|] == plan.nodes;
    forall j: nat | j < |plan.nodes|
      ensures NodeStands(plan, j, 0, first, namespaces)
    {
      NodeBuilt(plan, |plan.nodes|, 2 * |plan.links|, first, namespaces, j);
    }
  }

  lemma StillStands(plan: NetworkPlan, j: nat, c: nat, next: nat, first: nat, before: Namespaces, after: Namespaces)
    requires DistinctNamespaces(plan) && c < |plan.nodes| && j < |plan.nodes| && j != c && next == c + 1
    requires NodeStands(plan, j, c, first, before) && after.Keys == before.Keys
    requires forall s | s in after && s != plan.nodes[c].namespace :: after[s] == before[s]
    ensures NodeStands(plan, j, next, first, after)
  {
    assert plan.nodes[j].namespace != plan.nodes[c].namespace;
  }

  lemma OneMoreConfigured(plan: NetworkPlan, c: nat, first: nat, before: Namespaces, after: Namespaces)
    requires DistinctNamespaces(plan) && c < |plan.nodes| && ConfiguredUpTo(plan, c, first, before)
             && after.Keys == before.Keys
    requires forall s | s in after && s != plan.nodes[c].namespace :: after[s] == before[s]
    requires plan.nodes[c].namespace in before
    requires NodeConfigured(plan, plan.nodes[c], before[plan.nodes[c].namespace], after[plan.nodes[c].namespace])
    ensures ConfiguredUpTo(plan, c + 1, first, after)
  {
    assert NodeStands(plan, c, c, first, before);
    var next := c + 1;
    assert NodeStands(plan, c, next, first, after);
    forall j: nat | j < |plan.nodes|
      ensures NodeStands(plan, j, next, first, after)
    {
      assert NodeStands(plan, j, c, first, before);
      if j != c { StillStands(plan, j, c, next, first, before, after); }
    }
  }

  lemma NodeInstalled(plan: NetworkPlan, c: nat, first: nat, before: Namespaces, after: Namespaces)
    requires WellFormed(plan) && c < |plan.nodes| && ConfiguredUpTo(plan, c, first, before) && after.Keys == before.Keys
    requires forall s | s in after && s != plan.nodes[c].namespace :: after[s] == before[s]
    requires plan.nodes[c].namespace in before
    requires NodeConfigured(plan, plan.nodes[c], before[plan.nodes[c].namespace], after[plan.nodes[c].namespace])
    requires IdsRight(plan, View(before), first) && SameIds(View(before), View(after))
    ensures ConfiguredUpTo(plan, c + 1, first, after) && IdsRight(plan, View(after), first)
  {
    OneMoreConfigured(plan, c, first, before, after);
    IdsStay(plan, View(before), View(after), first);
  }

  lemma NextIsReady(plan: NetworkPlan, c: nat, first: nat, namespaces: Namespaces)
    requires WellFormed(plan) && c < |plan.nodes| && ConfiguredUpTo(plan, c, first, namespaces)
    ensures plan.nodes[c].namespace in namespaces
            && Ready(plan, plan.nodes[c], namespaces[plan.nodes[c].namespace].interfaces)
  {
    assert NodeStands(plan, c, c, first, namespaces);
    assert NodeFits(plan, plan.nodes[c]);
    BuiltIsRaw(plan, plan.nodes[c], first);
  }

  /** The first `c` nodes are configured and the link ids are as they were made. */
  ghost predicate Progress(plan: NetworkPlan, c: nat, first: nat, namespaces: Namespaces) {
    WellFormed(plan) && ConfiguredUpTo(plan, c, first, namespaces) && IdsRight(plan, View(namespaces), first)
  }

  method ConfigureNext(b: Backend, plan: NetworkPlan, c: nat, ghost first: nat)
    requires b.Valid() && b.failOn == None && c < |plan.nodes| && Progress(plan, c, first, b.namespaces)
    modifies b
    ensures b.Valid() && Progress(plan, c + 1, first, b.namespaces)
  {
    ghost var before := b.namespaces;
    NextIsReady(plan, c, first, b.namespaces);
    var outcome := b.ConfigureNode(plan, plan.nodes[c]);
    NodeInstalled(plan, c, first, before, b.namespaces);
  }

  method ConfigureAll(b: Backend, plan: NetworkPlan, ghost first: nat)
    requires b.Valid() && b.failOn == None && Progress(plan, 0, first, b.namespaces)
    modifies b
    ensures b.Valid() && Progress(plan, |plan.nodes|, first, b.namespaces)
  {
    for c := 0 to |plan.nodes|
      invariant b.Valid() && Progress(plan, c, first, b.namespaces)
    {
      ConfigureNext(b, plan, c, first);
    }
  }

  lemma ConfiguredAgrees(plan: NetworkPlan, node: NodePlan, built: Inventory, i: Inventory,
                         expected: map<string, Expected>)
    requires NodeFits(plan, node) && NodeConfigured(plan, node, built, i) && IsExpected(plan, node, expected)
    requires built.exists_ && built.node == node.name && built.bridge == node.bridge.Some?
             && built.namespace == node.namespace
    ensures NodeAgrees(plan, node, expected, i)
  {
    NeighborsMatchThemselves(node.neighbors);
    assert i.interfaces.Keys - RuntimeNames(node) == expected.Keys;
  }

  lemma NodeIsObserved(plan: NetworkPlan, j: nat, first: nat, namespaces: Namespaces, expected: map<string, Expected>)
    requires WellFormed(plan) && j < |plan.nodes| && ConfiguredUpTo(plan, |plan.nodes|, first, namespaces)
    requires IsExpected(plan, plan.nodes[j], expected)
    ensures NodeObserved(plan, plan.nodes[j], View(namespaces))
  {
    assert NodeStands(plan, j, |plan.nodes|, first, namespaces);
    assert NodeFits(plan, plan.nodes[j]);
    ConfiguredAgrees(plan, plan.nodes[j], BuiltNode(plan, plan.nodes[j], true, 2 * |plan.links|, first),
                     namespaces[plan.nodes[j].namespace], expected);
  }

  method ExpectNode(plan: NetworkPlan, j: nat, ghost first: nat, ghost namespaces: Namespaces)
    requires WellFormed(plan) && j < |plan.nodes| && ConfiguredUpTo(plan, |plan.nodes|, first, namespaces)
    ensures NodeObserved(plan, plan.nodes[j], View(namespaces))
  {
    var expected := ExpectedInterfaces(plan, plan.nodes[j]);
    NodeIsObserved(plan, j, first, namespaces, expected);
  }

  /** Every node's expectation is computed once, and the node meets it. */
  method ExpectAll(plan: NetworkPlan, ghost first: nat, ghost namespaces: Namespaces)
    requires WellFormed(plan) && ConfiguredUpTo(plan, |plan.nodes|, first, namespaces)
    ensures NodesMatch(plan, View(namespaces), |plan.nodes|)
  {
    for j := 0 to |plan.nodes|
      invariant NodesMatch(plan, View(namespaces), j)
    {
      ExpectNode(plan, j, first, namespaces);
      NodesMatchNext(plan, View(namespaces), j);
    }
  }

  /** What is created with an MTU of its own has it, and a VLAN has that of its parent's link. */
  ghost predicate MtusStand(plan: NetworkPlan, node: NodePlan, m: map<string, Interface>) {
    && "lo" in m && m["lo"].mtu == 65536
    && (node.bridge.Some? ==> node.bridge.value.name in m && m[node.bridge.value.name].mtu == 1500)
    && (forall d | d in node.devices && d.VrfDevice? :: d.name in m && m[d.name].mtu == 65536)
    && (forall d | d in node.devices && d.VlanDevice? ::
          d.name in m && LinksHaveMtu(plan, node, d.link, 0, m[d.name].mtu))
    && forall n | n in m && n !in node.macs :: m[n].mac == None
  }

  ghost predicate AllMtusStand(plan: NetworkPlan, namespaces: Namespaces) {
    forall j: nat {:trigger plan.nodes[j]} | j < |plan.nodes| ::
      plan.nodes[j].namespace in namespaces
      && MtusStand(plan, plan.nodes[j], namespaces[plan.nodes[j].namespace].interfaces)
  }

  lemma VlanMtu(plan: NetworkPlan, node: NodePlan, first: nat, d: Device, mtu: int)
    requires DistinctEnds(plan) && DevicesFit(plan, node) && d in node.devices && d.VlanDevice?
    requires DeviceLeftOpen(d, BuiltTable(plan, node, true, 2 * |plan.links|, first),
                            PlainInterface(d.name, Vlan, None, mtu, true, []))
    ensures LinksHaveMtu(plan, node, d.link, 0, mtu)
  {
    forall e: nat | At(plan, node, e, d.link)
      ensures mtu == plan.links[e / 2].mtu
    {
      BuiltAt(plan, node, 2 * |plan.links|, first, e);
    }
  }

  lemma NodeMtusStand(plan: NetworkPlan, node: NodePlan, first: nat, built: Inventory, i: Inventory)
    requires DistinctEnds(plan) && NodeFits(plan, node) && NodeConfigured(plan, node, built, i)
    requires built == BuiltNode(plan, node, true, 2 * |plan.links|, first)
    ensures MtusStand(plan, node, i.interfaces)
  {
    forall d | d in node.devices && d.VlanDevice?
      ensures d.name in i.interfaces && LinksHaveMtu(plan, node, d.link, 0, i.interfaces[d.name].mtu)
    {
      assert DeviceLeftOpen(d, built.interfaces, i.interfaces[d.name]);
      VlanMtu(plan, node, first, d, i.interfaces[d.name].mtu);
    }
    assert forall d | d in node.devices && d.VrfDevice? :: DeviceLeftOpen(d, built.interfaces, i.interfaces[d.name]);
  }

  lemma MtusStandAll(plan: NetworkPlan, first: nat, namespaces: Namespaces)
    requires WellFormed(plan) && ConfiguredUpTo(plan, |plan.nodes|, first, namespaces)
    ensures AllMtusStand(plan, namespaces)
  {
    forall j: nat | j < |plan.nodes|
      ensures plan.nodes[j].namespace in namespaces
      ensures MtusStand(plan, plan.nodes[j], namespaces[plan.nodes[j].namespace].interfaces)
    {
      assert NodeStands(plan, j, |plan.nodes|, first, namespaces) && NodeFits(plan, plan.nodes[j]);
      NodeMtusStand(plan, plan.nodes[j], first, BuiltNode(plan, plan.nodes[j], true, 2 * |plan.links|, first),
        namespaces[plan.nodes[j].namespace]);
    }
  }

  /**
   The deployment order on a backend without faults: namespaces, bridges, veths, configuration. What it
   leaves is what the matcher accepts and what the plan says.
   */
  method Realize(b: Backend, plan: NetworkPlan)
    requires b.Valid() && WellFormed(plan) && b.failOn == None && b.namespaces == map[]
    modifies b
    ensures b.Valid() && b.namespaces.Keys == PlannedNamespaces(plan) && MatchesPlan(plan, View(b.namespaces))
    ensures StandsAsPlanned(plan, View(b.namespaces)) && AllMtusStand(plan, b.namespaces)
  {
    BuildNamespaces(b, plan);
    BuildBridges(b, plan);
    ghost var first := BuildLinks(b, plan);
    NoneConfigured(plan, first, b.namespaces);
    BuiltIds(plan, first, b.namespaces);
    ConfigureAll(b, plan, first);
    ExpectAll(plan, first, b.namespaces);
    IdsAgree(plan, View(b.namespaces), first);
    MatchesMeans(plan, View(b.namespaces));
    MtusStandAll(plan, first, b.namespaces);
  }

  /** Deploying and looking: the live inventory of a fresh deployment matches its plan. */
  method RealizeAndMatch(b: Backend, plan: NetworkPlan) returns (matches: bool)
    requires b.Valid() && WellFormed(plan) && b.failOn == None && b.namespaces == map[]
    modifies b
    ensures b.Valid() && matches && StandsAsPlanned(plan, View(b.namespaces)) && AllMtusStand(plan, b.namespaces)
  {
    Realize(b, plan);
    var outcome, o, index := b.TakeInventory(plan);
    assert o.namespaces == b.namespaces;
    matches := InventoryMatchesPlan(plan, o);
  }

  /** Deleting the namespaces in reverse order leaves no namespace and no pair. */
  method TearDown(b: Backend, plan: NetworkPlan)
    requires b.Valid() && b.failOn == None && b.namespaces.Keys <= PlannedNamespaces(plan)
    modifies b
    ensures b.Valid() && b.namespaces == map[] && b.peers == map[]
  {
    assert plan.nodes[..|plan.nodes|] == plan.nodes;
    var i := |plan.nodes|;
    while i > 0
      invariant 0 <= i <= |plan.nodes| && b.Valid()
      invariant b.namespaces.Keys <= set n | n in plan.nodes[..i] :: n.namespace
    {
      i := i - 1;
      assert plan.nodes[..i + 1] == plan.nodes[..i] + [plan.nodes[i]];
      var outcome := b.DeleteNamespace(plan.nodes[i].namespace);
    }
    assert b.namespaces.Keys == {};
    NoPairsLeft(b.namespaces, b.peers, b.nextLink);
  }

  lemma MissingIsAbsent(plan: NetworkPlan, node: NodePlan, i: Inventory)
    requires DistinctNamespaces(plan) && node in plan.nodes && IsMissing(plan, node.namespace, i)
    ensures NodeAbsent(node, i)
  {
    var k :| 0 <= k < |plan.nodes| && plan.nodes[k] == node;
  }

  lemma NothingIsAbsent(plan: NetworkPlan, o: Observed)
    requires DistinctNamespaces(plan) && o.root == {} && o.namespaces.Keys == PlannedNamespaces(plan)
    requires forall s | s in o.namespaces :: IsMissing(plan, s, o.namespaces[s])
    ensures InventoryAbsent(plan, o)
  {
    forall n | n in plan.nodes
      ensures n.namespace in o.namespaces && NodeAbsent(n, o.namespaces[n.namespace])
    {
      MissingIsAbsent(plan, n, o.namespaces[n.namespace]);
    }
  }

  /** Taking a deployment down and looking: the inventory is that of a topology which was never there. */
  method TearDownAndLook(b: Backend, plan: NetworkPlan) returns (o: Observed)
    requires b.Valid() && DistinctNamespaces(plan) && b.failOn == None && b.namespaces.Keys <= PlannedNamespaces(plan)
    modifies b
    ensures b.Valid() && b.namespaces == map[] && b.peers == map[] && InventoryAbsent(plan, o)
  {
    TearDown(b, plan);
    var outcome, index;
    outcome, o, index := b.TakeInventory(plan);
    NothingIsAbsent(plan, o);
  }

  /** Deploy, then destroy: no trace is left. */
  method RealizeAndRemove(b: Backend, plan: NetworkPlan) returns (o: Observed)
    requires b.Valid() && WellFormed(plan) && b.failOn == None && b.namespaces == map[]
    modifies b
    ensures b.Valid() && b.namespaces == map[] && b.peers == map[] && InventoryAbsent(plan, o)
  {
    Realize(b, plan);
    o := TearDownAndLook(b, plan);
  }

  lemma NoPairsLeft(namespaces: Namespaces, peers: map<Port, Port>, next: nat)
    requires Paired(View(namespaces), peers, next) && namespaces.Keys == {}
    ensures peers == map[]
  {
    forall p: Port
      ensures p !in peers
    {
      assert p in peers ==> PairedAt(View(namespaces), peers, next, p);
    }
  }
}
