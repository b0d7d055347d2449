/** The live-state matcher: what a plan expects of an inventory, computed apart from how a backend builds it. */
module Matcher {
  import opened Network
  import opened Options
  import opened Topology

  datatype Interface = Interface(
    name: string,
    kind: Kind,
    master: Option<string>,
    mtu: int,
    up: bool,
    addresses: seq<string>,
    mac: Option<string>,
    stp: Option<bool>,
    priority: Option<nat>,
    pathCost: Option<nat>,
    vlans: seq<nat>,
    qdisc: Option<Qdisc>,
    linkId: Option<nat>,
    detail: Detail)

  datatype Expected = Expected(
    kind: Kind,
    master: Option<string>,
    mtu: Option<int>,
    up: bool,
    addresses: seq<string>,
    mac: Option<string>,
    stp: Option<bool>,
    priority: Option<nat>,
    pathCost: Option<nat>,
    vlans: seq<nat>,
    qdisc: Option<Qdisc>,
    detail: Detail)

  datatype Inventory = Inventory(
    node: string,
    bridge: bool,
    namespace: string,
    exists_: bool,
    interfaces: map<string, Interface>,
    neighbors: seq<Neighbor>,
    sysctls: map<string, nat>)

  /**
   `namespaces` is what an inventory reports under each planned namespace, `root` the temporary names left in the
   root.
   */
  datatype Observed = Observed(namespaces: map<string, Inventory>, root: set<string>)

  /** What an inventory reports of a node whose namespace is missing. */
  function NoInventory(node: NodePlan): (r: Inventory) {
    Inventory(node.name, node.bridge.Some?, node.namespace, false, map[], [], map[])
  }

  function Elements<T>(s: seq<T>): (r: set<T>) {
    set x | x in s
  }

  function Abs(x: int): (r: nat) {
    if x < 0 then -x else x
  }

  /** Of a simple qdisc only the requested options count. */
  predicate LeafMatches(desired: Leaf, observed: Leaf) {
    match (desired, observed)
    case (FqCodel(t), FqCodel(t')) => t == t'
    case (Simple(kind, options), Simple(kind', options')) =>
      kind == kind' && forall k | k in options :: k in options' && options'[k] == options[k]
    case _ => false
  }

  /** Kernel rounding is tolerated for TBF only. */
  predicate QdiscMatches(desired: Option<Qdisc>, observed: Option<Qdisc>) {
    match (desired, observed)
    case (None, None) => true
    case (Some(Tbf(r, b, l)), Some(Tbf(r', b', l'))) =>
      r == r' && Abs(b - b') <= (if b / 1000 > 2 then b / 1000 else 2) && Abs(l - l') <= 1
    case (Some(Htb(r, leaf)), Some(Htb(r', leaf'))) => r == r' && LeafMatches(leaf, leaf')
    case (Some(Cake(t)), Some(Cake(t'))) => t == t'
    case (Some(Plain(leaf)), Some(Plain(leaf'))) => LeafMatches(leaf, leaf')
    case _ => false
  }

  /** An option that the plan leaves open matches anything. */
  predicate Leaves<T(==)>(desired: Option<T>, observed: Option<T>) {
    desired.None? || observed == desired
  }

  /** The comparison of one interface, field by field. */
  predicate Fits(name: string, e: Expected, i: Interface) {
    && i.name == name && i.kind == e.kind && i.master == e.master
    && (e.mtu.Some? ==> i.mtu == e.mtu.value)
    && i.up == e.up && Elements(i.addresses) == Elements(e.addresses)
    && Leaves(e.mac, i.mac) && i.stp == e.stp && Leaves(e.priority, i.priority) && Leaves(e.pathCost, i.pathCost)
    && i.vlans == e.vlans && QdiscMatches(e.qdisc, i.qdisc) && i.detail == e.detail
  }

  const LOOPBACK_ADDRESS := "127.0.0.1/8"

  function PlainExpected(kind: Kind, master: Option<string>, mtu: Option<int>, addresses: seq<string>): (r: Expected) {
    Expected(kind, master, mtu, true, addresses, None, None, None, None, [], None, NO_DETAIL)
  }

  function ExpectedBridge(node: NodePlan): (r: Expected)
    requires node.bridge.Some?
  {
    var b := node.bridge.value;
    PlainExpected(Bridge, None, None, AddressesOf(node, b.name)).(stp := Some(b.stp), priority := b.priority)
  }

  function ExpectedEnd(node: NodePlan, l: LinkPlan, interface: string): (r: Expected) {
    PlainExpected(Veth, Master(node, interface), Some(l.mtu), AddressesOf(node, interface))
    .(pathCost := PathCost(node, interface), vlans := PortVlans(node, interface), qdisc := l.qdisc)
  }

  /** What a device should look like; none if its MTU cannot be planned. */
  function ExpectedDevice(plan: NetworkPlan, node: NodePlan, d: Device): (r: Option<Expected>) {
    if d.VlanDevice? then
      Some(PlainExpected(Vlan, Master(node, d.name), None, d.addresses).(detail := d.Detail()))
    else if d.VrfDevice? then
      Some(PlainExpected(Vrf, None, None, []).(detail := d.Detail()))
    else
      var mtu := DeviceMtu(plan, node, d);
      if mtu.None? then None
      else if d.VxlanDevice? then
        Some(PlainExpected(Vxlan, Master(node, d.name), mtu, d.addresses)
             .(pathCost := PathCost(node, d.name), vlans := PortVlans(node, d.name), detail := d.Detail()))
      else
        Some(PlainExpected(d.Kind(), Master(node, d.name), mtu, d.addresses).(detail := d.Detail()))
  }

  function WithMac(node: NodePlan, name: string, e: Expected): (r: Expected) {
    e.(mac := if name in node.macs then Some(node.macs[name]) else None)
  }

  /** `m` says of exactly the planned interfaces what the plan wants of them. */
  ghost predicate IsExpected(plan: NetworkPlan, node: NodePlan, m: map<string, Expected>) {
    && m.Keys == PlannedNames(plan, node)
    && m["lo"] == WithMac(node, "lo", PlainExpected(Loopback, None, None, [LOOPBACK_ADDRESS]))
    && (node.bridge.Some? ==> m[node.bridge.value.name] == WithMac(node, node.bridge.value.name, ExpectedBridge(node)))
    && (forall k {:trigger EndHere(plan, node, k)} | EndHere(plan, node, k) ::
          var name := Ends(plan.links)[k].port.interface;
          name in m && m[name] == WithMac(node, name, ExpectedEnd(node, plan.links[k / 2], name)))
    && (forall d | d in node.devices ::
          d.name in m && ExpectedDevice(plan, node, d).Some?
          && m[d.name] == WithMac(node, d.name, ExpectedDevice(plan, node, d).value))
  }

  /** The k-th link end lies in the node's namespace. */
  predicate EndHere(plan: NetworkPlan, node: NodePlan, k: int) {
    0 <= k < 2 * |plan.links| && Ends(plan.links)[k].port.namespace == node.namespace
  }

  method InterfacesMatch(expected: map<string, Expected>, actual: map<string, Interface>) returns (same: bool)
    ensures same <==> actual.Keys == expected.Keys && forall n | n in expected :: Fits(n, expected[n], actual[n])
  {
    if actual.Keys != expected.Keys {
      return false;
    }
    var todo := expected.Keys;
    while todo != {}
      invariant todo <= expected.Keys
      invariant forall n | n in expected && n !in todo :: Fits(n, expected[n], actual[n])
      decreases |todo|
    {
      var name :| name in todo;
      if !Fits(name, expected[name], actual[name]) {
        return false;
      }
      todo := todo - {name};
    }
    same := true;
  }

  predicate Healthy(s: NeighborState) {
    s.Reachable? || s.Stale? || s.Delay? || s.Probe?
  }

  predicate NeighborFits(desired: Neighbor, observed: Neighbor) {
    && observed.lladdr == desired.lladdr && observed.proxy == desired.proxy
    && if desired.state.Reachable? || desired.state.Stale? then Healthy(observed.state)
       else observed.state == desired.state
  }

  predicate SameIdentity(x: Neighbor, y: Neighbor) {
    x.dst == y.dst && x.dev == y.dev
  }

  ghost predicate Answered(desired: Neighbor, actual: seq<Neighbor>) {
    exists j | 0 <= j < |actual| :: SameIdentity(desired, actual[j]) && NeighborFits(desired, actual[j])
  }

  /** Both tables have one size, the live one no duplicates, and each declared entry finds its live one. */
  ghost predicate NeighborsAgree(desired: seq<Neighbor>, actual: seq<Neighbor>) {
    && |desired| == |actual| && DistinctNeighbors(actual)
    && forall i | 0 <= i < |desired| :: Answered(desired[i], actual)
  }

  /** Index of the live entries by identity; none if two share one. */
  method ByIdentity(actual: seq<Neighbor>) returns (index: Option<map<(string, string), Neighbor>>)
    ensures index.Some? <==> DistinctNeighbors(actual)
    ensures index.Some? ==> forall id :: id in index.value <==>
              exists j | 0 <= j < |actual| :: (actual[j].dst, actual[j].dev) == id
    ensures index.Some? ==> forall j | 0 <= j < |actual| ::
                              (actual[j].dst, actual[j].dev) in index.value
                                && index.value[(actual[j].dst, actual[j].dev)] == actual[j]
  {
    var table: map<(string, string), Neighbor> := map[];
    for k := 0 to |actual|
      invariant DistinctNeighbors(actual[..k])
      invariant forall id :: id in table <==> exists j | 0 <= j < k :: (actual[j].dst, actual[j].dev) == id
      invariant forall j | 0 <= j < k ::
                  (actual[j].dst, actual[j].dev) in table && table[(actual[j].dst, actual[j].dev)] == actual[j]
    {
      var id := (actual[k].dst, actual[k].dev);
      if id in table {
        return None;
      }
      table := table[id := actual[k]];
      assert actual[..k + 1] == actual[..k] + [actual[k]];
    }
    assert actual[..|actual|] == actual;
    index := Some(table);
  }

  method NeighborsMatch(desired: seq<Neighbor>, actual: seq<Neighbor>) returns (same: bool)
    ensures same <==> NeighborsAgree(desired, actual)
  {
    if |desired| != |actual| {
      return false;
    }
    var index := ByIdentity(actual);
    if index.None? {
      return false;
    }
    for k := 0 to |desired|
      invariant forall i | 0 <= i < k :: Answered(desired[i], actual)
    {
      var id := (desired[k].dst, desired[k].dev);
      if id !in index.value {
        assert forall j | 0 <= j < |actual| :: (actual[j].dst, actual[j].dev) != id;
        assert !Answered(desired[k], actual);
        return false;
      }
      var j :| 0 <= j < |actual| && (actual[j].dst, actual[j].dev) == id;
      assert forall i | 0 <= i < |actual| && SameIdentity(desired[k], actual[i]) :: index.value[id] == actual[i];
      if !NeighborFits(desired[k], index.value[id]) {
        assert !Answered(desired[k], actual);
        return false;
      }
      assert SameIdentity(desired[k], actual[j]) && NeighborFits(desired[k], actual[j]);
    }
    same := true;
  }

  /** A freshly installed neighbour table matches itself exactly if no identity occurs twice. */
  lemma NeighborsMatchThemselves(s: seq<Neighbor>)
    ensures NeighborsAgree(s, s) <==> DistinctNeighbors(s)
  {
    forall i | 0 <= i < |s|
      ensures Answered(s[i], s)
    {
      assert SameIdentity(s[i], s[i]) && NeighborFits(s[i], s[i]);
    }
  }

  predicate SysctlsMatch(desired: map<string, nat>, actual: map<string, nat>) {
    forall k | k in desired :: k in actual && actual[k] == desired[k]
  }

  // Link identities.

  predicate Present(o: Observed, p: Port) {
    p.namespace in o.namespaces && p.interface in o.namespaces[p.namespace].interfaces
  }

  predicate IsVeth(o: Observed, p: Port) {
    Present(o, p) && o.namespaces[p.namespace].interfaces[p.interface].kind == Veth
  }

  function IdAt(o: Observed, p: Port): (r: Option<nat>) {
    if Present(o, p) then o.namespaces[p.namespace].interfaces[p.interface].linkId else None
  }

  function Veths(o: Observed): (r: set<Port>) {
    set s, n | s in o.namespaces && n in o.namespaces[s].interfaces && IsVeth(o, Port(s, n)) :: Port(s, n)
  }

  /** The two ends of a link are exactly the veths with one identity. */
  ghost predicate LinkAgrees(o: Observed, l: LinkPlan) {
    && IdAt(o, l.left.port).Some? && IdAt(o, l.right.port) == IdAt(o, l.left.port)
    && forall p {:trigger IsVeth(o, p)} {:trigger IdAt(o, p)} ::
         IsVeth(o, p) && IdAt(o, p) == IdAt(o, l.left.port) <==> p == l.left.port || p == l.right.port
  }

  ghost predicate LinksAgree(plan: NetworkPlan, o: Observed) {
    && Identified(o)
    && (forall k | 0 <= k < |plan.links| :: LinkAgrees(o, plan.links[k]))
    && (forall j, k | 0 <= j < k < |plan.links| :: IdAt(o, plan.links[j].left.port) != IdAt(o, plan.links[k].left.port))
  }

  /** The observed veths by identity. */
  ghost predicate IsGrouping(o: Observed, seen: set<Port>, groups: map<nat, set<Port>>) {
    && (forall p | p in seen :: IdAt(o, p).Some? && IdAt(o, p).value in groups && p in groups[IdAt(o, p).value])
    && (forall id, p | id in groups && p in groups[id] :: p in seen && IdAt(o, p) == Some(id))
  }

  lemma GroupMore(o: Observed, seen: set<Port>, groups: map<nat, set<Port>>, p: Port)
    requires IsGrouping(o, seen, groups) && IdAt(o, p).Some?
    ensures var id := IdAt(o, p).value;
            IsGrouping(o, seen + {p}, groups[id := (if id in groups then groups[id] else {}) + {p}])
  {
  }

  /** Groups interfaces by identity; none if one has no identity. */
  method Group(o: Observed, all: set<Port>) returns (groups: Option<map<nat, set<Port>>>)
    ensures groups.None? ==> exists p :: p in all && IdAt(o, p).None?
    ensures groups.Some? ==> IsGrouping(o, all, groups.value)
  {
    var table: map<nat, set<Port>> := map[];
    var todo := all;
    ghost var done: set<Port> := {};
    while todo != {}
      invariant todo + done == all
      invariant IsGrouping(o, done, table)
      decreases |todo|
    {
      var p :| p in todo;
      var id := IdAt(o, p);
      if id.None? {
        return None;
      }
      GroupMore(o, done, table, p);
      table := table[id.value := (if id.value in table then table[id.value] else {}) + {p}];
      todo, done := todo - {p}, done + {p};
    }
    assert done == all;
    groups := Some(table);
  }

  lemma ListedIsVeth(o: Observed, p: Port)
    ensures p in Veths(o) <==> IsVeth(o, p)
  {
    assert IsVeth(o, p) ==> p == Port(p.namespace, p.interface);
  }

  lemma GroupIsLink(o: Observed, groups: map<nat, set<Port>>, l: LinkPlan, id: nat)
    requires IsGrouping(o, Veths(o), groups) && IdAt(o, l.left.port) == Some(id) == IdAt(o, l.right.port)
    ensures id in groups && groups[id] == {l.left.port, l.right.port} <==> LinkAgrees(o, l)
  {
    forall p: Port
      ensures IsVeth(o, p) <==> p in Veths(o)
    {
      ListedIsVeth(o, p);
    }
    if id in groups {
      forall p: Port
        ensures p in groups[id] <==> IsVeth(o, p) && IdAt(o, p) == Some(id)
      {
        assert p in groups[id] ==> p in Veths(o);
      }
    }
    if LinkAgrees(o, l) {
      assert IsVeth(o, l.left.port);
    }
  }

  /** The identity of one link, if its two ends are a group of their own. */
  method LinkMatches(o: Observed, groups: map<nat, set<Port>>, l: LinkPlan) returns (id: Option<nat>)
    requires IsGrouping(o, Veths(o), groups)
    ensures id.Some? <==> LinkAgrees(o, l)
    ensures id.Some? ==> id == IdAt(o, l.left.port)
  {
    id := IdAt(o, l.left.port);
    if id.None? || IdAt(o, l.right.port) != id {
      return None;
    }
    GroupIsLink(o, groups, l, id.value);
    if id.value !in groups || groups[id.value] != {l.left.port, l.right.port} {
      id := None;
    }
  }

  ghost predicate Identified(o: Observed) {
    forall p {:trigger IsVeth(o, p)} | IsVeth(o, p) :: IdAt(o, p).Some?
  }

  lemma UnidentifiedVeth(o: Observed)
    requires exists p :: p in Veths(o) && IdAt(o, p).None?
    ensures !Identified(o)
  {
    var p :| p in Veths(o) && IdAt(o, p).None?;
    ListedIsVeth(o, p);
  }

  lemma VethsListed(o: Observed)
    requires forall p | p in Veths(o) :: IdAt(o, p).Some?
    ensures Identified(o)
  {
    forall p | IsVeth(o, p)
      ensures IdAt(o, p).Some?
    {
      ListedIsVeth(o, p);
    }
  }

  method LinksMatch(plan: NetworkPlan, o: Observed) returns (same: bool)
    ensures same <==> LinksAgree(plan, o)
  {
    var groups := Group(o, Veths(o));
    if groups.None? {
      UnidentifiedVeth(o);
      return false;
    }
    VethsListed(o);
    var seen: set<nat> := {};
    ghost var ids: seq<nat> := [];
    for k := 0 to |plan.links|
      invariant IdsOf(plan, o, k, ids) && seen == Elements(ids)
    {
      var id := LinkMatches(o, groups.value, plan.links[k]);
      if id.None? {
        return false;
      }
      if id.value in seen {
        RepeatedId(plan, o, k, ids, id.value);
        return false;
      }
      assert Elements(ids + [id.value]) == Elements(ids) + {id.value};
      seen := seen + {id.value};
      ids := ids + [id.value];
    }
    same := true;
  }

  /** The first `k` links agree with the inventory, under distinct identities. */
  ghost predicate IdsOf(plan: NetworkPlan, o: Observed, k: nat, ids: seq<nat>) {
    && k <= |plan.links| && |ids| == k && (forall i, j | 0 <= i < j < k :: ids[i] != ids[j])
    && forall i | 0 <= i < k :: LinkAgrees(o, plan.links[i]) && IdAt(o, plan.links[i].left.port) == Some(ids[i])
  }

  lemma RepeatedId(plan: NetworkPlan, o: Observed, k: nat, ids: seq<nat>, id: nat)
    requires IdsOf(plan, o, k, ids) && k < |plan.links| && id in ids && IdAt(o, plan.links[k].left.port) == Some(id)
    ensures !LinksAgree(plan, o)
  {
    var i :| 0 <= i < k && ids[i] == id;
    assert IdAt(o, plan.links[i].left.port) == IdAt(o, plan.links[k].left.port);
  }

  // The whole inventory.

  /** Interfaces that a routing daemon adds on its own. */
  function RuntimeNames(node: NodePlan): (r: set<string>) {
    if node.pim then {PIM_REGISTER} else {}
  }

  /** What one namespace must look like. */
  ghost predicate NodeAgrees(plan: NetworkPlan, node: NodePlan, expected: map<string, Expected>, i: Inventory) {
    && i.exists_ && i.node == node.name && i.bridge == node.bridge.Some? && i.namespace == node.namespace
    && i.interfaces.Keys - RuntimeNames(node) == expected.Keys
    && (forall n | n in expected :: n in i.interfaces && Fits(n, expected[n], i.interfaces[n]))
    && NeighborsAgree(node.neighbors, i.neighbors) && SysctlsMatch(node.sysctls, i.sysctls)
  }

  ghost predicate NodeMatches(plan: NetworkPlan, node: NodePlan, i: Inventory) {
    exists expected :: IsExpected(plan, node, expected) && NodeAgrees(plan, node, expected, i)
  }

  function PlannedNamespaces(plan: NetworkPlan): (r: set<string>) {
    set n | n in plan.nodes :: n.namespace
  }

  predicate NodeAbsent(node: NodePlan, i: Inventory) {
    && i.node == node.name && i.bridge == node.bridge.Some? && i.namespace == node.namespace
    && !i.exists_ && i.interfaces == map[] && i.neighbors == [] && i.sysctls == map[]
  }

  predicate InventoryAbsent(plan: NetworkPlan, o: Observed) {
    && o.root == {} && o.namespaces.Keys == PlannedNamespaces(plan)
    && forall n | n in plan.nodes :: n.namespace in o.namespaces && NodeAbsent(n, o.namespaces[n.namespace])
  }

  ghost predicate NodesMatch(plan: NetworkPlan, o: Observed, k: nat)
    requires k <= |plan.nodes|
  {
    forall i {:trigger NodeObserved(plan, plan.nodes[i], o)} | 0 <= i < k :: NodeObserved(plan, plan.nodes[i], o)
  }

  ghost predicate NodeObserved(plan: NetworkPlan, node: NodePlan, o: Observed) {
    node.namespace in o.namespaces && NodeMatches(plan, node, o.namespaces[node.namespace])
  }

  ghost predicate MatchesPlan(plan: NetworkPlan, o: Observed) {
    && o.root == {} && o.namespaces.Keys == PlannedNamespaces(plan)
    && NodesMatch(plan, o, |plan.nodes|) && LinksAgree(plan, o)
  }

  function NamesSoFar(plan: NetworkPlan, node: NodePlan, k: nat, j: nat): (r: set<string>)
    requires k <= 2 * |plan.links| && j <= |node.devices|
  {
    {"lo"} + BridgeNames(node) + EndNames(plan, node, k) + (set d | d in node.devices[..j] :: d.name)
  }

  lemma NamesNextDevice(plan: NetworkPlan, node: NodePlan, j: nat)
    requires j < |node.devices|
    ensures NamesSoFar(plan, node, 2 * |plan.links|, j + 1)
            == NamesSoFar(plan, node, 2 * |plan.links|, j) + {node.devices[j].name}
  {
    assert node.devices[..j + 1] == node.devices[..j] + [node.devices[j]];
  }

  /** The expectation of the first `k` link ends and the first `j` devices. */
  ghost predicate ExpectedSoFar(plan: NetworkPlan, node: NodePlan, k: nat, j: nat, m: map<string, Expected>) {
    && k <= 2 * |plan.links| && j <= |node.devices|
    && m.Keys == NamesSoFar(plan, node, k, j)
    && m["lo"] == PlainExpected(Loopback, None, None, [LOOPBACK_ADDRESS])
    && (node.bridge.Some? ==> m[node.bridge.value.name] == ExpectedBridge(node))
    && (forall i {:trigger EndHere(plan, node, i)} | EndHere(plan, node, i) && i < k ::
          var name := Ends(plan.links)[i].port.interface;
          name in m && m[name] == ExpectedEnd(node, plan.links[i / 2], name))
    && (forall i | 0 <= i < j ::
          node.devices[i].name in m && ExpectedDevice(plan, node, node.devices[i]) == Some(m[node.devices[i].name]))
  }

  /** The names of the first `k` link ends that lie in the node's namespace. */
  function EndNames(plan: NetworkPlan, node: NodePlan, k: nat): (r: set<string>)
    requires k <= 2 * |plan.links|
  {
    if k == 0 then {}
    else EndNames(plan, node, k - 1) + if EndHere(plan, node, k - 1) then {Ends(plan.links)[k - 1].port.interface}
      else {}
  }

  lemma {:induction false} EndNamesHave(plan: NetworkPlan, node: NodePlan, k: nat, n: string)
    requires k <= 2 * |plan.links|
    ensures n in EndNames(plan, node, k)
            <==> exists i | EndHere(plan, node, i) :: i < k && Ends(plan.links)[i].port.interface == n
  {
    if k > 0 {
      EndNamesHave(plan, node, k - 1, n);
    }
  }

  lemma AllEndNames(plan: NetworkPlan, node: NodePlan)
    ensures EndNames(plan, node, 2 * |plan.links|) == LinkedNames(plan, node.namespace)
  {
    forall n: string
      ensures n in EndNames(plan, node, 2 * |plan.links|) <==> n in LinkedNames(plan, node.namespace)
    {
      EndNamesHave(plan, node, 2 * |plan.links|, n);
      if n in LinkedNames(plan, node.namespace) {
        var k :| 0 <= k < 2 * |plan.links| && Ends(plan.links)[k].port == Port(node.namespace, n);
        assert EndHere(plan, node, k);
      }
      if i :| EndHere(plan, node, i) && Ends(plan.links)[i].port.interface == n {
        assert Ends(plan.links)[i] in Ends(plan.links);
      }
    }
  }

  lemma EndIsLinked(plan: NetworkPlan, node: NodePlan, k: nat)
    requires EndHere(plan, node, k)
    ensures Ends(plan.links)[k].port.interface in LinkedNames(plan, node.namespace)
  {
    assert Ends(plan.links)[k] in Ends(plan.links);
  }

  /** A link end's name is no other planned name of its node. */
  lemma EndIsFresh(plan: NetworkPlan, node: NodePlan, k: nat)
    requires DistinctEnds(plan) && DevicesFit(plan, node) && EndHere(plan, node, k)
    ensures var name := Ends(plan.links)[k].port.interface;
            && name !in {"lo"} + BridgeNames(node) + DeviceNames(node)
            && forall i | EndHere(plan, node, i) && i < k :: Ends(plan.links)[i].port.interface != name
  {
    EndIsLinked(plan, node, k);
    forall i | EndHere(plan, node, i) && i < k
      ensures Ends(plan.links)[i].port.interface != Ends(plan.links)[k].port.interface
    {
      assert EndsDifferAt(plan, i, k);
    }
  }

  lemma ExpectEnd(plan: NetworkPlan, node: NodePlan, k: nat, name: string, m: map<string, Expected>,
                  m': map<string, Expected>)
    requires ExpectedSoFar(plan, node, k, 0, m) && EndHere(plan, node, k) && name == Ends(plan.links)[k].port.interface
    requires name !in {"lo"} + BridgeNames(node) + DeviceNames(node)
    requires forall i | EndHere(plan, node, i) && i < k :: Ends(plan.links)[i].port.interface != name
    requires m' == m[name := ExpectedEnd(node, plan.links[k / 2], name)]
    ensures ExpectedSoFar(plan, node, k + 1, 0, m')
  {
  }

  lemma SkipEnd(plan: NetworkPlan, node: NodePlan, k: nat, m: map<string, Expected>)
    requires ExpectedSoFar(plan, node, k, 0, m) && k < 2 * |plan.links| && !EndHere(plan, node, k)
    ensures ExpectedSoFar(plan, node, k + 1, 0, m)
  {
  }

  /** A device's name is no other planned name of its node. */
  lemma DeviceIsFresh(plan: NetworkPlan, node: NodePlan, j: nat)
    requires DevicesFit(plan, node) && j < |node.devices|
    ensures var name := node.devices[j].name;
            && name !in {"lo"} + BridgeNames(node)
            && (forall i | 0 <= i < j :: node.devices[i].name != name)
            && forall i | EndHere(plan, node, i) :: Ends(plan.links)[i].port.interface != name
  {
    assert node.devices[j].name in DeviceNames(node);
    forall i | EndHere(plan, node, i)
      ensures Ends(plan.links)[i].port.interface != node.devices[j].name
    {
      EndIsLinked(plan, node, i);
    }
  }

  lemma ExpectDevice(plan: NetworkPlan, node: NodePlan, j: nat, name: string, m: map<string, Expected>,
                     m': map<string, Expected>)
    requires j < |node.devices| && ExpectedSoFar(plan, node, 2 * |plan.links|, j, m) && name == node.devices[j].name
    requires name !in {"lo"} + BridgeNames(node)
    requires forall i | 0 <= i < j :: node.devices[i].name != name
    requires forall i | EndHere(plan, node, i) :: Ends(plan.links)[i].port.interface != name
    requires ExpectedDevice(plan, node, node.devices[j]).Some?
             && m' == m[name := ExpectedDevice(plan, node, node.devices[j]).value]
    ensures ExpectedSoFar(plan, node, 2 * |plan.links|, j + 1, m')
  {
    NamesNextDevice(plan, node, j);
  }

  lemma DeviceExpected(plan: NetworkPlan, node: NodePlan, d: Device)
    requires DevicesFit(plan, node) && d in node.devices
    ensures ExpectedDevice(plan, node, d).Some?
  {
  }

  lemma AllExpected(plan: NetworkPlan, node: NodePlan, m: map<string, Expected>)
    requires ExpectedSoFar(plan, node, 2 * |plan.links|, |node.devices|, m)
    ensures IsExpected(plan, node, map n | n in m :: WithMac(node, n, m[n]))
  {
    AllEndNames(plan, node);
    assert node.devices[..|node.devices|] == node.devices;
    forall d | d in node.devices
      ensures d.name in m && ExpectedDevice(plan, node, d) == Some(m[d.name])
    {
      var i :| 0 <= i < |node.devices| && node.devices[i] == d;
    }
  }

  lemma ExpectNothing(plan: NetworkPlan, node: NodePlan, m: map<string, Expected>)
    requires DevicesFit(plan, node)
    requires m == map["lo" := PlainExpected(Loopback, None, None, [LOOPBACK_ADDRESS])]
                  + if node.bridge.Some? then map[node.bridge.value.name := ExpectedBridge(node)] else map[]
    ensures ExpectedSoFar(plan, node, 0, 0, m)
  {
  }

  method ExpectOneEnd(plan: NetworkPlan, node: NodePlan, k: nat, m: map<string, Expected>)
    returns (m': map<string, Expected>)
    requires DistinctEnds(plan) && DevicesFit(plan, node) && k < 2 * |plan.links| && ExpectedSoFar(plan, node, k, 0, m)
    ensures ExpectedSoFar(plan, node, k + 1, 0, m')
  {
    if EndHere(plan, node, k) {
      var name := Ends(plan.links)[k].port.interface;
      m' := m[name := ExpectedEnd(node, plan.links[k / 2], name)];
      EndIsFresh(plan, node, k);
      ExpectEnd(plan, node, k, name, m, m');
    } else {
      m' := m;
      SkipEnd(plan, node, k, m);
    }
  }

  method ExpectEnds(plan: NetworkPlan, node: NodePlan, start: map<string, Expected>) returns (m: map<string, Expected>)
    requires DistinctEnds(plan) && DevicesFit(plan, node) && ExpectedSoFar(plan, node, 0, 0, start)
    ensures ExpectedSoFar(plan, node, 2 * |plan.links|, 0, m)
  {
    m := start;
    for k := 0 to 2 * |plan.links|
      invariant ExpectedSoFar(plan, node, k, 0, m)
    {
      m := ExpectOneEnd(plan, node, k, m);
    }
  }

  method ExpectDevices(plan: NetworkPlan, node: NodePlan, start: map<string, Expected>)
    returns (m: map<string, Expected>)
    requires DevicesFit(plan, node) && ExpectedSoFar(plan, node, 2 * |plan.links|, 0, start)
    ensures ExpectedSoFar(plan, node, 2 * |plan.links|, |node.devices|, m)
  {
    m := start;
    for j := 0 to |node.devices|
      invariant ExpectedSoFar(plan, node, 2 * |plan.links|, j, m)
    {
      DeviceExpected(plan, node, node.devices[j]);
      ghost var before := m;
      m := m[node.devices[j].name := ExpectedDevice(plan, node, node.devices[j]).value];
      DeviceIsFresh(plan, node, j);
      ExpectDevice(plan, node, j, node.devices[j].name, before, m);
    }
  }

  /**
   The expectation, in the order in which it is filled: loopback, bridge, link ends, devices, and MAC addresses
   last.
   */
  method ExpectedInterfaces(plan: NetworkPlan, node: NodePlan) returns (expected: map<string, Expected>)
    requires DistinctEnds(plan) && NodeFits(plan, node)
    ensures IsExpected(plan, node, expected)
  {
    var m := map["lo" := PlainExpected(Loopback, None, None, [LOOPBACK_ADDRESS])];
    if node.bridge.Some? {
      m := m[node.bridge.value.name := ExpectedBridge(node)];
    }
    ExpectNothing(plan, node, m);
    m := ExpectEnds(plan, node, m);
    m := ExpectDevices(plan, node, m);
    AllExpected(plan, node, m);
    expected := map n | n in m :: WithMac(node, n, m[n]);
  }

  /** There is one expectation. */
  lemma ExpectedOnce(plan: NetworkPlan, node: NodePlan, m: map<string, Expected>, m': map<string, Expected>)
    requires IsExpected(plan, node, m) && IsExpected(plan, node, m')
    ensures m == m'
  {
    AllEndNames(plan, node);
    forall n | n in m
      ensures m[n] == m'[n]
    {
      EndNamesHave(plan, node, 2 * |plan.links|, n);
      if n in LinkedNames(plan, node.namespace) {
        var k :| EndHere(plan, node, k) && Ends(plan.links)[k].port.interface == n;
      } else if n in DeviceNames(node) {
        var d :| d in node.devices && d.name == n;
      }
    }
  }

  method NodeMatch(plan: NetworkPlan, node: NodePlan, i: Inventory) returns (same: bool)
    requires DistinctEnds(plan) && NodeFits(plan, node)
    ensures same <==> NodeMatches(plan, node, i)
  {
    var expected := ExpectedInterfaces(plan, node);
    NodeMatchesBy(plan, node, expected, i);
    if !i.exists_ || i.node != node.name || i.bridge != node.bridge.Some? || i.namespace != node.namespace {
      return false;
    }
    var observed := map n | n in i.interfaces && n !in RuntimeNames(node) :: i.interfaces[n];
    assert observed.Keys == i.interfaces.Keys - RuntimeNames(node);
    same := InterfacesMatch(expected, observed);
    if same {
      same := NeighborsMatch(node.neighbors, i.neighbors);
      same := same && SysctlsMatch(node.sysctls, i.sysctls);
    }
  }

  lemma NodeMatchesBy(plan: NetworkPlan, node: NodePlan, expected: map<string, Expected>, i: Inventory)
    requires IsExpected(plan, node, expected)
    ensures NodeMatches(plan, node, i) <==> NodeAgrees(plan, node, expected, i)
  {
    if NodeMatches(plan, node, i) {
      var other :| IsExpected(plan, node, other) && NodeAgrees(plan, node, other, i);
      ExpectedOnce(plan, node, expected, other);
    }
  }

  lemma NodesMatchNext(plan: NetworkPlan, o: Observed, k: nat)
    requires k < |plan.nodes| && NodesMatch(plan, o, k) && NodeObserved(plan, plan.nodes[k], o)
    ensures NodesMatch(plan, o, k + 1)
  {
  }

  method NodeMatchAt(plan: NetworkPlan, k: nat, o: Observed) returns (same: bool)
    requires WellFormed(plan) && k < |plan.nodes| && o.namespaces.Keys == PlannedNamespaces(plan)
    ensures same <==> NodeObserved(plan, plan.nodes[k], o)
  {
    var node := plan.nodes[k];
    assert node.namespace in PlannedNamespaces(plan);
    assert NodeFits(plan, node);
    same := NodeMatch(plan, node, o.namespaces[node.namespace]);
  }

  method AllNodesMatch(plan: NetworkPlan, o: Observed) returns (same: bool)
    requires WellFormed(plan) && o.namespaces.Keys == PlannedNamespaces(plan)
    ensures same <==> NodesMatch(plan, o, |plan.nodes|)
  {
    for k := 0 to |plan.nodes|
      invariant NodesMatch(plan, o, k)
    {
      var agrees := NodeMatchAt(plan, k, o);
      if !agrees {
        return false;
      }
      NodesMatchNext(plan, o, k);
    }
    same := true;
  }

  method InventoryMatchesPlan(plan: NetworkPlan, o: Observed) returns (same: bool)
    requires WellFormed(plan)
    ensures same <==> MatchesPlan(plan, o)
  {
    if o.root != {} || o.namespaces.Keys != PlannedNamespaces(plan) {
      return false;
    }
    same := AllNodesMatch(plan, o);
    if same {
      same := LinksMatch(plan, o);
    }
  }
}
