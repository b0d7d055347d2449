/**
 What a plan says of each interface, told by its links, devices and bridge and without the helpers that backend,
 matcher and inspector share. The matcher accepts exactly the inventories that look like this.
 */
module Planned {
  import opened Configured
  import opened Matcher
  import opened Network
  import opened Options
  import opened Topology

  /** The e-th link end is the interface `n` of the node. */
  predicate At(plan: NetworkPlan, node: NodePlan, e: int, n: string) {
    EndHere(plan, node, e) && Ends(plan.links)[e].port.interface == n
  }

  ghost predicate IsLinkEnd(plan: NetworkPlan, node: NodePlan, n: string) {
    exists e {:trigger At(plan, node, e, n)} :: At(plan, node, e, n)
  }

  predicate IsBridge(node: NodePlan, n: string) {
    node.bridge.Some? && n == node.bridge.value.name
  }

  ghost predicate IsDeviceName(node: NodePlan, n: string) {
    exists d :: d in node.devices && d.name == n
  }

  ghost predicate InPlan(plan: NetworkPlan, node: NodePlan, n: string) {
    n == "lo" || IsBridge(node, n) || IsLinkEnd(plan, node, n) || IsDeviceName(node, n)
  }

  // Masters.

  /** A bond or a VRF lists the interface. */
  ghost predicate Listed(node: NodePlan, n: string) {
    exists d :: d in node.devices && Lists(d, n)
  }

  predicate Lists(d: Device, n: string) {
    match d
    case BondDevice(_, members, _, _) => n in members
    case VrfDevice(_, _, members) => n in members
    case _ => false
  }

  /** A VXLAN runs over the interface. */
  ghost predicate Carries(node: NodePlan, n: string) {
    exists d :: d in node.devices && d.VxlanDevice? && d.link == n
  }

  /** The ports of a bridge: all that is neither loopback, nor the bridge, nor listed, nor below a VXLAN. */
  ghost predicate IsPort(node: NodePlan, n: string) {
    node.bridge.Some? && n != "lo" && n != node.bridge.value.name && !Listed(node, n) && !Carries(node, n)
  }

  ghost predicate MasterRight(node: NodePlan, n: string, master: Option<string>) {
    && (forall d | d in node.devices :: master == Some(d.name) <==> Lists(d, n))
    && (node.bridge.Some? ==> (master == Some(node.bridge.value.name) <==> IsPort(node, n)))
    && (master.Some? ==> IsBridge(node, master.value) || IsDeviceName(node, master.value))
  }

  // MTUs.

  /** The MTU of every link that ends at the interface, less an overhead. */
  ghost predicate LinksHaveMtu(plan: NetworkPlan, node: NodePlan, n: string, overhead: int, mtu: int) {
    forall e {:trigger At(plan, node, e, n)} | At(plan, node, e, n) :: mtu == plan.links[e / 2].mtu - overhead
  }

  /** VXLAN takes 50 bytes of its underlay over IPv4 and 70 over IPv6; a bond has the MTU of all its members. */
  ghost predicate DeviceMtuRight(plan: NetworkPlan, node: NodePlan, d: Device, mtu: int) {
    match d
    case VxlanDevice(_, link, _, six, own, _) =>
      if own.Some? then mtu == own.value else LinksHaveMtu(plan, node, link, if six then 70 else 50, mtu)
    case MacvlanDevice(_, link, _, own, _) =>
      if own.Some? then mtu == own.value else LinksHaveMtu(plan, node, link, 0, mtu)
    case DummyDevice(_, own, _) => mtu == if own.Some? then own.value else 1500
    case BondDevice(_, members, _, _) => forall n | n in members :: LinksHaveMtu(plan, node, n, 0, mtu)
    case VrfDevice(_, _, _) => true
    case VlanDevice(_, _, _, _) => true
  }

  // Addresses, ports and attributes.

  function Declared(node: NodePlan, n: string): (r: set<string>) {
    set a | n in node.addresses && a in node.addresses[n]
  }

  function Untagged(node: NodePlan, n: string): (r: seq<nat>) {
    if n in node.ports && node.ports[n].vlans != [] then node.ports[n].vlans else [1]
  }

  /** Path cost and VLANs of what may be a port: VLANs are those of ports of a filtering bridge alone. */
  ghost predicate PortRight(node: NodePlan, n: string, i: Interface) {
    && (n in node.ports && node.ports[n].pathCost.Some? ==> i.pathCost == node.ports[n].pathCost)
    && i.vlans == if IsPort(node, n) && node.bridge.value.filtering then Untagged(node, n) else []
  }

  predicate LeafRight(desired: Leaf, observed: Leaf) {
    && (desired.FqCodel? ==> observed == desired)
    && (desired.Simple? ==> observed.Simple? && observed.kind == desired.kind
                            && (forall k | k in desired.options :: k in observed.options)
                            && forall k | k in desired.options :: observed.options[k] == desired.options[k])
  }

  /** The kernel may round a TBF burst by two bytes or a thousandth, and its latency by one. */
  predicate QdiscRight(desired: Option<Qdisc>, observed: Option<Qdisc>) {
    && (desired.Some? <==> observed.Some?)
    && (desired.Some? ==>
          match desired.value
          case Tbf(rate, burst, latency) =>
            var q := observed.value;
            && q.Tbf? && q.rate == rate && -1 <= q.latency - latency <= 1
            && (-2 <= q.burst - burst <= 2 || 0 - burst <= 1000 * (q.burst - burst) <= burst)
          case Htb(rate, leaf) => observed.value.Htb? && observed.value.rate == rate
            && LeafRight(leaf, observed.value.leaf)
          case Cake(text) => observed.value == Cake(text)
          case Plain(leaf) => observed.value.Plain? && LeafRight(leaf, observed.value.leaf))
  }

  ghost predicate LoopbackRight(i: Interface) {
    i.kind == Loopback && i.detail == NO_DETAIL && Elements(i.addresses) == {"127.0.0.1/8"} && i.stp == None
    && i.vlans == [] && i.qdisc == None
  }

  ghost predicate BridgeRight(node: NodePlan, i: Interface)
    requires node.bridge.Some?
  {
    var b := node.bridge.value;
    && i.kind == Bridge && i.detail == NO_DETAIL && Elements(i.addresses) == Declared(node, b.name)
    && i.stp == Some(b.stp) && (b.priority.Some? ==> i.priority == b.priority) && i.vlans == [] && i.qdisc == None
  }

  ghost predicate EndRight(plan: NetworkPlan, node: NodePlan, e: int, n: string, i: Interface)
    requires At(plan, node, e, n)
  {
    && i.kind == Veth && i.detail == NO_DETAIL && Elements(i.addresses) == Declared(node, n)
    && i.mtu == plan.links[e / 2].mtu && i.stp == None
    && PortRight(node, n, i) && QdiscRight(plan.links[e / 2].qdisc, i.qdisc)
  }

  predicate KindRight(d: Device, i: Interface) {
    match d
    case VxlanDevice(_, link, vni, _, _, _) => i.kind == Vxlan && i.detail == NO_DETAIL.(vxlan := Some((vni, link)))
    case DummyDevice(_, _, _) => i.kind == Dummy && i.detail == NO_DETAIL
    case MacvlanDevice(_, link, mode, _, _) =>
      i.kind == Macvlan && i.detail == NO_DETAIL.(parent := Some(link), macvlanMode := Some(mode))
    case BondDevice(_, _, mode, _) => i.kind == Bond && i.detail == NO_DETAIL.(bondMode := Some(mode))
    case VrfDevice(_, table, _) => i.kind == Vrf && i.detail == NO_DETAIL.(vrfTable := Some(table))
    case VlanDevice(_, link, id, _) =>
      i.kind == Vlan && i.detail == NO_DETAIL.(parent := Some(link), vlanId := Some(id))
  }

  ghost predicate DeviceRight(plan: NetworkPlan, node: NodePlan, d: Device, i: Interface) {
    && KindRight(d, i) && Elements(i.addresses) == (if d.VrfDevice? then {} else Elements(d.addresses))
    && DeviceMtuRight(plan, node, d, i.mtu) && i.stp == None && i.qdisc == None
    && if d.VxlanDevice? then PortRight(node, d.name, i) else i.vlans == []
  }

  /** The interface is what the plan wants under this name. */
  ghost predicate AsPlanned(plan: NetworkPlan, node: NodePlan, n: string, i: Interface) {
    && i.name == n && i.up && MasterRight(node, n, i.master) && (n in node.macs ==> i.mac == Some(node.macs[n]))
    && (n == "lo" ==> LoopbackRight(i))
    && (IsBridge(node, n) ==> BridgeRight(node, i))
    && (forall e {:trigger At(plan, node, e, n)} | At(plan, node, e, n) :: EndRight(plan, node, e, n, i))
    && (forall d | d in node.devices && d.name == n :: DeviceRight(plan, node, d, i))
  }

  /** One name of the table. */
  ghost predicate NameRight(plan: NetworkPlan, node: NodePlan, m: map<string, Interface>, n: string) {
    && (InPlan(plan, node, n) ==> n in m && AsPlanned(plan, node, n, m[n]))
    && (n in m ==> InPlan(plan, node, n) || (node.pim && n == "pimreg"))
  }

  /** Exactly the planned interfaces are there, but for the one that a routing daemon may add. */
  ghost predicate TableRight(plan: NetworkPlan, node: NodePlan, m: map<string, Interface>) {
    forall n: string {:trigger NameRight(plan, node, m, n)} :: NameRight(plan, node, m, n)
  }

  ghost predicate NodeAsPlanned(plan: NetworkPlan, node: NodePlan, i: Inventory) {
    && i.exists_ && i.node == node.name && i.bridge == node.bridge.Some? && i.namespace == node.namespace
    && TableRight(plan, node, i.interfaces)
    && NeighborsAgree(node.neighbors, i.neighbors) && SysctlsMatch(node.sysctls, i.sysctls)
  }

  // Masters are right.

  ghost predicate ListedBy(devices: seq<Device>, kind: Kind, n: string, name: string) {
    exists d :: d in devices && d.Kind() == kind && Lists(d, n) && d.name == name
  }

  lemma {:induction false} FirstMasterLists(devices: seq<Device>, kind: Kind, n: string)
    requires kind == Bond || kind == Vrf
    ensures var m := FirstMaster(devices, kind, n);
            && (m.Some? ==> ListedBy(devices, kind, n, m.value))
            && (m.None? ==> forall d | d in devices && d.Kind() == kind :: !Lists(d, n))
  {
    if devices != [] {
      FirstMasterLists(devices[1..], kind, n);
      assert forall d | d in devices :: d == devices[0] || d in devices[1..];
    }
  }

  lemma ListedOnce(plan: NetworkPlan, node: NodePlan, d: Device, d': Device, n: string)
    requires MembersFit(plan, node) && d in node.devices && d' in node.devices && Lists(d, n) && Lists(d', n)
    ensures d == d'
  {
    var i :| 0 <= i < |node.devices| && node.devices[i] == d;
    var j :| 0 <= j < |node.devices| && node.devices[j] == d';
    assert Enslaves(node.devices[i], n) && Enslaves(node.devices[j], n);
  }

  lemma NamedOnce(plan: NetworkPlan, node: NodePlan, d: Device, d': Device)
    requires DevicesFit(plan, node) && d in node.devices && d' in node.devices && d.name == d'.name
    ensures d == d'
  {
    var i :| 0 <= i < |node.devices| && node.devices[i] == d;
    var j :| 0 <= j < |node.devices| && node.devices[j] == d';
  }

  /** Bonds and VRFs list neither loopback, nor a bridge, nor each other. */
  lemma NotListed(plan: NetworkPlan, node: NodePlan, n: string)
    requires NodeFits(plan, node)
    requires n == "lo" || IsBridge(node, n) || exists d :: d in node.devices && d.name == n && d.VrfDevice?
    ensures !Listed(node, n)
  {
    if Listed(node, n) {
      var d :| d in node.devices && Lists(d, n);
      assert Enslaves(d, n);
      NotMember(plan, node, d, n);
    }
  }

  lemma NotMember(plan: NetworkPlan, node: NodePlan, d: Device, n: string)
    requires NodeFits(plan, node) && d in node.devices
    requires n == "lo" || IsBridge(node, n) || exists v :: v in node.devices && v.name == n && v.VrfDevice?
    ensures n !in LinkedNames(plan, node.namespace) && !Enslavable(node, n)
  {
    forall e | e in node.devices && e.name == n
      ensures e.VrfDevice? && n !in LinkedNames(plan, node.namespace)
    {
      assert e.name in DeviceNames(node);
      if v :| v in node.devices && v.name == n && v.VrfDevice? { NamedOnce(plan, node, v, e); }
    }
  }

  /** Who is not listed and is no port has no master. */
  lemma NoMaster(node: NodePlan, n: string)
    requires !Listed(node, n) && !IsPort(node, n)
    ensures MasterRight(node, n, None)
  {
  }

  lemma ListedMaster(plan: NetworkPlan, node: NodePlan, n: string, d: Device)
    requires NodeFits(plan, node) && d in node.devices && Lists(d, n)
    ensures MasterRight(node, n, Some(d.name))
  {
    assert d.name in DeviceNames(node) && Listed(node, n);
    forall e | e in node.devices
      ensures Some(d.name) == Some(e.name) <==> Lists(e, n)
    {
      if e.name == d.name { NamedOnce(plan, node, d, e); }
      if Lists(e, n) { ListedOnce(plan, node, d, e, n); }
    }
  }

  lemma PortMaster(plan: NetworkPlan, node: NodePlan, n: string)
    requires NodeFits(plan, node) && IsPort(node, n)
    ensures MasterRight(node, n, Some(node.bridge.value.name))
  {
    forall e | e in node.devices
      ensures e.name != node.bridge.value.name
    {
      assert e.name in DeviceNames(node);
    }
  }

  lemma CarriesIsUnderlay(node: NodePlan, n: string)
    ensures IsUnderlay(node, n) <==> Carries(node, n)
  {
    if Carries(node, n) {
      var d :| d in node.devices && d.VxlanDevice? && d.link == n;
      var i :| 0 <= i < |node.devices| && node.devices[i] == d;
    }
  }

  lemma FirstOf(node: NodePlan, n: string)
    ensures var bond, vrf := FirstMaster(node.devices, Bond, n), FirstMaster(node.devices, Vrf, n);
            && (bond.Some? ==> exists d :: d in node.devices && Lists(d, n) && d.name == bond.value)
            && (vrf.Some? ==> exists d :: d in node.devices && Lists(d, n) && d.name == vrf.value)
            && (Listed(node, n) ==> bond.Some? || vrf.Some?)
  {
    FirstMasterLists(node.devices, Bond, n);
    FirstMasterLists(node.devices, Vrf, n);
  }

  /** The shared helper gives the right master to everything but the loopback. */
  lemma MasterLaw(plan: NetworkPlan, node: NodePlan, n: string)
    requires NodeFits(plan, node) && n != "lo"
    ensures MasterRight(node, n, Master(node, n))
  {
    FirstOf(node, n);
    CarriesIsUnderlay(node, n);
    var m := Master(node, n);
    if d :| d in node.devices && Lists(d, n) && m == Some(d.name) {
      ListedMaster(plan, node, n, d);
    } else if m.Some? {
      PortMaster(plan, node, n);
    } else {
      NoMaster(node, n);
    }
  }

  /** There is one right master. */
  lemma MasterOnce(node: NodePlan, n: string, m: Option<string>, m': Option<string>)
    requires MasterRight(node, n, m) && MasterRight(node, n, m')
    ensures m == m'
  {
  }

  // MTUs are right.

  lemma {:induction false} LinkMtuFound(links: seq<LinkPlan>, node: string, n: string)
    ensures var m := LinkMtu(links, node, n);
            && (m.Some? ==> exists k :: 0 <= k < |links| && TouchesPort(links[k], node, n) && links[k].mtu == m.value)
            && (m.None? ==> forall k | 0 <= k < |links| :: !TouchesPort(links[k], node, n))
  {
    if links != [] && !TouchesPort(links[0], node, n) {
      LinkMtuFound(links[1..], node, n);
      if k :| 0 <= k < |links| - 1 && TouchesPort(links[1..][k], node, n)
              && Some(links[1..][k].mtu) == LinkMtu(links, node, n) {
        assert TouchesPort(links[k + 1], node, n);
      }
      assert forall k | 0 < k < |links| :: links[k] == links[1..][k - 1];
    }
  }

  lemma {:induction false} FirstMemberFound(links: seq<LinkPlan>, node: string, members: seq<string>)
    ensures var m := FirstMemberMtu(links, node, members);
            && (m.Some? ==> exists l :: l in links && TouchesMember(l, node, members) && l.mtu == m.value)
            && (m.None? ==> forall l | l in links :: !TouchesMember(l, node, members))
  {
    if links != [] && !TouchesMember(links[0], node, members) {
      FirstMemberFound(links[1..], node, members);
      assert forall l | l in links :: l == links[0] || l in links[1..];
    }
  }

  /** In a well-formed plan the ends of a node are those in its namespace. */
  ghost predicate EndsNamed(plan: NetworkPlan, node: NodePlan) {
    forall e {:trigger Ends(plan.links)[e]} | 0 <= e < 2 * |plan.links| ::
      Ends(plan.links)[e].node == node.name <==> Ends(plan.links)[e].port.namespace == node.namespace
  }

  lemma PlanNamesEnds(plan: NetworkPlan, j: nat)
    requires WellFormed(plan) && j < |plan.nodes|
    ensures EndsNamed(plan, plan.nodes[j])
  {
    forall e | 0 <= e < 2 * |plan.links|
      ensures Ends(plan.links)[e].node == plan.nodes[j].name
              <==> Ends(plan.links)[e].port.namespace == plan.nodes[j].namespace
    {
      assert OnNode(plan, Ends(plan.links)[e]);
    }
  }

  lemma TouchingEnd(plan: NetworkPlan, node: NodePlan, k: nat, n: string) returns (e: nat)
    requires EndsNamed(plan, node) && k < |plan.links| && TouchesPort(plan.links[k], node.name, n)
    ensures At(plan, node, e, n) && e / 2 == k
  {
    var l := plan.links[k];
    e := if l.left.node == node.name && l.left.port.interface == n then 2 * k else 2 * k + 1;
    assert Ends(plan.links)[2 * k] == l.left && Ends(plan.links)[2 * k + 1] == l.right;
  }

  lemma EndTouches(plan: NetworkPlan, node: NodePlan, e: nat, n: string)
    requires EndsNamed(plan, node) && At(plan, node, e, n)
    ensures e / 2 < |plan.links| && TouchesPort(plan.links[e / 2], node.name, n)
  {
  }

  lemma OneEnd(plan: NetworkPlan, node: NodePlan, e: nat, e': nat, n: string)
    requires DistinctEnds(plan) && At(plan, node, e, n) && At(plan, node, e', n)
    ensures e == e'
  {
    assert e < e' ==> EndsDifferAt(plan, e, e');
    assert e' < e ==> EndsDifferAt(plan, e', e);
  }

  lemma LinkMtuLaw(plan: NetworkPlan, node: NodePlan, n: string, overhead: int)
    requires EndsNamed(plan, node) && DistinctEnds(plan)
    ensures var m := LinkMtu(plan.links, node.name, n);
            && (m.Some? <==> IsLinkEnd(plan, node, n))
            && (m.Some? ==> forall mtu: int {:trigger LinksHaveMtu(plan, node, n, overhead, mtu)} ::
                  LinksHaveMtu(plan, node, n, overhead, mtu) <==> mtu == m.value - overhead)
  {
    var m := LinkMtu(plan.links, node.name, n);
    LinkMtuFound(plan.links, node.name, n);
    if m.None? {
      forall e: nat | At(plan, node, e, n)
        ensures false
      {
        EndTouches(plan, node, e, n);
      }
    } else {
      var k :| 0 <= k < |plan.links| && TouchesPort(plan.links[k], node.name, n) && plan.links[k].mtu == m.value;
      var e := TouchingEnd(plan, node, k, n);
      forall e': nat | At(plan, node, e', n)
        ensures e' == e
      {
        OneEnd(plan, node, e, e', n);
      }
      forall mtu: int
        ensures LinksHaveMtu(plan, node, n, overhead, mtu) <==> mtu == m.value - overhead
      {
        assert LinksHaveMtu(plan, node, n, overhead, mtu) ==> mtu == plan.links[e / 2].mtu - overhead;
      }
    }
  }

  lemma MemberLink(plan: NetworkPlan, node: NodePlan, members: seq<string>, l: LinkPlan) returns (e: nat, n: string)
    requires EndsNamed(plan, node) && l in plan.links && TouchesMember(l, node.name, members)
    ensures n in members && At(plan, node, e, n) && plan.links[e / 2] == l
  {
    var k :| 0 <= k < |plan.links| && plan.links[k] == l;
    n := if l.left.node == node.name && l.left.port.interface in members then l.left.port.interface
    else l.right.port.interface;
    e := TouchingEnd(plan, node, k, n);
  }

  lemma BondMtuLaw(plan: NetworkPlan, node: NodePlan, members: seq<string>, mtu: int)
    requires EndsNamed(plan, node) && BondMtu(plan.links, node.name, members).Some?
    ensures (forall n | n in members :: LinksHaveMtu(plan, node, n, 0, mtu))
            <==> mtu == BondMtu(plan.links, node.name, members).value
  {
    var m := BondMtu(plan.links, node.name, members).value;
    FirstMemberFound(plan.links, node.name, members);
    var l :| l in plan.links && TouchesMember(l, node.name, members) && l.mtu == m;
    var e, n := MemberLink(plan, node, members, l);
    assert LinksHaveMtu(plan, node, n, 0, mtu) ==> mtu == plan.links[e / 2].mtu;
    forall n', e' | n' in members && At(plan, node, e', n')
      ensures plan.links[e' / 2].mtu == m
    {
      EndTouches(plan, node, e', n');
    }
  }

  lemma LinkedIsEnd(plan: NetworkPlan, node: NodePlan, n: string)
    ensures n in LinkedNames(plan, node.namespace) <==> IsLinkEnd(plan, node, n)
  {
    AllEndNames(plan, node);
    EndNamesHave(plan, node, 2 * |plan.links|, n);
    if i :| EndHere(plan, node, i) && Ends(plan.links)[i].port.interface == n { assert At(plan, node, i, n); }
  }

  /** The shared helper gives the one right MTU. */
  lemma DeviceMtuLaw(plan: NetworkPlan, node: NodePlan, d: Device, mtu: int)
    requires EndsNamed(plan, node) && DistinctEnds(plan) && DevicesFit(plan, node)
    requires d in node.devices && !d.VrfDevice? && !d.VlanDevice?
    ensures DeviceMtu(plan, node, d).Some?
    ensures DeviceMtuRight(plan, node, d, mtu) <==> mtu == DeviceMtu(plan, node, d).value
  {
    match d
    case VxlanDevice(_, link, _, six, _, _) => LinkMtuLaw(plan, node, link, if six then 70 else 50);
    case MacvlanDevice(_, link, _, _, _) => LinkMtuLaw(plan, node, link, 0);
    case DummyDevice(_, _, _) =>
    case BondDevice(_, members, _, _) => BondMtuLaw(plan, node, members, mtu);
  }

  // The matcher accepts what is right, interface by interface.

  /** The roles of a name exclude one another. */
  lemma OneRole(plan: NetworkPlan, node: NodePlan, n: string)
    requires NodeFits(plan, node)
    ensures n == "lo" ==> !IsBridge(node, n) && !IsLinkEnd(plan, node, n) && !IsDeviceName(node, n)
    ensures IsBridge(node, n) ==> !IsLinkEnd(plan, node, n) && !IsDeviceName(node, n)
    ensures IsLinkEnd(plan, node, n) ==> !IsDeviceName(node, n)
    ensures InPlan(plan, node, n) <==> n in PlannedNames(plan, node)
  {
    LinkedIsEnd(plan, node, n);
    if d :| d in node.devices && d.name == n { assert d.name in DeviceNames(node); }
  }

  lemma LeavesMean(desired: Leaf, observed: Leaf)
    ensures LeafMatches(desired, observed) <==> LeafRight(desired, observed)
  {
  }

  lemma QdiscsMean(desired: Option<Qdisc>, observed: Option<Qdisc>)
    ensures QdiscMatches(desired, observed) <==> QdiscRight(desired, observed)
  {
    if desired.Some? && observed.Some? && desired.value.Htb? && observed.value.Htb? {
      LeavesMean(desired.value.leaf, observed.value.leaf);
    }
    if desired.Some? && observed.Some? && desired.value.Plain? && observed.value.Plain? {
      LeavesMean(desired.value.leaf, observed.value.leaf);
    }
  }

  lemma VlansLaw(plan: NetworkPlan, node: NodePlan, n: string)
    requires NodeFits(plan, node) && n != "lo"
    ensures PortVlans(node, n) == if IsPort(node, n) && node.bridge.value.filtering then Untagged(node, n) else []
  {
    MasterLaw(plan, node, n);
  }

  lemma PortMeans(plan: NetworkPlan, node: NodePlan, n: string, i: Interface)
    requires NodeFits(plan, node) && n != "lo"
    ensures Leaves(PathCost(node, n), i.pathCost) && i.vlans == PortVlans(node, n) <==> PortRight(node, n, i)
  {
    VlansLaw(plan, node, n);
  }

  lemma AddressesMean(node: NodePlan, n: string)
    ensures Elements(AddressesOf(node, n)) == Declared(node, n)
  {
  }

  lemma MasterMeans(plan: NetworkPlan, node: NodePlan, n: string, m: Option<string>, right: Option<string>)
    requires MasterRight(node, n, right)
    ensures m == right <==> MasterRight(node, n, m)
  {
    if MasterRight(node, n, m) { MasterOnce(node, n, m, right); }
  }

  lemma LoopbackMeans(plan: NetworkPlan, node: NodePlan, i: Interface)
    requires NodeFits(plan, node)
    ensures Fits("lo", WithMac(node, "lo", PlainExpected(Loopback, None, None, [LOOPBACK_ADDRESS])), i)
            <==> AsPlanned(plan, node, "lo", i)
  {
    OneRole(plan, node, "lo");
    NotListed(plan, node, "lo");
    NoMaster(node, "lo");
    MasterMeans(plan, node, "lo", i.master, None);
    assert Elements([LOOPBACK_ADDRESS]) == {"127.0.0.1/8"};
  }

  lemma BridgeMeans(plan: NetworkPlan, node: NodePlan, n: string, i: Interface)
    requires NodeFits(plan, node) && IsBridge(node, n)
    ensures Fits(n, WithMac(node, n, ExpectedBridge(node)), i) <==> AsPlanned(plan, node, n, i)
  {
    OneRole(plan, node, n);
    NotListed(plan, node, n);
    NoMaster(node, n);
    MasterMeans(plan, node, n, i.master, None);
    AddressesMean(node, n);
  }

  lemma EndMeans(plan: NetworkPlan, node: NodePlan, e: nat, n: string, i: Interface)
    requires NodeFits(plan, node) && DistinctEnds(plan) && At(plan, node, e, n)
    ensures Fits(n, WithMac(node, n, ExpectedEnd(node, plan.links[e / 2], n)), i) <==> AsPlanned(plan, node, n, i)
  {
    OneRole(plan, node, n);
    MasterLaw(plan, node, n);
    MasterMeans(plan, node, n, i.master, Master(node, n));
    AddressesMean(node, n);
    PortMeans(plan, node, n, i);
    QdiscsMean(plan.links[e / 2].qdisc, i.qdisc);
    forall e' | At(plan, node, e', n)
      ensures e' == e
    {
      OneEnd(plan, node, e, e', n);
    }
  }

  lemma OnlyDevice(plan: NetworkPlan, node: NodePlan, d: Device, i: Interface)
    requires NodeFits(plan, node) && d in node.devices
    ensures AsPlanned(plan, node, d.name, i)
            <==> && i.name == d.name && i.up && MasterRight(node, d.name, i.master)
                 && (d.name in node.macs ==> i.mac == Some(node.macs[d.name])) && DeviceRight(plan, node, d, i)
  {
    OneRole(plan, node, d.name);
    forall e {:trigger At(plan, node, e, d.name)}
      ensures !At(plan, node, e, d.name)
    {
      assert !IsLinkEnd(plan, node, d.name);
    }
    forall d' | d' in node.devices && d'.name == d.name
      ensures d' == d
    {
      NamedOnce(plan, node, d, d');
    }
  }

  lemma VrfMeans(plan: NetworkPlan, node: NodePlan, d: Device, i: Interface)
    requires NodeFits(plan, node) && d in node.devices && d.VrfDevice?
    ensures Fits(d.name, WithMac(node, d.name, ExpectedDevice(plan, node, d).value), i)
            <==> AsPlanned(plan, node, d.name, i)
  {
    OnlyDevice(plan, node, d, i);
    NotListed(plan, node, d.name);
    NoMaster(node, d.name);
    MasterMeans(plan, node, d.name, i.master, None);
  }

  lemma OtherMeans(plan: NetworkPlan, node: NodePlan, d: Device, i: Interface)
    requires NodeFits(plan, node) && EndsNamed(plan, node) && DistinctEnds(plan) && d in node.devices && !d.VrfDevice?
    ensures ExpectedDevice(plan, node, d).Some?
    ensures Fits(d.name, WithMac(node, d.name, ExpectedDevice(plan, node, d).value), i)
            <==> AsPlanned(plan, node, d.name, i)
  {
    OnlyDevice(plan, node, d, i);
    assert d.name in DeviceNames(node);
    MasterLaw(plan, node, d.name);
    MasterMeans(plan, node, d.name, i.master, Master(node, d.name));
    PortMeans(plan, node, d.name, i);
    if !d.VlanDevice? { DeviceMtuLaw(plan, node, d, i.mtu); }
  }

  lemma DeviceMeans(plan: NetworkPlan, node: NodePlan, d: Device, i: Interface)
    requires NodeFits(plan, node) && EndsNamed(plan, node) && DistinctEnds(plan) && d in node.devices
    ensures ExpectedDevice(plan, node, d).Some?
    ensures Fits(d.name, WithMac(node, d.name, ExpectedDevice(plan, node, d).value), i)
            <==> AsPlanned(plan, node, d.name, i)
  {
    if d.VrfDevice? {
      VrfMeans(plan, node, d, i);
    } else {
      OtherMeans(plan, node, d, i);
    }
  }

  lemma NameMeans(plan: NetworkPlan, node: NodePlan, expected: map<string, Expected>, n: string, i: Interface)
    requires NodeFits(plan, node) && EndsNamed(plan, node) && DistinctEnds(plan) && IsExpected(plan, node, expected)
    requires n in expected
    ensures Fits(n, expected[n], i) <==> AsPlanned(plan, node, n, i)
  {
    OneRole(plan, node, n);
    if n == "lo" {
      LoopbackMeans(plan, node, i);
    } else if IsBridge(node, n) {
      BridgeMeans(plan, node, n, i);
    } else if e :| At(plan, node, e, n) {
      EndMeans(plan, node, e, n, i);
    } else {
      var d :| d in node.devices && d.name == n;
      DeviceMeans(plan, node, d, i);
    }
  }

  ghost predicate NameFound(node: NodePlan, expected: map<string, Expected>, m: map<string, Interface>, n: string) {
    && (n in expected ==> n in m && Fits(n, expected[n], m[n]))
    && (n in m ==> n in expected || n in RuntimeNames(node))
  }

  lemma NameSame(plan: NetworkPlan, node: NodePlan, expected: map<string, Expected>, m: map<string, Interface>,
                 n: string)
    requires NodeFits(plan, node) && EndsNamed(plan, node) && DistinctEnds(plan) && IsExpected(plan, node, expected)
    ensures NameFound(node, expected, m, n) <==> NameRight(plan, node, m, n)
  {
    OneRole(plan, node, n);
    assert n in RuntimeNames(node) <==> node.pim && n == "pimreg";
    if n in m && n in expected { NameMeans(plan, node, expected, n, m[n]); }
  }

  lemma TableMeans(plan: NetworkPlan, node: NodePlan, expected: map<string, Expected>, m: map<string, Interface>)
    requires NodeFits(plan, node) && EndsNamed(plan, node) && DistinctEnds(plan) && IsExpected(plan, node, expected)
    ensures (forall n: string {:trigger NameFound(node, expected, m, n)} :: NameFound(node, expected, m, n))
            <==> TableRight(plan, node, m)
  {
    forall n: string
      ensures NameFound(node, expected, m, n) <==> NameRight(plan, node, m, n)
    {
      NameSame(plan, node, expected, m, n);
    }
  }

  lemma NamesFound(plan: NetworkPlan, node: NodePlan, expected: map<string, Expected>, m: map<string, Interface>)
    requires node.pim ==> PIM_REGISTER !in expected
    ensures (forall n: string {:trigger NameFound(node, expected, m, n)} :: NameFound(node, expected, m, n))
            <==> (m.Keys - RuntimeNames(node) == expected.Keys
                  && forall n | n in expected :: n in m && Fits(n, expected[n], m[n]))
  {
    if m.Keys - RuntimeNames(node) == expected.Keys && forall n | n in expected ::
        n in m && Fits(n, expected[n], m[n]) {
      forall n: string
        ensures NameFound(node, expected, m, n)
      {
        assert n in m && n !in RuntimeNames(node) ==> n in m.Keys - RuntimeNames(node);
      }
    } else if forall n: string {:trigger NameFound(node, expected, m, n)} :: NameFound(node, expected, m, n) {
      forall n: string
        ensures n in m.Keys - RuntimeNames(node) <==> n in expected.Keys
        ensures n in expected ==> n in m && Fits(n, expected[n], m[n])
      {
        assert NameFound(node, expected, m, n);
      }
    }
  }

  /** What is expected under a name, by its role. */
  ghost function ExpectedOf(plan: NetworkPlan, node: NodePlan, n: string): (r: Expected)
    requires NodeFits(plan, node) && InPlan(plan, node, n)
  {
    if n == "lo" then PlainExpected(Loopback, None, None, [LOOPBACK_ADDRESS])
    else if IsBridge(node, n) then ExpectedBridge(node)
    else if IsLinkEnd(plan, node, n) then
      var e :| At(plan, node, e, n);
      ExpectedEnd(node, plan.links[e / 2], n)
    else
      var d :| d in node.devices && d.name == n;
      DeviceExpected(plan, node, d);
      ExpectedDevice(plan, node, d).value
  }

  lemma ExpectationExists(plan: NetworkPlan, node: NodePlan) returns (expected: map<string, Expected>)
    requires NodeFits(plan, node) && DistinctEnds(plan)
    ensures IsExpected(plan, node, expected)
  {
    forall n: string
      ensures InPlan(plan, node, n) <==> n in PlannedNames(plan, node)
    {
      OneRole(plan, node, n);
    }
    expected := map n | n in PlannedNames(plan, node) :: WithMac(node, n, ExpectedOf(plan, node, n));
    if node.bridge.Some? {
      assert IsBridge(node, node.bridge.value.name);
      OneRole(plan, node, node.bridge.value.name);
    }
    forall k | EndHere(plan, node, k)
      ensures var name := Ends(plan.links)[k].port.interface;
              name in expected && expected[name] == WithMac(node, name, ExpectedEnd(node, plan.links[k / 2], name))
    {
      ExpectedHere(plan, node, k, Ends(plan.links)[k].port.interface);
    }
    forall d | d in node.devices
      ensures d.name in expected && ExpectedDevice(plan, node, d).Some?
      ensures expected[d.name] == WithMac(node, d.name, ExpectedDevice(plan, node, d).value)
    {
      DeviceHere(plan, node, d);
    }
  }

  lemma ExpectedHere(plan: NetworkPlan, node: NodePlan, k: nat, n: string)
    requires NodeFits(plan, node) && DistinctEnds(plan) && At(plan, node, k, n)
    ensures InPlan(plan, node, n) && ExpectedOf(plan, node, n) == ExpectedEnd(node, plan.links[k / 2], n)
  {
    assert IsLinkEnd(plan, node, n);
    OneRole(plan, node, n);
    forall e | At(plan, node, e, n)
      ensures e == k
    {
      OneEnd(plan, node, e, k, n);
    }
  }

  lemma DeviceHere(plan: NetworkPlan, node: NodePlan, d: Device)
    requires NodeFits(plan, node) && d in node.devices
    ensures InPlan(plan, node, d.name) && ExpectedDevice(plan, node, d) == Some(ExpectedOf(plan, node, d.name))
  {
    assert IsDeviceName(node, d.name);
    OneRole(plan, node, d.name);
    DeviceExpected(plan, node, d);
    forall d' | d' in node.devices && d'.name == d.name
      ensures d' == d
    {
      NamedOnce(plan, node, d, d');
    }
  }

  lemma NodeMeans(plan: NetworkPlan, j: nat, i: Inventory)
    requires WellFormed(plan) && j < |plan.nodes|
    ensures NodeMatches(plan, plan.nodes[j], i) <==> NodeAsPlanned(plan, plan.nodes[j], i)
  {
    var node := plan.nodes[j];
    assert NodeFits(plan, node);
    PlanNamesEnds(plan, j);
    var expected := ExpectationExists(plan, node);
    NodeMatchesBy(plan, node, expected, i);
    TableMeans(plan, node, expected, i.interfaces);
    NamesFound(plan, node, expected, i.interfaces);
  }

  ghost predicate NodeStandsAsPlanned(plan: NetworkPlan, o: Observed, j: nat)
    requires j < |plan.nodes|
  {
    plan.nodes[j].namespace in o.namespaces
    && NodeAsPlanned(plan, plan.nodes[j], o.namespaces[plan.nodes[j].namespace])
  }

  /** Everything is as planned. */
  ghost predicate StandsAsPlanned(plan: NetworkPlan, o: Observed) {
    forall j: nat {:trigger NodeStandsAsPlanned(plan, o, j)} | j < |plan.nodes| :: NodeStandsAsPlanned(plan, o, j)
  }

  /** The matcher's answer in the plan's own terms: names, kinds, masters, MTUs, addresses, ports and qdiscs. */
  lemma MatchesMeans(plan: NetworkPlan, o: Observed)
    requires WellFormed(plan)
    ensures MatchesPlan(plan, o)
            <==> && o.root == {} && o.namespaces.Keys == PlannedNamespaces(plan)
                 && StandsAsPlanned(plan, o) && LinksAgree(plan, o)
  {
    forall j: nat | j < |plan.nodes|
      ensures NodeObserved(plan, plan.nodes[j], o) <==> NodeStandsAsPlanned(plan, o, j)
    {
      if plan.nodes[j].namespace in o.namespaces { NodeMeans(plan, j, o.namespaces[plan.nodes[j].namespace]); }
    }
    if StandsAsPlanned(plan, o) {
      forall j: nat | j < |plan.nodes|
        ensures NodeObserved(plan, plan.nodes[j], o)
      {
        assert NodeStandsAsPlanned(plan, o, j);
      }
    }
  }
}
