/**
 The configured side of a compiled plan: devices, addresses, bridge ports and qdiscs of each node, and the
 planner's helpers that the in-memory backend and the live-state matcher share. Six device kinds and a
 part of the interface fields stand for all.
 */
module Network {
  import opened Options
  import opened Topology

  datatype Kind = Loopback | Bridge | Veth | Vxlan | Dummy | Macvlan | Bond | Vrf | Vlan

  /** A qdisc with fixed parameters, or a simple one of some kind with its options. */
  datatype Leaf = FqCodel(text: string) | Simple(kind: string, options: map<string, nat>)

  datatype Qdisc = Tbf(rate: nat, burst: nat, latency: nat) | Htb(rate: nat, leaf: Leaf) | Cake(text: string)
    | Plain(leaf: Leaf)

  datatype Device =
    | VxlanDevice(name: string, link: string, vni: nat, six: bool, mtu: Option<int>, addresses: seq<string>)
    | DummyDevice(name: string, mtu: Option<int>, addresses: seq<string>)
    | MacvlanDevice(name: string, link: string, mode: string, mtu: Option<int>, addresses: seq<string>)
    | BondDevice(name: string, members: seq<string>, mode: string, addresses: seq<string>)
    | VrfDevice(name: string, table: nat, members: seq<string>)
    | VlanDevice(name: string, link: string, id: nat, addresses: seq<string>)
  {
    function Kind(): (r: Kind) {
      match this
      case VxlanDevice(_, _, _, _, _, _) => Vxlan
      case DummyDevice(_, _, _) => Dummy
      case MacvlanDevice(_, _, _, _, _) => Macvlan
      case BondDevice(_, _, _, _) => Bond
      case VrfDevice(_, _, _) => Vrf
      case VlanDevice(_, _, _, _) => Vlan
    }

    predicate HasLink() {
      VxlanDevice? || MacvlanDevice? || VlanDevice?
    }

    function Addresses(): (r: seq<string>) {
      if VrfDevice? then [] else addresses
    }

    /** The attributes that only this kind of device has. */
    function Detail(): (r: Detail) {
      match this
      case VxlanDevice(_, link, vni, _, _, _) => NO_DETAIL.(vxlan := Some((vni, link)))
      case DummyDevice(_, _, _) => NO_DETAIL
      case MacvlanDevice(_, link, mode, _, _) => NO_DETAIL.(parent := Some(link), macvlanMode := Some(mode))
      case BondDevice(_, _, mode, _) => NO_DETAIL.(bondMode := Some(mode))
      case VrfDevice(_, table, _) => NO_DETAIL.(vrfTable := Some(table))
      case VlanDevice(_, link, id, _) => NO_DETAIL.(parent := Some(link), vlanId := Some(id))
    }
  }

  datatype Detail = Detail(
    parent: Option<string>,
    vlanId: Option<nat>,
    vrfTable: Option<nat>,
    bondMode: Option<string>,
    vxlan: Option<(nat, string)>,
    macvlanMode: Option<string>)

  const NO_DETAIL := Detail(None, None, None, None, None, None)

  datatype BridgeConfig = BridgeConfig(name: string, stp: bool, filtering: bool, priority: Option<nat>)

  datatype PortConfig = PortConfig(pathCost: Option<nat>, vlans: seq<nat>)

  datatype NeighborState = Permanent | Noarp | Reachable | Stale | Delay | Probe | Failed | Proxied

  datatype Neighbor = Neighbor(dst: string, dev: string, lladdr: Option<string>, state: NeighborState, proxy: bool)

  datatype NodePlan = NodePlan(
    name: string,
    namespace: string,
    bridge: Option<BridgeConfig>,
    devices: seq<Device>,
    addresses: map<string, seq<string>>,
    ports: map<string, PortConfig>,
    macs: map<string, string>,
    neighbors: seq<Neighbor>,
    sysctls: map<string, nat>,
    pim: bool)

  datatype End = End(node: string, port: Port, temporary: string)

  datatype LinkPlan = LinkPlan(left: End, right: End, mtu: int, qdisc: Option<Qdisc>)

  datatype NetworkPlan = NetworkPlan(nodes: seq<NodePlan>, links: seq<LinkPlan>)

  /** Both ends of the links, in link order, the left end first. */
  function Ends(links: seq<LinkPlan>): (ends: seq<End>)
    ensures |ends| == 2 * |links|
  {
    seq(2 * |links|, i requires 0 <= i < 2 * |links| => if i % 2 == 0 then links[i / 2].left else links[i / 2].right)
  }

  // The planner's helpers.

  function AddressesOf(node: NodePlan, interface: string): (r: seq<string>) {
    if interface in node.addresses then node.addresses[interface] else []
  }

  function PathCost(node: NodePlan, interface: string): (r: Option<nat>) {
    if interface in node.ports then node.ports[interface].pathCost else None
  }

  /** The first device that enslaves `interface`, of bonds or of VRFs. */
  function FirstMaster(devices: seq<Device>, kind: Kind, interface: string): (r: Option<string>) {
    if devices == [] then None
    else if devices[0].Kind() == kind && Enslaves(devices[0], interface) then Some(devices[0].name)
    else FirstMaster(devices[1..], kind, interface)
  }

  predicate Enslaves(d: Device, interface: string) {
    (d.BondDevice? || d.VrfDevice?) && interface in d.members
  }

  predicate IsUnderlay(node: NodePlan, interface: string) {
    exists i | 0 <= i < |node.devices| :: node.devices[i].VxlanDevice? && node.devices[i].link == interface
  }

  function Master(node: NodePlan, interface: string): (r: Option<string>) {
    var bond := FirstMaster(node.devices, Bond, interface);
    var vrf := FirstMaster(node.devices, Vrf, interface);
    if bond.Some? then bond
    else if vrf.Some? then vrf
    else if node.bridge == None || interface == node.bridge.value.name || IsUnderlay(node, interface) then None
    else Some(node.bridge.value.name)
  }

  const DEFAULT_VLAN: nat := 1

  function PortVlans(node: NodePlan, interface: string): (r: seq<nat>) {
    if node.bridge == None || !node.bridge.value.filtering || Master(node, interface) != Some(node.bridge.value.name)
      then []
    else if interface in node.ports && node.ports[interface].vlans != [] then node.ports[interface].vlans
    else [DEFAULT_VLAN]
  }

  /** MTU of the first link with an end at the interface. */
  function LinkMtu(links: seq<LinkPlan>, node: string, interface: string): (r: Option<int>) {
    if links == [] then None
    else if TouchesPort(links[0], node, interface) then Some(links[0].mtu)
    else LinkMtu(links[1..], node, interface)
  }

  predicate TouchesPort(l: LinkPlan, node: string, interface: string) {
    (l.left.node == node && l.left.port.interface == interface)
      || (l.right.node == node && l.right.port.interface == interface)
  }

  predicate TouchesMember(l: LinkPlan, node: string, members: seq<string>) {
    (l.left.node == node && l.left.port.interface in members)
      || (l.right.node == node && l.right.port.interface in members)
  }

  function FirstMemberMtu(links: seq<LinkPlan>, node: string, members: seq<string>): (r: Option<int>) {
    if links == [] then None
    else if TouchesMember(links[0], node, members) then Some(links[0].mtu)
    else FirstMemberMtu(links[1..], node, members)
  }

  /** The one MTU of a bond's member links, if they have one. */
  function BondMtu(links: seq<LinkPlan>, node: string, members: seq<string>): (r: Option<int>) {
    var first := FirstMemberMtu(links, node, members);
    if first.Some? && forall l | l in links && TouchesMember(l, node, members) ::
        l.mtu == first.value then first else None
  }

  function Minus(mtu: Option<int>, overhead: int): (r: Option<int>) {
    if mtu.Some? then Some(mtu.value - overhead) else None
  }

  /** The planned MTU of a device; none if the planner's helper would raise. VRF and VLAN devices have no helper. */
  function DeviceMtu(plan: NetworkPlan, node: NodePlan, d: Device): (r: Option<int>)
    requires !d.VrfDevice? && !d.VlanDevice?
  {
    match d
    case VxlanDevice(_, link, _, six, mtu, _) =>
      if mtu.Some? then mtu else Minus(LinkMtu(plan.links, node.name, link), if six then 70 else 50)
    case DummyDevice(_, mtu, _) => if mtu.Some? then mtu else Some(1500)
    case MacvlanDevice(_, link, _, mtu, _) => if mtu.Some? then mtu else LinkMtu(plan.links, node.name, link)
    case BondDevice(_, members, _, _) => BondMtu(plan.links, node.name, members)
  }

  // What manifest validation and planning guarantee.

  function DeviceNames(node: NodePlan): (r: set<string>) {
    set d | d in node.devices :: d.name
  }

  /** The interfaces of a namespace that are link ends. */
  function LinkedNames(plan: NetworkPlan, namespace: string): (r: set<string>) {
    set e | e in Ends(plan.links) && e.port.namespace == namespace :: e.port.interface
  }

  function BridgeNames(node: NodePlan): (r: set<string>) {
    if node.bridge.Some? then {node.bridge.value.name} else {}
  }

  const PIM_REGISTER := "pimreg"

  ghost predicate DevicesFit(plan: NetworkPlan, node: NodePlan) {
    var linked := LinkedNames(plan, node.namespace);
    && (forall i, j | 0 <= i < j < |node.devices| :: node.devices[i].name != node.devices[j].name)
    && "lo" !in DeviceNames(node) && "lo" !in linked && "lo" !in BridgeNames(node)
    && DeviceNames(node) !! linked && BridgeNames(node) !! linked + DeviceNames(node)
    && (forall d | d in node.devices && d.HasLink() :: d.link in linked)
    && (forall d | d in node.devices && !d.VrfDevice? && !d.VlanDevice? :: DeviceMtu(plan, node, d).Some?)
    && (node.bridge.Some? ==> forall d | d in node.devices :: d.VxlanDevice?)
  }

  /** Bonds take link ends, VRFs take what is neither in a bond nor a bond nor a VRF, each at most once. */
  ghost predicate MembersFit(plan: NetworkPlan, node: NodePlan) {
    && (forall d, m | d in node.devices && Enslaves(d, m) ::
          m in LinkedNames(plan, node.namespace) || (d.VrfDevice? && Enslavable(node, m)))
    && (forall i, j, m | 0 <= i < j < |node.devices| && Enslaves(node.devices[i], m) :: !Enslaves(node.devices[j], m))
  }

  ghost predicate Enslavable(node: NodePlan, m: string) {
    exists e :: e in node.devices && e.name == m && !e.BondDevice? && !e.VrfDevice?
  }

  predicate DistinctNeighbors(s: seq<Neighbor>) {
    forall i, j | 0 <= i < j < |s| :: (s[i].dst, s[i].dev) != (s[j].dst, s[j].dev)
  }

  function PlannedNames(plan: NetworkPlan, node: NodePlan): (r: set<string>) {
    {"lo"} + BridgeNames(node) + LinkedNames(plan, node.namespace) + DeviceNames(node)
  }

  ghost predicate NodeFits(plan: NetworkPlan, node: NodePlan) {
    && DevicesFit(plan, node) && MembersFit(plan, node)
    && node.macs.Keys <= PlannedNames(plan, node)
    && DistinctNeighbors(node.neighbors)
    && (node.pim ==> PIM_REGISTER !in PlannedNames(plan, node))
  }

  ghost predicate DistinctNamespaces(plan: NetworkPlan) {
    forall i, j | 0 <= i < j < |plan.nodes| :: plan.nodes[i].namespace != plan.nodes[j].namespace
  }

  ghost predicate DistinctNames(plan: NetworkPlan) {
    forall i, j | 0 <= i < j < |plan.nodes| :: plan.nodes[i].name != plan.nodes[j].name
  }

  ghost predicate DistinctEnds(plan: NetworkPlan) {
    forall i: nat, j: nat {:trigger EndsDifferAt(plan, i, j)} | i < j < 2 * |plan.links| :: EndsDifferAt(plan, i, j)
  }

  predicate EndsDifferAt(plan: NetworkPlan, i: nat, j: nat)
    requires i < 2 * |plan.links| && j < 2 * |plan.links|
  {
    Ends(plan.links)[i].port != Ends(plan.links)[j].port
  }

  ghost predicate OnNode(plan: NetworkPlan, end: End) {
    exists k :: 0 <= k < |plan.nodes| && plan.nodes[k].namespace == end.port.namespace && plan.nodes[k].name == end.node
  }

  ghost predicate WellFormed(plan: NetworkPlan) {
    && DistinctNamespaces(plan) && DistinctNames(plan)
    && (forall i: nat {:trigger NodeFits(plan, plan.nodes[i])} | i < |plan.nodes| :: NodeFits(plan, plan.nodes[i]))
    && DistinctEnds(plan)
    && (forall i: nat {:trigger OnNode(plan, Ends(plan.links)[i])} | i < 2 * |plan.links| ::
         OnNode(plan, Ends(plan.links)[i]))
  }
}
