/**
 The inspector: a third computation of what a plan wants, in the form that is shown, compared with an
 inventory difference by difference. Values of differences are left out, only their places are kept.
 */
module Inspector {
  import opened Configured
  import opened Matcher
  import opened Network
  import opened Options
  import opened Topology

  datatype LeafLabel = FqLabel(text: string) | KindLabel(kind: string)

  /** A qdisc as it is shown. Options of simple qdiscs are not. */
  datatype QdiscLabel = TbfLabel(rate: nat, burst: nat, latency: nat) | HtbLabel(rate: nat, leaf: LeafLabel)
    | CakeLabel(text: string) | PlainLabel(leaf: LeafLabel)

  /** An interface as it is shown. Addresses and VLANs are sorted and without duplicates, that is, sets. */
  datatype InterfaceView = InterfaceView(
    name: string,
    kind: Kind,
    master: Option<string>,
    mtu: Option<int>,
    up: bool,
    addresses: set<string>,
    mac: Option<string>,
    stp: Option<bool>,
    priority: Option<nat>,
    pathCost: Option<nat>,
    vlans: set<nat>,
    qdisc: Option<QdiscLabel>,
    detail: Detail)

  /** Where desired and actual differ: in the live network or in the recorded state, and at which property of what. */
  datatype Difference = Difference(live: bool, node: Option<string>, interface: Option<string>, at: Property)

  /** The properties that are compared: of interfaces, of nodes, and of the whole. */
  datatype Property = AtName | AtKind | AtMaster | AtMtu | AtUp | AtAddresses | AtMac | AtStp | AtPriority | AtPathCost
    | AtVlans | AtQdisc | AtParent | AtVlanId | AtVrfTable | AtBondMode | AtVxlanVni | AtVxlanLink | AtMacvlanMode
    | AtPresent | AtRootTemporary | AtLink | AtLinkId
    | AtExists | AtNodeName | AtNodeKind | AtNamespace | AtNeighbors | AtSysctl(name: string)
    | AtNamespaces | AtInventory | AtSnapshot | AtSnapshotStatus

  function ShowLeaf(leaf: Leaf): (r: LeafLabel) {
    match leaf
    case FqCodel(text) => FqLabel(text)
    case Simple(kind, _) => KindLabel(kind)
  }

  function ShowQdisc(q: Option<Qdisc>): (r: Option<QdiscLabel>) {
    match q
    case None => None
    case Some(Tbf(r, b, l)) => Some(TbfLabel(r, b, l))
    case Some(Htb(r, leaf)) => Some(HtbLabel(r, ShowLeaf(leaf)))
    case Some(Cake(text)) => Some(CakeLabel(text))
    case Some(Plain(leaf)) => Some(PlainLabel(ShowLeaf(leaf)))
  }

  function PlainView(name: string, kind: Kind, master: Option<string>, mtu: Option<int>,
                     addresses: seq<string>): (r: InterfaceView) {
    InterfaceView(name, kind, master, mtu, true, Elements(addresses), None, None, None, None, {}, None, NO_DETAIL)
  }

  function BridgeView(node: NodePlan): (r: InterfaceView)
    requires node.bridge.Some?
  {
    var b := node.bridge.value;
    PlainView(b.name, Bridge, None, None, AddressesOf(node, b.name)).(stp := Some(b.stp), priority := b.priority)
  }

  function EndView(node: NodePlan, l: LinkPlan, name: string): (r: InterfaceView) {
    PlainView(name, Veth, Master(node, name), Some(l.mtu), AddressesOf(node, name))
    .(pathCost := PathCost(node, name), vlans := Elements(PortVlans(node, name)), qdisc := ShowQdisc(l.qdisc))
  }

  function DeviceView(plan: NetworkPlan, node: NodePlan, d: Device): (r: InterfaceView)
    requires !d.VrfDevice? && !d.VlanDevice? ==> DeviceMtu(plan, node, d).Some?
  {
    match d
    case VlanDevice(name, _, _, addresses) =>
      PlainView(name, Vlan, Master(node, name), None, addresses).(detail := d.Detail())
    case VrfDevice(name, _, _) => PlainView(name, Vrf, None, None, []).(detail := d.Detail())
    case VxlanDevice(name, _, _, _, _, addresses) =>
      PlainView(name, Vxlan, Master(node, name), DeviceMtu(plan, node, d), addresses)
      .(pathCost := PathCost(node, name), vlans := Elements(PortVlans(node, name)), detail := d.Detail())
    case _ => PlainView(d.name, d.Kind(), Master(node, d.name), DeviceMtu(plan, node, d),
      d.addresses).(detail := d.Detail())
  }

  function BaseViews(node: NodePlan): (r: seq<InterfaceView>) {
    [PlainView("lo", Loopback, None, None, [LOOPBACK_ADDRESS])] + if node.bridge.Some? then [BridgeView(node)] else []
  }

  function EndViews(plan: NetworkPlan, node: NodePlan, k: nat): (r: seq<InterfaceView>)
    requires k <= 2 * |plan.links|
  {
    if k == 0 then []
    else EndViews(plan, node, k - 1)
         + if EndHere(plan, node, k - 1)
           then [EndView(node, plan.links[(k - 1) / 2], Ends(plan.links)[k - 1].port.interface)] else []
  }

  function DeviceViews(plan: NetworkPlan, node: NodePlan, j: nat): (r: seq<InterfaceView>)
    requires j <= |node.devices| && DevicesPlanned(plan, node)
  {
    if j == 0 then [] else DeviceViews(plan, node, j - 1) + [DeviceView(plan, node, node.devices[j - 1])]
  }

  predicate DevicesPlanned(plan: NetworkPlan, node: NodePlan) {
    forall d | d in node.devices :: !d.VrfDevice? && !d.VlanDevice? ==> DeviceMtu(plan, node, d).Some?
  }

  function ShowMac(node: NodePlan, v: InterfaceView): (r: InterfaceView) {
    v.(mac := if v.name in node.macs then Some(node.macs[v.name]) else None)
  }

  function DesiredViews(plan: NetworkPlan, node: NodePlan): (views: seq<InterfaceView>)
    requires DevicesPlanned(plan, node)
  {
    BaseViews(node) + EndViews(plan, node, 2 * |plan.links|) + DeviceViews(plan, node, |node.devices|)
  }

  /** The views by name, with their MAC addresses. */
  function ByName(node: NodePlan, views: seq<InterfaceView>, k: nat): (r: map<string, InterfaceView>)
    requires k <= |views|
  {
    if k == 0 then map[] else ByName(node, views, k - 1)[views[k - 1].name := ShowMac(node, views[k - 1])]
  }

  function DesiredMap(plan: NetworkPlan, node: NodePlan): (r: map<string, InterfaceView>)
    requires DevicesPlanned(plan, node)
  {
    ByName(node, DesiredViews(plan, node), |DesiredViews(plan, node)|)
  }

  method ListEnds(plan: NetworkPlan, node: NodePlan) returns (ends: seq<InterfaceView>)
    ensures ends == EndViews(plan, node, 2 * |plan.links|)
  {
    ends := [];
    for k := 0 to 2 * |plan.links|
      invariant ends == EndViews(plan, node, k)
    {
      if EndHere(plan, node, k) {
        ends := ends + [EndView(node, plan.links[k / 2], Ends(plan.links)[k].port.interface)];
      }
    }
  }

  method ListDevices(plan: NetworkPlan, node: NodePlan) returns (devices: seq<InterfaceView>)
    requires DevicesPlanned(plan, node)
    ensures devices == DeviceViews(plan, node, |node.devices|)
  {
    devices := [];
    for j := 0 to |node.devices|
      invariant devices == DeviceViews(plan, node, j)
    {
      devices := devices + [DeviceView(plan, node, node.devices[j])];
    }
  }

  method DesiredInterfaces(plan: NetworkPlan, node: NodePlan) returns (desired: map<string, InterfaceView>)
    requires DevicesPlanned(plan, node)
    ensures desired == DesiredMap(plan, node)
  {
    var ends := ListEnds(plan, node);
    var devices := ListDevices(plan, node);
    var views := BaseViews(node) + ends + devices;
    desired := map[];
    for k := 0 to |views|
      invariant desired == ByName(node, views, k)
    {
      desired := desired[views[k].name := ShowMac(node, views[k])];
    }
  }

  // The shown expectation is the matcher's.

  function ToView(name: string, e: Expected): (r: InterfaceView) {
    InterfaceView(name, e.kind, e.master, e.mtu, e.up, Elements(e.addresses), e.mac, e.stp, e.priority, e.pathCost,
      Elements(e.vlans), ShowQdisc(e.qdisc), e.detail)
  }

  /** A view shows what is expected under its name. */
  ghost predicate Shows(node: NodePlan, expected: map<string, Expected>, v: InterfaceView) {
    v.name in expected && ShowMac(node, v) == ToView(v.name, expected[v.name])
  }

  lemma EndViewShows(plan: NetworkPlan, node: NodePlan, expected: map<string, Expected>, k: nat)
    requires IsExpected(plan, node, expected) && EndHere(plan, node, k)
    ensures Shows(node, expected, EndView(node, plan.links[k / 2], Ends(plan.links)[k].port.interface))
  {
  }

  lemma DeviceViewShows(plan: NetworkPlan, node: NodePlan, expected: map<string, Expected>, d: Device)
    requires IsExpected(plan, node, expected) && DevicesPlanned(plan, node) && d in node.devices
    ensures Shows(node, expected, DeviceView(plan, node, d))
  {
  }

  /** The views of link ends come from link ends. */
  lemma {:induction false} EndViewsAre(plan: NetworkPlan, node: NodePlan, k: nat, v: InterfaceView)
    requires k <= 2 * |plan.links| && v in EndViews(plan, node, k)
    ensures IsEndView(plan, node, v)
  {
    if v in EndViews(plan, node, k - 1) {
      EndViewsAre(plan, node, k - 1, v);
    } else {
      assert EndHere(plan, node, k - 1);
    }
  }

  /** Every end has its view. */
  lemma {:induction false} EndHasView(plan: NetworkPlan, node: NodePlan, k: nat, i: nat)
    requires k <= 2 * |plan.links| && EndHere(plan, node, i) && i < k
    ensures EndView(node, plan.links[i / 2], Ends(plan.links)[i].port.interface) in EndViews(plan, node, k)
  {
    if i < k - 1 {
      EndHasView(plan, node, k - 1, i);
    }
  }

  ghost predicate IsEndView(plan: NetworkPlan, node: NodePlan, v: InterfaceView) {
    exists k :: EndHere(plan, node, k) && v == EndView(node, plan.links[k / 2], Ends(plan.links)[k].port.interface)
  }

  ghost predicate HasName(views: seq<InterfaceView>, n: string) {
    exists v :: v in views && v.name == n
  }

  lemma {:induction false} DeviceViewsAre(plan: NetworkPlan, node: NodePlan, j: nat, v: InterfaceView)
    requires DevicesPlanned(plan, node) && j <= |node.devices| && v in DeviceViews(plan, node, j)
    ensures exists i | 0 <= i < j :: v == DeviceView(plan, node, node.devices[i])
  {
    if v in DeviceViews(plan, node, j - 1) {
      DeviceViewsAre(plan, node, j - 1, v);
    } else {
      assert v == DeviceView(plan, node, node.devices[j - 1]);
    }
  }

  lemma {:induction false} DeviceHasView(plan: NetworkPlan, node: NodePlan, j: nat, i: nat)
    requires DevicesPlanned(plan, node) && i < j <= |node.devices|
    ensures DeviceView(plan, node, node.devices[i]) in DeviceViews(plan, node, j)
  {
    if i < j - 1 {
      DeviceHasView(plan, node, j - 1, i);
    }
  }

  lemma {:induction false} ByNameShows(node: NodePlan, expected: map<string, Expected>, views: seq<InterfaceView>,
                                       k: nat)
    requires k <= |views| && forall v | v in views :: Shows(node, expected, v)
    ensures forall n | n in ByName(node, views, k) ::
              n in expected && ByName(node, views, k)[n] == ToView(n, expected[n])
    ensures forall i | 0 <= i < k :: views[i].name in ByName(node, views, k)
  {
    if k > 0 {
      ByNameShows(node, expected, views, k - 1);
      assert Shows(node, expected, views[k - 1]);
    }
  }

  lemma ViewOfName(plan: NetworkPlan, node: NodePlan, n: string)
    requires DevicesPlanned(plan, node) && n in PlannedNames(plan, node)
    ensures HasName(DesiredViews(plan, node), n)
  {
    NameCases(plan, node, n);
    if n == "lo" {
      assert BaseViews(node)[0].name == n && BaseViews(node)[0] in DesiredViews(plan, node);
    } else if node.bridge.Some? && n == node.bridge.value.name {
      assert BaseViews(node)[1].name == n && BaseViews(node)[1] in DesiredViews(plan, node);
    } else if k :| EndHere(plan, node, k) && Ends(plan.links)[k].port.interface == n {
      EndHasView(plan, node, 2 * |plan.links|, k);
      assert EndView(node, plan.links[k / 2], n) in DesiredViews(plan, node);
    } else {
      var d :| d in node.devices && d.name == n;
      var i :| 0 <= i < |node.devices| && node.devices[i] == d;
      DeviceHasView(plan, node, |node.devices|, i);
      assert DeviceView(plan, node, d) in DesiredViews(plan, node);
    }
  }

  lemma ViewShows(plan: NetworkPlan, node: NodePlan, expected: map<string, Expected>, v: InterfaceView)
    requires IsExpected(plan, node, expected) && DevicesPlanned(plan, node) && v in DesiredViews(plan, node)
    ensures Shows(node, expected, v)
  {
    if v in EndViews(plan, node, 2 * |plan.links|) {
      EndViewsAre(plan, node, 2 * |plan.links|, v);
      var k :| EndHere(plan, node, k) && v == EndView(node, plan.links[k / 2], Ends(plan.links)[k].port.interface);
      EndViewShows(plan, node, expected, k);
    } else if v in DeviceViews(plan, node, |node.devices|) {
      DeviceViewsAre(plan, node, |node.devices|, v);
      var i :| 0 <= i < |node.devices| && v == DeviceView(plan, node, node.devices[i]);
      DeviceViewShows(plan, node, expected, node.devices[i]);
    } else {
      BaseViewShows(plan, node, expected, v);
    }
  }

  lemma BaseViewShows(plan: NetworkPlan, node: NodePlan, expected: map<string, Expected>, v: InterfaceView)
    requires IsExpected(plan, node, expected) && v in BaseViews(node)
    ensures Shows(node, expected, v)
  {
    if v != BaseViews(node)[0] { assert v == BridgeView(node); }
  }

  /** Both computations expect the same interfaces. */
  lemma DesiredIsExpected(plan: NetworkPlan, node: NodePlan, expected: map<string, Expected>)
    requires IsExpected(plan, node, expected) && DevicesPlanned(plan, node)
    ensures DesiredMap(plan, node).Keys == expected.Keys
    ensures forall n | n in expected :: DesiredMap(plan, node)[n] == ToView(n, expected[n])
  {
    var views := DesiredViews(plan, node);
    forall v | v in views
      ensures Shows(node, expected, v)
    {
      ViewShows(plan, node, expected, v);
    }
    ByNameShows(node, expected, views, |views|);
    forall n | n in expected
      ensures n in DesiredMap(plan, node)
    {
      ViewOfName(plan, node, n);
      var v :| v in views && v.name == n;
      var i :| 0 <= i < |views| && views[i] == v;
    }
  }

  // The comparison.

  /** What the comparison of one interface requires. */
  predicate SameAs(desired: InterfaceView, i: Interface) {
    && desired.name == i.name && desired.kind == i.kind && desired.master == i.master
    && (desired.mtu.Some? ==> desired.mtu.value == i.mtu)
    && desired.up == i.up && desired.addresses == Elements(i.addresses)
    && Leaves(desired.mac, i.mac) && desired.stp == i.stp && Leaves(desired.priority, i.priority)
       && Leaves(desired.pathCost, i.pathCost)
    && desired.vlans == Elements(i.vlans) && desired.qdisc == ShowQdisc(i.qdisc) && desired.detail == i.detail
  }

  function Vni(d: Detail): (r: Option<nat>) {
    if d.vxlan.Some? then Some(d.vxlan.value.0) else None
  }

  function Underlay(d: Detail): (r: Option<string>) {
    if d.vxlan.Some? then Some(d.vxlan.value.1) else None
  }

  /** Whether the interface is not as desired at a property. What the plan leaves open cannot differ. */
  predicate DiffersAt(desired: InterfaceView, i: Interface, at: Property) {
    match at
    case AtName => desired.name != i.name
    case AtKind => desired.kind != i.kind
    case AtMaster => desired.master != i.master
    case AtMtu => desired.mtu.Some? && desired.mtu.value != i.mtu
    case AtUp => desired.up != i.up
    case AtAddresses => desired.addresses != Elements(i.addresses)
    case AtMac => desired.mac.Some? && desired.mac != i.mac
    case AtStp => desired.stp != i.stp
    case AtPriority => desired.priority.Some? && desired.priority != i.priority
    case AtPathCost => desired.pathCost.Some? && desired.pathCost != i.pathCost
    case AtVlans => desired.vlans != Elements(i.vlans)
    case AtQdisc => desired.qdisc != ShowQdisc(i.qdisc)
    case AtParent => desired.detail.parent != i.detail.parent
    case AtVlanId => desired.detail.vlanId != i.detail.vlanId
    case AtVrfTable => desired.detail.vrfTable != i.detail.vrfTable
    case AtBondMode => desired.detail.bondMode != i.detail.bondMode
    case AtVxlanVni => Vni(desired.detail) != Vni(i.detail)
    case AtVxlanLink => Underlay(desired.detail) != Underlay(i.detail)
    case AtMacvlanMode => desired.detail.macvlanMode != i.detail.macvlanMode
    case _ => false
  }

  /** A difference of the live interface at a property at which it differs. */
  predicate InterfaceReported(node: NodePlan, desired: InterfaceView, i: Interface, d: Difference) {
    d == Difference(true, Some(node.name), Some(desired.name), d.at) && DiffersAt(desired, i, d.at)
  }

  /** One comparison: nothing if it holds, else a difference. */
  function Compare(node: NodePlan, desired: InterfaceView, at: Property, same: bool): (d: seq<Difference>)
    ensures forall x :: x in d <==> !same && x == Difference(true, Some(node.name), Some(desired.name), at)
  {
    if same then [] else [Difference(true, Some(node.name), Some(desired.name), at)]
  }

  const FIRST_PROPERTIES := {AtName, AtKind, AtMaster, AtMtu, AtUp, AtAddresses, AtMac}
  const BRIDGE_PROPERTIES := {AtStp, AtPriority, AtPathCost, AtVlans, AtQdisc}
  const LINK_PROPERTIES := {AtParent, AtVlanId, AtVxlanVni, AtVxlanLink}
  const MODE_PROPERTIES := {AtVrfTable, AtBondMode, AtMacvlanMode}

  method CompareFirst(node: NodePlan, desired: InterfaceView, actual: Interface) returns (differences: seq<Difference>)
    ensures forall d :: d in differences <==> InterfaceReported(node, desired, actual, d) && d.at in FIRST_PROPERTIES
  {
    differences := Compare(node, desired, AtName, desired.name == actual.name)
                   + Compare(node, desired, AtKind, desired.kind == actual.kind)
                   + Compare(node, desired, AtMaster, desired.master == actual.master)
                   + Compare(node, desired, AtMtu, desired.mtu.Some? ==> desired.mtu.value == actual.mtu)
                   + Compare(node, desired, AtUp, desired.up == actual.up)
                   + Compare(node, desired, AtAddresses, desired.addresses == Elements(actual.addresses))
                   + Compare(node, desired, AtMac, Leaves(desired.mac, actual.mac));
  }

  method CompareBridge(node: NodePlan, desired: InterfaceView, actual: Interface)
    returns (differences: seq<Difference>)
    ensures forall d :: d in differences <==> InterfaceReported(node, desired, actual, d) && d.at in BRIDGE_PROPERTIES
  {
    differences := Compare(node, desired, AtStp, desired.stp == actual.stp)
                   + Compare(node, desired, AtPriority, Leaves(desired.priority, actual.priority))
                   + Compare(node, desired, AtPathCost, Leaves(desired.pathCost, actual.pathCost))
                   + Compare(node, desired, AtVlans, desired.vlans == Elements(actual.vlans))
                   + Compare(node, desired, AtQdisc, desired.qdisc == ShowQdisc(actual.qdisc));
  }

  method CompareLinks(node: NodePlan, desired: InterfaceView, actual: Interface) returns (differences: seq<Difference>)
    ensures forall d :: d in differences <==> InterfaceReported(node, desired, actual, d) && d.at in LINK_PROPERTIES
  {
    var want, have := desired.detail, actual.detail;
    differences := Compare(node, desired, AtParent, want.parent == have.parent)
                   + Compare(node, desired, AtVlanId, want.vlanId == have.vlanId)
                   + Compare(node, desired, AtVxlanVni, Vni(want) == Vni(have))
                   + Compare(node, desired, AtVxlanLink, Underlay(want) == Underlay(have));
  }

  method CompareModes(node: NodePlan, desired: InterfaceView, actual: Interface) returns (differences: seq<Difference>)
    ensures forall d :: d in differences <==> InterfaceReported(node, desired, actual, d) && d.at in MODE_PROPERTIES
  {
    var want, have := desired.detail, actual.detail;
    differences := Compare(node, desired, AtVrfTable, want.vrfTable == have.vrfTable)
                   + Compare(node, desired, AtBondMode, want.bondMode == have.bondMode)
                   + Compare(node, desired, AtMacvlanMode, want.macvlanMode == have.macvlanMode);
  }

  ghost predicate SameNowhere(desired: InterfaceView, i: Interface) {
    forall at: Property :: !DiffersAt(desired, i, at)
  }

  lemma SameFirst(desired: InterfaceView, i: Interface)
    requires SameNowhere(desired, i)
    ensures desired.name == i.name && desired.kind == i.kind && desired.master == i.master
    ensures (desired.mtu.Some? ==> desired.mtu.value == i.mtu) && desired.up == i.up
    ensures desired.addresses == Elements(i.addresses) && Leaves(desired.mac, i.mac)
  {
    assert !DiffersAt(desired, i, AtName) && !DiffersAt(desired, i, AtKind) && !DiffersAt(desired, i, AtMaster);
    assert !DiffersAt(desired, i, AtMtu) && !DiffersAt(desired, i, AtUp) && !DiffersAt(desired, i, AtAddresses);
    assert !DiffersAt(desired, i, AtMac);
  }

  lemma SameBridge(desired: InterfaceView, i: Interface)
    requires SameNowhere(desired, i)
    ensures desired.stp == i.stp && Leaves(desired.priority, i.priority) && Leaves(desired.pathCost, i.pathCost)
    ensures desired.vlans == Elements(i.vlans) && desired.qdisc == ShowQdisc(i.qdisc)
  {
    assert !DiffersAt(desired, i, AtStp) && !DiffersAt(desired, i, AtPriority) && !DiffersAt(desired, i, AtPathCost);
    assert !DiffersAt(desired, i, AtVlans) && !DiffersAt(desired, i, AtQdisc);
  }

  lemma SameDetail(desired: InterfaceView, i: Interface)
    requires SameNowhere(desired, i)
    ensures desired.detail == i.detail
  {
    assert !DiffersAt(desired, i, AtParent) && !DiffersAt(desired, i, AtVlanId) && !DiffersAt(desired, i, AtVrfTable);
    assert !DiffersAt(desired, i, AtBondMode) && !DiffersAt(desired, i, AtMacvlanMode);
    assert !DiffersAt(desired, i, AtVxlanVni) && !DiffersAt(desired, i, AtVxlanLink);
  }

  /** What is not the same differs at some property. */
  lemma SameIffNowhere(desired: InterfaceView, i: Interface)
    ensures SameAs(desired, i) <==> SameNowhere(desired, i)
  {
    if SameNowhere(desired, i) {
      SameFirst(desired, i);
      SameBridge(desired, i);
      SameDetail(desired, i);
    }
  }

  lemma SameIffUnreported(node: NodePlan, desired: InterfaceView, i: Interface)
    ensures SameAs(desired, i) <==>
            forall d {:trigger InterfaceReported(node, desired, i, d)} :: !InterfaceReported(node, desired, i, d)
  {
    SameIffNowhere(desired, i);
    forall at: Property
      ensures DiffersAt(desired, i, at)
              <==> InterfaceReported(node, desired, i, Difference(true, Some(node.name), Some(desired.name), at))
    {
    }
  }

  /** The report on one interface: one difference for each property at which it differs, and no other. */
  method CompareInterface(node: NodePlan, desired: InterfaceView, actual: Interface)
    returns (differences: seq<Difference>)
    ensures forall d :: d in differences <==> InterfaceReported(node, desired, actual, d)
    ensures differences == [] <==> SameAs(desired, actual)
  {
    var first := CompareFirst(node, desired, actual);
    var bridge := CompareBridge(node, desired, actual);
    var links := CompareLinks(node, desired, actual);
    var modes := CompareModes(node, desired, actual);
    differences := first + bridge + links + modes;
    forall d
      ensures d in differences <==> InterfaceReported(node, desired, actual, d)
    {
      if DiffersAt(desired, actual, d.at) { InFourParts(desired, actual, d.at); }
    }
    SameIffUnreported(node, desired, actual);
    NothingMeans(differences);
  }

  lemma InFourParts(desired: InterfaceView, i: Interface, at: Property)
    requires DiffersAt(desired, i, at)
    ensures at in FIRST_PROPERTIES + BRIDGE_PROPERTIES + LINK_PROPERTIES + MODE_PROPERTIES
  {
  }

  lemma NothingMeans(differences: seq<Difference>)
    ensures differences == [] <==> forall d :: d !in differences
  {
    if differences != [] { assert differences[0] in differences; }
  }

  /** A TBF is as planned to the byte and the millisecond; any other qdisc is no matter. */
  predicate TbfAsPlanned(desired: Option<Qdisc>, observed: Option<Qdisc>) {
    desired.Some? && desired.value.Tbf? ==> observed == desired
  }

  /** Where the matcher is content, the inspector is too, unless a TBF was rounded. */
  lemma FitsIsSame(n: string, e: Expected, i: Interface)
    requires Fits(n, e, i)
    ensures SameAs(ToView(n, e), i) <==> TbfAsPlanned(e.qdisc, i.qdisc)
  {
  }
}
