/** What a snapshot records about interfaces: how it is built from a plan and an inventory, and how it is checked. */
module Ownership {
  import opened Json
  import opened Matcher
  import opened Network
  import opened Options
  import opened Texts
  import opened Topology

  /** The fields of a record; `Other` is any field that no record has. */
  datatype Slot =
    | NameSlot | KindSlot | NamespaceSlot | TemporarySlot | ParentSlot | VlanSlot | TableSlot | ModeSlot
    | BondModeSlot | MembersSlot
    | VniSlot | LinkSlot | IfindexSlot | LinkIdSlot | Other(id: int)

  type Fields = map<Slot, Value>

  /** A stored record; none if what is stored is no object. */
  type Records = map<string, Option<Fields>>

  /** An interface that the deployment owns. */
  datatype Item = BridgeItem(node: NodePlan) | DeviceItem(node: NodePlan, device: Device) | EndItem(end: End)

  ghost predicate IsItem(plan: NetworkPlan, item: Item) {
    match item
    case BridgeItem(node) => node in plan.nodes && node.bridge.Some?
    case DeviceItem(node, d) => node in plan.nodes && d in node.devices
    case EndItem(e) => e in Ends(plan.links)
  }

  function Owner(item: Item): (r: string) {
    match item
    case BridgeItem(node) => node.name
    case DeviceItem(node, _) => node.name
    case EndItem(e) => e.node
  }

  function InterfaceName(item: Item): (r: string) {
    match item
    case BridgeItem(node) => if node.bridge.Some? then node.bridge.value.name else ""
    case DeviceItem(_, d) => d.name
    case EndItem(e) => e.port.interface
  }

  function NamespaceName(item: Item): (r: string) {
    match item
    case BridgeItem(node) => node.namespace
    case DeviceItem(node, _) => node.namespace
    case EndItem(e) => e.port.namespace
  }

  /** The key of an interface: node, colon, interface. */
  function JoinKey(node: string, interface: string): (r: string) {
    node + [':'] + interface
  }

  function KeyOf(item: Item): (r: string) {
    JoinKey(Owner(item), InterfaceName(item))
  }

  /** Node names have no colon, so the first colon ends the node. */
  lemma KeyParts(node: string, interface: string, node': string, interface': string)
    requires Lacks(node, ':') && Lacks(node', ':') && JoinKey(node, interface) == JoinKey(node', interface')
    ensures node == node' && interface == interface'
  {
    SplitOnce(node, interface, node', interface', ':');
  }

  ghost predicate PlainNames(plan: NetworkPlan) {
    forall n | n in plan.nodes :: Lacks(n.name, ':')
  }

  lemma NodeByName(plan: NetworkPlan, n: NodePlan, m: NodePlan)
    requires DistinctNames(plan) && n in plan.nodes && m in plan.nodes && n.name == m.name
    ensures n == m
  {
    var i :| 0 <= i < |plan.nodes| && plan.nodes[i] == n;
    var j :| 0 <= j < |plan.nodes| && plan.nodes[j] == m;
  }

  /** The node of an item, which has its name, its namespace and, among its planned names, its interface. */
  lemma ItemNode(plan: NetworkPlan, item: Item) returns (node: NodePlan)
    requires WellFormed(plan) && IsItem(plan, item)
    ensures node in plan.nodes && node.name == Owner(item) && node.namespace == NamespaceName(item)
            && NodeFits(plan, node)
    ensures item.EndItem? ==> InterfaceName(item) in LinkedNames(plan, node.namespace)
  {
    match item {
      case BridgeItem(n) =>
        node := n;
      case DeviceItem(n, _) =>
        node := n;
      case EndItem(e) =>
        var k :| 0 <= k < 2 * |plan.links| && Ends(plan.links)[k] == e;
        assert OnNode(plan, Ends(plan.links)[k]);
        var i :| 0 <= i < |plan.nodes| && plan.nodes[i].namespace == e.port.namespace && plan.nodes[i].name == e.node;
        node := plan.nodes[i];
    }
    var i :| 0 <= i < |plan.nodes| && plan.nodes[i] == node;
    assert NodeFits(plan, plan.nodes[i]);
  }

  lemma EndByPort(plan: NetworkPlan, e: End, f: End)
    requires DistinctEnds(plan) && e in Ends(plan.links) && f in Ends(plan.links) && e.port == f.port
    ensures e == f
  {
    var i :| 0 <= i < 2 * |plan.links| && Ends(plan.links)[i] == e;
    var j :| 0 <= j < 2 * |plan.links| && Ends(plan.links)[j] == f;
    assert i < j ==> EndsDifferAt(plan, i, j);
    assert j < i ==> EndsDifferAt(plan, j, i);
  }

  lemma DeviceByName(plan: NetworkPlan, node: NodePlan, d: Device, e: Device)
    requires DevicesFit(plan, node) && d in node.devices && e in node.devices && d.name == e.name
    ensures d == e
  {
    var i :| 0 <= i < |node.devices| && node.devices[i] == d;
    var j :| 0 <= j < |node.devices| && node.devices[j] == e;
  }

  /** No two owned interfaces share a key. */
  lemma KeysDiffer(plan: NetworkPlan, item: Item, other: Item)
    requires WellFormed(plan) && PlainNames(plan) && IsItem(plan, item) && IsItem(plan, other)
             && KeyOf(item) == KeyOf(other)
    ensures item == other
  {
    var node := ItemNode(plan, item);
    var node' := ItemNode(plan, other);
    KeyParts(Owner(item), InterfaceName(item), Owner(other), InterfaceName(other));
    NodeByName(plan, node, node');
    if item.DeviceItem? { NodeByName(plan, node, item.node); assert item.device.name in DeviceNames(node); }
    if other.DeviceItem? { NodeByName(plan, node, other.node); assert other.device.name in DeviceNames(node); }
    if item.BridgeItem? { NodeByName(plan, node, item.node); }
    if other.BridgeItem? { NodeByName(plan, node, other.node); }
    if item.EndItem? && other.EndItem? {
      EndByPort(plan, item.end, other.end);
    } else if item.DeviceItem? && other.DeviceItem? {
      DeviceByName(plan, node, item.device, other.device);
    }
  }

  function KindText(kind: Kind): (r: string) {
    match kind
    case Loopback => "loopback"
    case Bridge => "bridge"
    case Veth => "veth"
    case Vxlan => "vxlan"
    case Dummy => "dummy"
    case Macvlan => "macvlan"
    case Bond => "bond"
    case Vrf => "vrf"
    case Vlan => "vlan"
  }

  function Names(names: seq<string>): (r: Value) {
    Array(true, seq(|names|, i requires 0 <= i < |names| => Str(names[i])))
  }

  function BasicFields(item: Item, kind: Kind): (r: Fields) {
    map[NameSlot := Str(InterfaceName(item)), KindSlot := Str(KindText(kind)),
      NamespaceSlot := Str(NamespaceName(item))]
  }

  function KindOf(item: Item): (r: Kind) {
    match item
    case BridgeItem(_) => Bridge
    case DeviceItem(_, d) => d.Kind()
    case EndItem(_) => Veth
  }

  /** The fields that validation expects: those that the plan alone fixes. */
  function Identity(item: Item): (f: Fields)
    ensures {NameSlot, KindSlot, NamespaceSlot} <= f.Keys && f[KindSlot] == Str(KindText(KindOf(item)))
    ensures IfindexSlot !in f && LinkIdSlot !in f
  {
    var basic := BasicFields(item, KindOf(item));
    match item
    case BridgeItem(_) => basic
    case EndItem(e) => basic[TemporarySlot := Str(e.temporary)]
    case DeviceItem(_, d) => DeviceIdentity(basic, d)
  }

  function DeviceIdentity(basic: Fields, d: Device): (f: Fields)
    ensures basic.Keys <= f.Keys && (KindSlot in basic ==> f[KindSlot] == basic[KindSlot])
    ensures IfindexSlot !in basic && LinkIdSlot !in basic ==> IfindexSlot !in f && LinkIdSlot !in f
  {
    match d
    case VlanDevice(_, link, id, _) => basic[ParentSlot := Str(link)][VlanSlot := Int(id)]
    case VrfDevice(_, table, _) => basic[TableSlot := Int(table)]
    case BondDevice(_, members, mode, _) => basic[BondModeSlot := Str(mode)][MembersSlot := Names(members)]
    case DummyDevice(_, _, _) => basic
    case MacvlanDevice(_, link, mode, _, _) => basic[ParentSlot := Str(link)][ModeSlot := Str(mode)]
    case VxlanDevice(_, link, vni, _, _, _) => basic[VniSlot := Int(vni)][LinkSlot := Str(link)]
  }

  /**
   What fills the volatile fields: nothing where only the desired record is meant, nulls before anything is
   built, or an inventory with its interface indexes.
   */
  datatype Source = Desired | Blank | FromLive(o: Observed, index: map<Port, int>)

  /** The text of a link identity; any injective, non-empty one would do. */
  function IdText(id: nat): (s: string)
    ensures |s| == id + 1
  {
    seq(id + 1, _ => 'i')
  }

  function IndexValue(source: Source, p: Port): (r: Value) {
    if source.FromLive? && p in source.index then Int(source.index[p]) else Null
  }

  function IdValue(source: Source, p: Port): (r: Value) {
    if source.FromLive? && IdAt(source.o, p).Some? then Str(IdText(IdAt(source.o, p).value)) else Null
  }

  function PortOf(item: Item): (r: Port) {
    Port(NamespaceName(item), InterfaceName(item))
  }

  /** What a deployment writes for an interface, written out a second time, with its index and perhaps its link. */
  function Description(item: Item, index: Value, id: Value): (f: Fields) {
    match item
    case BridgeItem(node) =>
      map[NameSlot := Str(InterfaceName(item)), KindSlot := Str("bridge"), NamespaceSlot := Str(node.namespace),
        IfindexSlot := index]
    case EndItem(e) =>
      map[NameSlot := Str(e.port.interface), KindSlot := Str("veth"), NamespaceSlot := Str(e.port.namespace),
        IfindexSlot := index, TemporarySlot := Str(e.temporary), LinkIdSlot := id]
    case DeviceItem(node, d) =>
      DeviceDescription(map[NameSlot := Str(d.name), NamespaceSlot := Str(node.namespace), IfindexSlot := index], d)
  }

  function DeviceDescription(own: Fields, d: Device): (f: Fields) {
    match d
    case VlanDevice(_, link, id, _) => own[KindSlot := Str("vlan")][ParentSlot := Str(link)][VlanSlot := Int(id)]
    case VrfDevice(_, table, _) => own[KindSlot := Str("vrf")][TableSlot := Int(table)]
    case BondDevice(_, members, mode, _) =>
      own[KindSlot := Str("bond")][BondModeSlot := Str(mode)][MembersSlot := Names(members)]
    case DummyDevice(_, _, _) => own[KindSlot := Str("dummy")]
    case MacvlanDevice(_, link, mode, _, _) =>
      own[KindSlot := Str("macvlan")][ParentSlot := Str(link)][ModeSlot := Str(mode)]
    case VxlanDevice(_, link, vni, _, _, _) =>
      own[KindSlot := Str("vxlan")][VniSlot := Int(vni)][LinkSlot := Str(link)]
  }

  function RecordOf(source: Source, item: Item): (r: Fields) {
    if source.Desired? then Identity(item)
    else Description(item, IndexValue(source, PortOf(item)), IdValue(source, PortOf(item)))
  }

  /** `f` has the fields of `identity` and, beside those, exactly these slots. */
  ghost predicate Extends(f: Fields, identity: Fields, slots: set<Slot>) {
    && f.Keys == identity.Keys + slots && identity.Keys !! slots
    && forall s | s in identity :: f[s] == identity[s]
  }

  /**
   Deployment and validation describe every interface alike. The one adds an index, and to link ends an identity,
   and nothing else.
   */
  lemma DescribedAlike(item: Item, index: Value, id: Value)
    ensures var f := Description(item, index, id);
            && Extends(f, Identity(item), {IfindexSlot} + if item.EndItem? then {LinkIdSlot} else {})
            && f[IfindexSlot] == index && (item.EndItem? ==> f[LinkIdSlot] == id)
  {
    if item.DeviceItem? {
      var node, d := item.node, item.device;
      DeviceDescribed(BasicFields(item, KindOf(item)),
        map[NameSlot := Str(d.name), NamespaceSlot := Str(node.namespace), IfindexSlot := index], d, index);
    }
  }

  lemma DeviceDescribed(basic: Fields, own: Fields, d: Device, index: Value)
    requires basic.Keys == {NameSlot, KindSlot, NamespaceSlot} && basic[KindSlot] == Str(KindText(d.Kind()))
    requires own.Keys == {NameSlot, NamespaceSlot, IfindexSlot} && own[IfindexSlot] == index
    requires own[NameSlot] == basic[NameSlot] && own[NamespaceSlot] == basic[NamespaceSlot]
    ensures Extends(DeviceDescription(own, d), DeviceIdentity(basic, d), {IfindexSlot})
    ensures DeviceDescription(own, d)[IfindexSlot] == index
  {
    if d.HasLink() { LinkedDescribed(basic, own, d); }
  }

  lemma LinkedDescribed(basic: Fields, own: Fields, d: Device)
    requires d.HasLink() && basic.Keys == {NameSlot, KindSlot, NamespaceSlot}
    requires basic[KindSlot] == Str(KindText(d.Kind())) && own.Keys == {NameSlot, NamespaceSlot, IfindexSlot}
    requires own[NameSlot] == basic[NameSlot] && own[NamespaceSlot] == basic[NamespaceSlot]
    ensures Extends(DeviceDescription(own, d), DeviceIdentity(basic, d), {IfindexSlot})
  {
  }

  /** `m` has exactly the planned interfaces, each with its record. */
  ghost predicate IsOwnership(plan: NetworkPlan, source: Source, m: map<string, Fields>) {
    && (forall item {:trigger IsItem(plan, item)} | IsItem(plan, item) ::
         KeyOf(item) in m && m[KeyOf(item)] == RecordOf(source, item))
    && (forall key {:trigger HasItem(plan, key)} | key in m :: HasItem(plan, key))
  }

  ghost predicate HasItem(plan: NetworkPlan, key: string) {
    exists item :: IsItem(plan, item) && KeyOf(item) == key
  }

  /** The records of some of the interfaces. */
  ghost predicate Recorded(plan: NetworkPlan, source: Source, items: set<Item>, m: map<string, Fields>) {
    && (forall item | item in items :: IsItem(plan, item))
    && (forall item | item in items :: KeyOf(item) in m && m[KeyOf(item)] == RecordOf(source, item))
    && (forall key {:trigger HasItem(plan, key)} | key in m :: HasItem(plan, key))
  }

  lemma RecordItem(plan: NetworkPlan, source: Source, items: set<Item>, m: map<string, Fields>, item: Item,
                   m': map<string, Fields>)
    requires WellFormed(plan) && PlainNames(plan) && Recorded(plan, source, items, m) && IsItem(plan, item)
    requires m' == m[KeyOf(item) := RecordOf(source, item)]
    ensures Recorded(plan, source, items + {item}, m')
  {
    forall other | other in items
      ensures KeyOf(other) == KeyOf(item) ==> other == item
    {
      if KeyOf(other) == KeyOf(item) { KeysDiffer(plan, other, item); }
    }
    forall key | key in m'
      ensures HasItem(plan, key)
    {
      if key in m { assert HasItem(plan, key); }
    }
  }

  /** Bridge and devices of one node. */
  method RecordNode(plan: NetworkPlan, source: Source, node: NodePlan, start: map<string, Fields>,
                    ghost before: set<Item>)
    returns (m: map<string, Fields>, ghost items: set<Item>)
    requires WellFormed(plan) && PlainNames(plan) && node in plan.nodes && Recorded(plan, source, before, start)
    ensures Recorded(plan, source, items, m) && before <= items
    ensures node.bridge.Some? ==> BridgeItem(node) in items
    ensures forall d | d in node.devices :: DeviceItem(node, d) in items
  {
    m, items := start, before;
    if node.bridge.Some? {
      var item := BridgeItem(node);
      RecordItem(plan, source, items, m, item, m[KeyOf(item) := RecordOf(source, item)]);
      m, items := m[KeyOf(item) := RecordOf(source, item)], items + {item};
    }
    for j := 0 to |node.devices|
      invariant Recorded(plan, source, items, m) && before <= items
      invariant node.bridge.Some? ==> BridgeItem(node) in items
      invariant forall i | 0 <= i < j :: DeviceItem(node, node.devices[i]) in items
    {
      var item := DeviceItem(node, node.devices[j]);
      RecordItem(plan, source, items, m, item, m[KeyOf(item) := RecordOf(source, item)]);
      m, items := m[KeyOf(item) := RecordOf(source, item)], items + {item};
    }
  }

  /** The link ends of one node, or of all if `node` is none. */
  method RecordEnds(plan: NetworkPlan, source: Source, node: Option<string>, start: map<string, Fields>,
                    ghost before: set<Item>)
    returns (m: map<string, Fields>, ghost items: set<Item>)
    requires WellFormed(plan) && PlainNames(plan) && Recorded(plan, source, before, start)
    ensures Recorded(plan, source, items, m) && before <= items
    ensures forall e | e in Ends(plan.links) && (node == None || node == Some(e.node)) :: EndItem(e) in items
  {
    m, items := start, before;
    var ends := Ends(plan.links);
    for k := 0 to |ends|
      invariant Recorded(plan, source, items, m) && before <= items
      invariant forall i | 0 <= i < k && (node == None || node == Some(ends[i].node)) :: EndItem(ends[i]) in items
    {
      if node == None || node == Some(ends[k].node) {
        var item := EndItem(ends[k]);
        RecordItem(plan, source, items, m, item, m[KeyOf(item) := RecordOf(source, item)]);
        m, items := m[KeyOf(item) := RecordOf(source, item)], items + {item};
      }
    }
  }

  lemma AllRecorded(plan: NetworkPlan, source: Source, items: set<Item>, m: map<string, Fields>)
    requires Recorded(plan, source, items, m)
    requires forall n | n in plan.nodes && n.bridge.Some? :: BridgeItem(n) in items
    requires forall n, d | n in plan.nodes && d in n.devices :: DeviceItem(n, d) in items
    requires forall e | e in Ends(plan.links) :: EndItem(e) in items
    ensures IsOwnership(plan, source, m)
  {
    forall item | IsItem(plan, item)
      ensures item in items
    {
    }
  }

  /** What the validation expects: nodes with their bridges and devices, then the link ends. */
  method ExpectedOwnership(plan: NetworkPlan) returns (m: map<string, Fields>)
    requires WellFormed(plan) && PlainNames(plan)
    ensures IsOwnership(plan, Desired, m)
  {
    m := map[];
    ghost var items: set<Item> := {};
    for i := 0 to |plan.nodes|
      invariant Recorded(plan, Desired, items, m)
      invariant forall j | 0 <= j < i && plan.nodes[j].bridge.Some? :: BridgeItem(plan.nodes[j]) in items
      invariant forall j, d | 0 <= j < i && d in plan.nodes[j].devices :: DeviceItem(plan.nodes[j], d) in items
    {
      m, items := RecordNode(plan, Desired, plan.nodes[i], m, items);
    }
    m, items := RecordEnds(plan, Desired, None, m, items);
    AllRecorded(plan, Desired, items, m);
  }

  /** All of a node's own interfaces have been recorded. */
  ghost predicate NodeOwned(plan: NetworkPlan, items: set<Item>, node: NodePlan) {
    && (node.bridge.Some? ==> BridgeItem(node) in items)
    && (forall d | d in node.devices :: DeviceItem(node, d) in items)
    && forall e | e in Ends(plan.links) && e.node == node.name :: EndItem(e) in items
  }

  lemma StayOwned(plan: NetworkPlan, before: set<Item>, items: set<Item>, i: nat)
    requires i <= |plan.nodes| && before <= items
    requires forall j {:trigger NodeOwned(plan, before, plan.nodes[j])} | 0 <= j < i ::
               NodeOwned(plan, before, plan.nodes[j])
    ensures forall j {:trigger NodeOwned(plan, items, plan.nodes[j])} | 0 <= j < i ::
              NodeOwned(plan, items, plan.nodes[j])
  {
    forall j | 0 <= j < i
      ensures NodeOwned(plan, items, plan.nodes[j])
    {
      assert NodeOwned(plan, before, plan.nodes[j]);
    }
  }

  lemma AllOwned(plan: NetworkPlan, items: set<Item>)
    requires WellFormed(plan)
    requires forall j {:trigger NodeOwned(plan, items, plan.nodes[j])} | 0 <= j < |plan.nodes| ::
               NodeOwned(plan, items, plan.nodes[j])
    ensures forall item | IsItem(plan, item) :: item in items
  {
    EveryEndOwned(plan);
    forall item | IsItem(plan, item)
      ensures item in items
    {
      OwnedItem(plan, items, item);
    }
  }

  lemma OwnedItem(plan: NetworkPlan, items: set<Item>, item: Item)
    requires IsItem(plan, item)
    requires forall e | e in Ends(plan.links) :: exists j :: 0 <= j < |plan.nodes| && plan.nodes[j].name == e.node
    requires forall j {:trigger NodeOwned(plan, items, plan.nodes[j])} | 0 <= j < |plan.nodes| ::
               NodeOwned(plan, items, plan.nodes[j])
    ensures item in items
  {
    var j :| 0 <= j < |plan.nodes| && if item.EndItem? then plan.nodes[j].name == item.end.node
      else plan.nodes[j] == item.node;
    assert NodeOwned(plan, items, plan.nodes[j]);
  }

  /** Everything of one node. */
  method RecordOwn(plan: NetworkPlan, source: Source, node: NodePlan, start: map<string, Fields>,
                   ghost before: set<Item>)
    returns (m: map<string, Fields>, ghost items: set<Item>)
    requires WellFormed(plan) && PlainNames(plan) && node in plan.nodes && Recorded(plan, source, before, start)
    ensures Recorded(plan, source, items, m) && before <= items && NodeOwned(plan, items, node)
  {
    m, items := RecordNode(plan, source, node, start, before);
    m, items := RecordEnds(plan, source, Some(node.name), m, items);
  }

  /** What the lifecycle records: each node with its bridge, its devices and its own link ends. */
  method InterfaceOwnership(plan: NetworkPlan, source: Source) returns (m: map<string, Fields>)
    requires WellFormed(plan) && PlainNames(plan)
    ensures IsOwnership(plan, source, m)
  {
    m := map[];
    ghost var items: set<Item> := {};
    for i := 0 to |plan.nodes|
      invariant Recorded(plan, source, items, m)
      invariant forall j {:trigger NodeOwned(plan, items, plan.nodes[j])} | 0 <= j < i ::
                  NodeOwned(plan, items, plan.nodes[j])
    {
      ghost var before := items;
      m, items := RecordOwn(plan, source, plan.nodes[i], m, items);
      StayOwned(plan, before, items, i);
    }
    AllOwned(plan, items);
    AllRecorded(plan, source, items, m);
  }

  lemma EveryEndOwned(plan: NetworkPlan)
    requires WellFormed(plan)
    ensures forall e | e in Ends(plan.links) :: exists j :: 0 <= j < |plan.nodes| && plan.nodes[j].name == e.node
  {
    forall e | e in Ends(plan.links)
      ensures exists j :: 0 <= j < |plan.nodes| && plan.nodes[j].name == e.node
    {
      var k :| 0 <= k < 2 * |plan.links| && Ends(plan.links)[k] == e;
      assert OnNode(plan, Ends(plan.links)[k]);
    }
  }
}
