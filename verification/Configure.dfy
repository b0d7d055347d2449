/** How the in-memory backend configures the interfaces of one node, step by step on a copy of their table. */
module Configure {
  import opened Matcher
  import opened Network
  import opened Options
  import opened Topology

  /** The errors of a backend call; `NoMtu` is the planner's value error. */
  datatype Outcome = Done | Injected | Exists | Missing | NotABridge | NoMtu

  function PlainInterface(name: string, kind: Kind, master: Option<string>, mtu: int, up: bool,
                          addresses: seq<string>): (r: Interface) {
    Interface(name, kind, master, mtu, up, addresses, None, None, None, None, [], None, None, NO_DETAIL)
  }

  function NewLoopback(): (r: Interface) {
    PlainInterface("lo", Loopback, None, 65536, true, [LOOPBACK_ADDRESS])
  }

  function NewBridge(b: BridgeConfig): (r: Interface) {
    PlainInterface(b.name, Bridge, None, 1500, false, []).(stp := Some(b.stp), priority := b.priority)
  }

  function NewVeth(name: string, l: LinkPlan, id: nat): (r: Interface) {
    PlainInterface(name, Veth, None, l.mtu, false, []).(qdisc := l.qdisc, linkId := Some(id))
  }

  /** A device as it is created; a VLAN takes the MTU of its parent, which the table knows. */
  function NewDevice(plan: NetworkPlan, node: NodePlan, d: Device,
                     interfaces: map<string, Interface>): (r: Option<Interface>)
    requires d.HasLink() ==> d.link in interfaces
  {
    match d
    case VlanDevice(name, link, _, addresses) =>
      Some(PlainInterface(name, Vlan, Master(node, name), interfaces[link].mtu, true, addresses).(detail := d.Detail()))
    case VrfDevice(name, _, _) => Some(PlainInterface(name, Vrf, None, 65536, true, []).(detail := d.Detail()))
    case _ =>
      var mtu := DeviceMtu(plan, node, d);
      if mtu.None? then None
      else
        var plain :=
          PlainInterface(d.name, d.Kind(), Master(node, d.name), mtu.value, true, d.addresses).(detail := d.Detail());
        Some(if d.VxlanDevice? then plain.(pathCost := PathCost(node, d.name), vlans := PortVlans(node, d.name))
          else plain)
  }

  function ConfiguredBridge(node: NodePlan, i: Interface): (r: Interface)
    requires node.bridge.Some?
  {
    var b := node.bridge.value;
    i.(master := None, up := true, addresses := AddressesOf(node, b.name), stp := Some(b.stp), priority := b.priority)
  }

  function ConfiguredEnd(node: NodePlan, l: LinkPlan, name: string, i: Interface): (r: Interface) {
    i.(master := Master(node, name), mtu := l.mtu, up := true, addresses := AddressesOf(node, name),
       pathCost := PathCost(node, name), vlans := PortVlans(node, name), qdisc := l.qdisc)
  }

  /** Names of the first `j` devices that are of one of `kinds`. */
  function KindNames(node: NodePlan, kinds: set<Kind>, j: nat): (r: set<string>)
    requires j <= |node.devices|
  {
    if j == 0 then {}
    else KindNames(node, kinds, j - 1) + if node.devices[j - 1].Kind() in kinds then {node.devices[j - 1].name} else {}
  }

  /** `d` was created into the table, from some earlier state of it. */
  ghost predicate IsDevice(plan: NetworkPlan, node: NodePlan, d: Device, i: Interface) {
    exists earlier: map<string, Interface> ::
        (d.HasLink() ==> d.link in earlier) && NewDevice(plan, node, d, earlier) == Some(i)
  }

  /** A VLAN has the MTU that its parent had. */
  predicate FollowsParent(d: Device, m: map<string, Interface>, i: Interface) {
    d.VlanDevice? && d.link in m ==> i.mtu == m[d.link].mtu
  }

  /** The first `j` devices of these kinds are in `r`, and nothing that `m` had is changed. */
  ghost predicate DevicesAdded(plan: NetworkPlan, node: NodePlan, kinds: set<Kind>, j: nat, m: map<string, Interface>,
                               r: map<string, Interface>) {
    && j <= |node.devices| && r.Keys == m.Keys + KindNames(node, kinds, j)
    && (forall n | n in m :: r[n] == m[n])
    && forall i | 0 <= i < j && node.devices[i].Kind() in kinds ::
         && node.devices[i].name in r && IsDevice(plan, node, node.devices[i], r[node.devices[i].name])
         && FollowsParent(node.devices[i], m, r[node.devices[i].name])
  }

  /** Nothing stands in the way of creating the devices of these kinds. */
  ghost predicate Creatable(plan: NetworkPlan, node: NodePlan, kinds: set<Kind>, m: map<string, Interface>) {
    && (forall i, j | 0 <= i < j < |node.devices| :: node.devices[i].name != node.devices[j].name)
    && forall i | 0 <= i < |node.devices| && node.devices[i].Kind() in kinds ::
         var d := node.devices[i];
         && d.name !in m && (d.HasLink() ==> d.link in m)
         && (!d.VrfDevice? && !d.VlanDevice? ==> DeviceMtu(plan, node, d).Some?)
  }

  lemma {:induction false} KindNamesHave(node: NodePlan, kinds: set<Kind>, j: nat, n: string)
    requires j <= |node.devices|
    ensures n in KindNames(node, kinds, j)
            <==> exists i | 0 <= i < j :: node.devices[i].Kind() in kinds && node.devices[i].name == n
  {
    if j > 0 {
      KindNamesHave(node, kinds, j - 1, n);
    }
  }

  lemma DeviceAdded(plan: NetworkPlan, node: NodePlan, kinds: set<Kind>, j: nat, m: map<string, Interface>,
                    r: map<string, Interface>, i: Interface)
    requires j < |node.devices| && DevicesAdded(plan, node, kinds, j, m, r) && node.devices[j].Kind() in kinds
    requires node.devices[j].name !in r && IsDevice(plan, node, node.devices[j], i)
    requires FollowsParent(node.devices[j], r, i)
    ensures DevicesAdded(plan, node, kinds, j + 1, m, r[node.devices[j].name := i])
  {
  }

  /** One device of the kind, after the first `j` devices have been looked at. */
  method AddDevice(plan: NetworkPlan, node: NodePlan, kind: Kind, j: nat, ghost m: map<string, Interface>,
                   before: map<string, Interface>)
    returns (outcome: Outcome, r: map<string, Interface>)
    requires j < |node.devices| && node.devices[j].Kind() == kind && DevicesAdded(plan, node, {kind}, j, m, before)
    ensures outcome.Done? ==> DevicesAdded(plan, node, {kind}, j + 1, m, r)
    ensures Creatable(plan, node, {kind}, m) ==> outcome.Done?
  {
    var d := node.devices[j];
    r := before;
    if d.HasLink() && d.link !in r {
      return Missing, r;
    }
    KindNamesHave(node, {kind}, j, d.name);
    if d.name in r {
      return Exists, r;
    }
    var i := NewDevice(plan, node, d, r);
    if i.None? {
      return NoMtu, r;
    }
    assert IsDevice(plan, node, d, i.value);
    DeviceAdded(plan, node, {kind}, j, m, r, i.value);
    outcome, r := Done, r[d.name := i.value];
  }

  /** The creation loop of one device kind. */
  method AddKind(plan: NetworkPlan, node: NodePlan, kind: Kind, m: map<string, Interface>)
    returns (outcome: Outcome, r: map<string, Interface>)
    ensures outcome.Done? ==> DevicesAdded(plan, node, {kind}, |node.devices|, m, r)
    ensures Creatable(plan, node, {kind}, m) ==> outcome.Done?
  {
    outcome, r := Done, m;
    for j := 0 to |node.devices|
      invariant outcome.Done? && DevicesAdded(plan, node, {kind}, j, m, r)
    {
      if node.devices[j].Kind() == kind {
        outcome, r := AddDevice(plan, node, kind, j, m, r);
        if !outcome.Done? {
          return;
        }
      }
    }
  }

  lemma {:induction false} KindNamesUnion(node: NodePlan, kinds: set<Kind>, kind: Kind, j: nat)
    requires j <= |node.devices|
    ensures KindNames(node, kinds + {kind}, j) == KindNames(node, kinds, j) + KindNames(node, {kind}, j)
  {
    if j > 0 {
      KindNamesUnion(node, kinds, kind, j - 1);
    }
  }

  lemma OneMoreKind(plan: NetworkPlan, node: NodePlan, kinds: set<Kind>, kind: Kind, m: map<string, Interface>,
                    r: map<string, Interface>,
                    r': map<string, Interface>)
    requires DevicesAdded(plan, node, kinds, |node.devices|, m, r)
             && DevicesAdded(plan, node, {kind}, |node.devices|, r, r')
    ensures DevicesAdded(plan, node, kinds + {kind}, |node.devices|, m, r')
  {
    KindNamesUnion(node, kinds, kind, |node.devices|);
  }

  lemma NextKindCreatable(plan: NetworkPlan, node: NodePlan, all: set<Kind>, kinds: set<Kind>, kind: Kind,
                          m: map<string, Interface>,
                          r: map<string, Interface>)
    requires Creatable(plan, node, all, m) && kind in all && kind !in kinds
    requires DevicesAdded(plan, node, kinds, |node.devices|, m, r)
    ensures Creatable(plan, node, {kind}, r)
  {
    forall i | 0 <= i < |node.devices| && node.devices[i].Kind() == kind
      ensures node.devices[i].name !in r
    {
      KindNamesHave(node, kinds, |node.devices|, node.devices[i].name);
    }
  }

  /** The order in which the backend creates devices. VLANs come last: they need their parents. */
  const CREATION_ORDER := [Vxlan, Dummy, Macvlan, Bond, Vrf, Vlan]

  const DEVICE_KINDS := {Vxlan, Dummy, Macvlan, Bond, Vrf, Vlan}

  /** The order runs over every kind once. */
  lemma OrderIsComplete(k: nat)
    requires k <= |CREATION_ORDER|
    ensures Elements(CREATION_ORDER[..k]) <= DEVICE_KINDS
            && (k == |CREATION_ORDER| ==> Elements(CREATION_ORDER[..k]) == DEVICE_KINDS)
    ensures k < |CREATION_ORDER| ==>
              && CREATION_ORDER[k] in DEVICE_KINDS && CREATION_ORDER[k] !in Elements(CREATION_ORDER[..k])
              && Elements(CREATION_ORDER[..k + 1]) == Elements(CREATION_ORDER[..k]) + {CREATION_ORDER[k]}
  {
    var s := CREATION_ORDER;
    assert s[0] == Vxlan && s[1] == Dummy && s[2] == Macvlan && s[3] == Bond && s[4] == Vrf && s[5] == Vlan;
    if k < |s| {
      assert s[..k + 1] == s[..k] + [s[k]];
    } else {
      assert s[..k] == s;
    }
  }

  method AddDevices(plan: NetworkPlan, node: NodePlan, m: map<string, Interface>)
    returns (outcome: Outcome, r: map<string, Interface>)
    ensures outcome.Done? ==> DevicesAdded(plan, node, DEVICE_KINDS, |node.devices|, m, r)
    ensures Creatable(plan, node, DEVICE_KINDS, m) ==> outcome.Done?
  {
    r := m;
    ghost var kinds: set<Kind> := {};
    KindNamesNone(node, |node.devices|);
    for k := 0 to |CREATION_ORDER|
      invariant kinds == Elements(CREATION_ORDER[..k])
      invariant DevicesAdded(plan, node, kinds, |node.devices|, m, r)
    {
      var kind := CREATION_ORDER[k];
      OrderIsComplete(k);
      if Creatable(plan, node, DEVICE_KINDS, m) { NextKindCreatable(plan, node, DEVICE_KINDS, kinds, kind, m, r); }
      ghost var before := r;
      outcome, r := AddKind(plan, node, kind, r);
      if !outcome.Done? {
        return;
      }
      OneMoreKind(plan, node, kinds, kind, m, before, r);
      kinds := kinds + {kind};
    }
    OrderIsComplete(|CREATION_ORDER|);
    outcome := Done;
  }

  lemma {:induction false} KindNamesNone(node: NodePlan, j: nat)
    requires j <= |node.devices|
    ensures KindNames(node, {}, j) == {}
  {
    if j > 0 { KindNamesNone(node, j - 1); }
  }

  lemma AllKindNames(node: NodePlan)
    ensures KindNames(node, DEVICE_KINDS, |node.devices|) == DeviceNames(node)
  {
    forall n: string
      ensures n in KindNames(node, DEVICE_KINDS, |node.devices|) <==> n in DeviceNames(node)
    {
      KindNamesHave(node, DEVICE_KINDS, |node.devices|, n);
      if n in DeviceNames(node) {
        var i :| 0 <= i < |node.devices| && node.devices[i].name == n;
        assert node.devices[i].Kind() in DEVICE_KINDS;
      }
    }
  }

  // VRF members, link ends and MAC addresses.

  /** Only the master of `i` may have changed, to a VRF of the node that lists the interface. */
  ghost predicate MasteredOnly(node: NodePlan, name: string, old': Interface, i: Interface) {
    i == old' || exists d ::
        d in node.devices && d.VrfDevice? && name in d.members && i == old'.(master := Some(d.name))
  }

  method EnslaveMembers(node: NodePlan, m: map<string, Interface>) returns (outcome: Outcome, r: map<string, Interface>)
    ensures outcome.Done? ==> r.Keys == m.Keys && forall n | n in m :: MasteredOnly(node, n, m[n], r[n])
    ensures (forall d, n | d in node.devices && d.VrfDevice? && n in d.members :: n in m) ==> outcome.Done?
  {
    r := m;
    for j := 0 to |node.devices|
      invariant r.Keys == m.Keys && forall n | n in m :: MasteredOnly(node, n, m[n], r[n])
    {
      var d := node.devices[j];
      if d.VrfDevice? {
        for k := 0 to |d.members|
          invariant r.Keys == m.Keys && forall n | n in m :: MasteredOnly(node, n, m[n], r[n])
        {
          var member := d.members[k];
          assert d in node.devices && member in d.members;
          if member !in r {
            return Missing, r;
          }
          r := r[member := r[member].(master := Some(d.name))];
        }
      }
    }
    outcome := Done;
  }

  /** The first `k` link ends of the node are configured, everything else is as in `m`. */
  ghost predicate EndsConfigured(plan: NetworkPlan, node: NodePlan, k: nat, m: map<string, Interface>,
                                 r: map<string, Interface>) {
    && r.Keys == m.Keys
    && (forall i {:trigger EndHere(plan, node, i)} | EndHere(plan, node, i) && i < k ::
          var name := Ends(plan.links)[i].port.interface;
          name in m && r[name] == ConfiguredEnd(node, plan.links[i / 2], name, m[name]))
    && (forall n | n in m :: r[n] == m[n] || EndBefore(plan, node, k, n))
  }

  /** One of the first `k` link ends is this interface. */
  ghost predicate EndBefore(plan: NetworkPlan, node: NodePlan, k: nat, n: string) {
    exists i :: EndHere(plan, node, i) && i < k && Ends(plan.links)[i].port.interface == n
  }

  lemma EndConfigured(plan: NetworkPlan, node: NodePlan, k: nat, name: string, m: map<string, Interface>,
                      r: map<string, Interface>, i: Interface)
    requires DistinctEnds(plan) && EndsConfigured(plan, node, k, m, r) && EndHere(plan, node, k)
    requires name == Ends(plan.links)[k].port.interface && name in m
             && i == ConfiguredEnd(node, plan.links[k / 2], name, r[name])
    ensures EndsConfigured(plan, node, k + 1, m, r[name := i])
  {
    var next := k + 1;
    forall j | EndHere(plan, node, j) && j < k
      ensures Ends(plan.links)[j].port.interface != name
    {
      assert EndsDifferAt(plan, j, k);
    }
    assert r[name] == m[name] by {
      if EndBefore(plan, node, k, name) {
        assert false;
      }
    }
    forall n | n in m
      ensures r[name := i][n] == m[n] || EndBefore(plan, node, next, n)
    {
      EndsBeforeNext(plan, node, k, next, n);
    }
  }

  lemma EndsBeforeNext(plan: NetworkPlan, node: NodePlan, k: nat, next: nat, n: string)
    requires next == k + 1
    ensures EndBefore(plan, node, k, n) ==> EndBefore(plan, node, next, n)
    ensures EndHere(plan, node, k) && Ends(plan.links)[k].port.interface == n ==> EndBefore(plan, node, next, n)
  {
  }

  method ConfigureEnds(plan: NetworkPlan, node: NodePlan, m: map<string, Interface>)
    returns (outcome: Outcome, r: map<string, Interface>)
    requires DistinctEnds(plan)
    ensures outcome.Done? ==> EndsConfigured(plan, node, 2 * |plan.links|, m, r)
    ensures LinkedNames(plan, node.namespace) <= m.Keys ==> outcome.Done?
  {
    r := m;
    for k := 0 to 2 * |plan.links|
      invariant EndsConfigured(plan, node, k, m, r)
    {
      if EndHere(plan, node, k) {
        var name := Ends(plan.links)[k].port.interface;
        EndIsLinked(plan, node, k);
        if name !in r {
          return Missing, r;
        }
        var i := ConfiguredEnd(node, plan.links[k / 2], name, r[name]);
        EndConfigured(plan, node, k, name, m, r, i);
        r := r[name := i];
      }
    }
    outcome := Done;
  }

  method SetMacs(node: NodePlan, m: map<string, Interface>) returns (outcome: Outcome, r: map<string, Interface>)
    ensures outcome.Done? ==> r.Keys == m.Keys
    ensures outcome.Done? ==>
              forall n | n in m :: r[n] == if n in node.macs then m[n].(mac := Some(node.macs[n])) else m[n]
    ensures node.macs.Keys <= m.Keys ==> outcome.Done?
  {
    r := m;
    var todo := node.macs.Keys;
    while todo != {}
      invariant r.Keys == m.Keys && todo <= node.macs.Keys
      invariant forall n | n in m ::
                  r[n] == if n in node.macs && n !in todo then m[n].(mac := Some(node.macs[n])) else m[n]
      decreases |todo|
    {
      var name :| name in todo;
      if name !in r {
        return Missing, r;
      }
      r := r[name := r[name].(mac := Some(node.macs[name]))];
      todo := todo - {name};
    }
    outcome := Done;
  }
}
