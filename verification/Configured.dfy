/** Configuring a freshly built node produces exactly what the matcher expects of it. */
module Configured {
  import opened Configure
  import opened Matcher
  import opened Network
  import opened Options
  import opened Topology

  /** A veth as it is before its node is configured. */
  ghost predicate RawEnd(i: Interface, name: string) {
    i.name == name && i.kind == Veth && i.mac == None && i.stp == None && i.priority == None && i.detail == NO_DETAIL
  }

  /** The interfaces of a node that is built but not configured: loopback, its bridge and its link ends. */
  ghost predicate Raw(plan: NetworkPlan, node: NodePlan, m: map<string, Interface>) {
    && m.Keys == {"lo"} + BridgeNames(node) + LinkedNames(plan, node.namespace)
    && m["lo"] == NewLoopback()
    && (node.bridge.Some? ==> m[node.bridge.value.name] == NewBridge(node.bridge.value))
    && (forall n | n in LinkedNames(plan, node.namespace) :: RawEnd(m[n], n))
  }

  /** Kinds and link identities survive, and what is new is no veth. */
  ghost predicate KeepsIds(m: map<string, Interface>, r: map<string, Interface>) {
    && m.Keys <= r.Keys
    && (forall n | n in m :: r[n].kind == m[n].kind && r[n].linkId == m[n].linkId)
    && (forall n | n in r && n !in m :: r[n].kind != Veth && r[n].linkId == None)
  }

  lemma {:induction false} FirstMasterIs(devices: seq<Device>, kind: Kind, interface: string, d: Device)
    requires d in devices && d.Kind() == kind && Enslaves(d, interface)
    requires forall e | e in devices && e.Kind() == kind && Enslaves(e, interface) :: e.name == d.name
    ensures FirstMaster(devices, kind, interface) == Some(d.name)
  {
    if devices[0] != d {
      if !(devices[0].Kind() == kind && Enslaves(devices[0], interface)) {
        FirstMasterIs(devices[1..], kind, interface, d);
      }
    }
  }

  lemma {:induction false} NoFirstMaster(devices: seq<Device>, kind: Kind, interface: string)
    requires forall e | e in devices && e.Kind() == kind :: !Enslaves(e, interface)
    ensures FirstMaster(devices, kind, interface) == None
  {
    if devices != [] {
      NoFirstMaster(devices[1..], kind, interface);
    }
  }

  lemma OneMaster(plan: NetworkPlan, node: NodePlan, d: Device, e: Device, interface: string)
    requires MembersFit(plan, node) && d in node.devices && e in node.devices && Enslaves(d, interface)
             && Enslaves(e, interface)
    ensures d == e
  {
    var i :| 0 <= i < |node.devices| && node.devices[i] == d;
    var j :| 0 <= j < |node.devices| && node.devices[j] == e;
  }

  /** The VRF that lists an interface is its master. */
  lemma VrfIsMaster(plan: NetworkPlan, node: NodePlan, d: Device, interface: string)
    requires MembersFit(plan, node) && d in node.devices && d.VrfDevice? && interface in d.members
    ensures Master(node, interface) == Some(d.name)
  {
    assert Enslaves(d, interface);
    forall e | e in node.devices && Enslaves(e, interface)
      ensures e == d
    {
      OneMaster(plan, node, d, e, interface);
    }
    NoFirstMaster(node.devices, Bond, interface);
    FirstMasterIs(node.devices, Vrf, interface, d);
  }

  /** A VRF lists link ends and devices of the kinds that may be enslaved, nothing else. */
  lemma VrfMember(plan: NetworkPlan, node: NodePlan, d: Device, n: string)
    requires NodeFits(plan, node) && d in node.devices && d.VrfDevice? && n in d.members
    ensures n in LinkedNames(plan, node.namespace) + DeviceNames(node)
    ensures n !in {"lo"} + BridgeNames(node)
    ensures forall e | e in node.devices && e.name == n :: !e.BondDevice? && !e.VrfDevice?
  {
    assert Enslaves(d, n);
    if n !in LinkedNames(plan, node.namespace) {
      var e :| e in node.devices && e.name == n && !e.BondDevice? && !e.VrfDevice?;
      forall f | f in node.devices && f.name == n
        ensures f == e
      {
        SameDevice(plan, node, e, f);
      }
    } else {
      assert n !in DeviceNames(node);
      forall e | e in node.devices
        ensures e.name != n
      {
        assert e.name in DeviceNames(node);
      }
    }
  }

  lemma SameDevice(plan: NetworkPlan, node: NodePlan, d: Device, e: Device)
    requires DevicesFit(plan, node) && d in node.devices && e in node.devices && d.name == e.name
    ensures d == e
  {
    var i :| 0 <= i < |node.devices| && node.devices[i] == d;
    var j :| 0 <= j < |node.devices| && node.devices[j] == e;
  }

  /** A created device fits, also after its VRF has claimed it. */
  lemma DeviceFits(plan: NetworkPlan, node: NodePlan, d: Device, created: Interface, i: Interface)
    requires NodeFits(plan, node) && d in node.devices && IsDevice(plan, node, d, created)
             && MasteredOnly(node, d.name, created, i)
    ensures ExpectedDevice(plan, node, d).Some? && Fits(d.name, ExpectedDevice(plan, node, d).value, i)
  {
    if i != created {
      var v :| v in node.devices && v.VrfDevice? && d.name in v.members && i == created.(master := Some(v.name));
      VrfMember(plan, node, v, d.name);
      VrfIsMaster(plan, node, v, d.name);
    }
  }

  lemma EndFits(plan: NetworkPlan, node: NodePlan, l: LinkPlan, name: string, raw: Interface, i: Interface)
    requires RawEnd(raw, name) && MasteredOnly(node, name, raw, i)
    ensures Fits(name, ExpectedEnd(node, l, name), ConfiguredEnd(node, l, name, i))
  {
  }

  /** Setting the declared MAC address, and no other, keeps an interface fitting. */
  lemma MacFits(node: NodePlan, name: string, e: Expected, i: Interface)
    requires Fits(name, e, i) && e.mac == None
    ensures Fits(name, WithMac(node, name, e), if name in node.macs then i.(mac := Some(node.macs[name])) else i)
  {
  }

  /** Loopback and bridge, brought up first. */
  method BringUp(node: NodePlan, m: map<string, Interface>) returns (outcome: Outcome, r: map<string, Interface>)
    ensures outcome.Done? <==> "lo" in m && BridgeNames(node) <= m.Keys
    ensures outcome.Done? ==> r == BroughtUp(node, m)
  {
    r := m;
    if "lo" !in r {
      return Missing, r;
    }
    r := r["lo" := r["lo"].(up := true)];
    if node.bridge.Some? {
      if node.bridge.value.name !in r {
        return Missing, r;
      }
      r := r[node.bridge.value.name := ConfiguredBridge(node, r[node.bridge.value.name])];
    }
    outcome := Done;
  }

  function BroughtUp(node: NodePlan, m: map<string, Interface>): (r: map<string, Interface>)
    requires "lo" in m && BridgeNames(node) <= m.Keys
  {
    var r := m["lo" := m["lo"].(up := true)];
    if node.bridge.Some? then r[node.bridge.value.name := ConfiguredBridge(node, r[node.bridge.value.name])] else r
  }

  /** The whole sequence: one table after each step. */
  ghost predicate Configuring(plan: NetworkPlan, node: NodePlan, m: map<string, Interface>,
                              devices: map<string, Interface>,
                              vrfs: map<string, Interface>, ends: map<string, Interface>, r: map<string, Interface>) {
    && "lo" in m && BridgeNames(node) <= m.Keys
    && DevicesAdded(plan, node, DEVICE_KINDS, |node.devices|, BroughtUp(node, m), devices)
    && vrfs.Keys == devices.Keys && (forall n | n in devices :: MasteredOnly(node, n, devices[n], vrfs[n]))
    && EndsConfigured(plan, node, 2 * |plan.links|, vrfs, ends)
    && r.Keys == ends.Keys
    && (forall n | n in ends :: r[n] == if n in node.macs then ends[n].(mac := Some(node.macs[n])) else ends[n])
  }

  lemma RawIsCreatable(plan: NetworkPlan, node: NodePlan, m: map<string, Interface>)
    requires NodeFits(plan, node) && Raw(plan, node, m)
    ensures Creatable(plan, node, DEVICE_KINDS, BroughtUp(node, m))
  {
    forall i | 0 <= i < |node.devices|
      ensures node.devices[i].name !in m
    {
      assert node.devices[i].name in DeviceNames(node);
    }
  }

  lemma MembersExist(plan: NetworkPlan, node: NodePlan, devices: map<string, Interface>)
    requires NodeFits(plan, node) && PlannedNames(plan, node) <= devices.Keys
    ensures forall d, n | d in node.devices && d.VrfDevice? && n in d.members :: n in devices
  {
    forall d, n | d in node.devices && d.VrfDevice? && n in d.members
      ensures n in devices
    {
      VrfMember(plan, node, d, n);
    }
  }

  lemma LoopbackFits(plan: NetworkPlan, node: NodePlan, m: map<string, Interface>, devices: map<string, Interface>,
                     vrfs: map<string, Interface>, ends: map<string, Interface>, r: map<string, Interface>)
    requires NodeFits(plan, node) && Raw(plan, node, m) && Configuring(plan, node, m, devices, vrfs, ends, r)
    ensures Fits("lo", WithMac(node, "lo", PlainExpected(Loopback, None, None, [LOOPBACK_ADDRESS])), r["lo"])
  {
    UntouchedByMembers(plan, node, "lo", devices["lo"], vrfs["lo"]);
    UntouchedByEnds(plan, node, "lo", vrfs, ends);
    MacFits(node, "lo", PlainExpected(Loopback, None, None, [LOOPBACK_ADDRESS]), ends["lo"]);
  }

  lemma UntouchedByMembers(plan: NetworkPlan, node: NodePlan, n: string, old': Interface, i: Interface)
    requires NodeFits(plan, node) && MasteredOnly(node, n, old', i) && n in {"lo"} + BridgeNames(node)
    ensures i == old'
  {
    if i != old' {
      var d :| d in node.devices && d.VrfDevice? && n in d.members;
      VrfMember(plan, node, d, n);
    }
  }

  lemma UntouchedByEnds(plan: NetworkPlan, node: NodePlan, n: string, vrfs: map<string, Interface>,
                        ends: map<string, Interface>)
    requires EndsConfigured(plan, node, 2 * |plan.links|, vrfs, ends) && n in vrfs
             && n !in LinkedNames(plan, node.namespace)
    ensures ends[n] == vrfs[n]
  {
    if ends[n] != vrfs[n] {
      var i :| EndHere(plan, node, i) && Ends(plan.links)[i].port.interface == n;
      EndIsLinked(plan, node, i);
    }
  }

  lemma BridgeFits(plan: NetworkPlan, node: NodePlan, m: map<string, Interface>, devices: map<string, Interface>,
                   vrfs: map<string, Interface>, ends: map<string, Interface>, r: map<string, Interface>)
    requires NodeFits(plan, node) && Raw(plan, node, m) && Configuring(plan, node, m, devices, vrfs, ends, r)
             && node.bridge.Some?
    ensures var b := node.bridge.value.name; Fits(b, WithMac(node, b, ExpectedBridge(node)), r[b])
  {
    var b := node.bridge.value.name;
    UntouchedByMembers(plan, node, b, devices[b], vrfs[b]);
    UntouchedByEnds(plan, node, b, vrfs, ends);
    MacFits(node, b, ExpectedBridge(node), ends[b]);
  }

  lemma EndInTableFits(plan: NetworkPlan, node: NodePlan, m: map<string, Interface>, devices: map<string, Interface>,
                       vrfs: map<string, Interface>, ends: map<string, Interface>, r: map<string, Interface>, k: nat)
    requires NodeFits(plan, node) && Raw(plan, node, m) && Configuring(plan, node, m, devices, vrfs, ends, r)
             && EndHere(plan, node, k)
    ensures var name := Ends(plan.links)[k].port.interface;
            name in r && Fits(name, WithMac(node, name, ExpectedEnd(node, plan.links[k / 2], name)), r[name])
  {
    var name, l := Ends(plan.links)[k].port.interface, plan.links[k / 2];
    EndIsLinked(plan, node, k);
    EndFits(plan, node, l, name, devices[name], vrfs[name]);
    MacFits(node, name, ExpectedEnd(node, l, name), ends[name]);
  }

  lemma DeviceInTableFits(plan: NetworkPlan, node: NodePlan, m: map<string, Interface>, devices: map<string, Interface>,
                          vrfs: map<string, Interface>, ends: map<string, Interface>, r: map<string, Interface>,
                            d: Device)
    requires NodeFits(plan, node) && Raw(plan, node, m) && Configuring(plan, node, m, devices, vrfs, ends, r)
             && d in node.devices
    ensures d.name in r && ExpectedDevice(plan, node, d).Some?
    ensures Fits(d.name, WithMac(node, d.name, ExpectedDevice(plan, node, d).value), r[d.name])
  {
    var i :| 0 <= i < |node.devices| && node.devices[i] == d;
    assert d.Kind() in DEVICE_KINDS && d.name in DeviceNames(node);
    DeviceFits(plan, node, d, devices[d.name], vrfs[d.name]);
    UntouchedByEnds(plan, node, d.name, vrfs, ends);
    MacFits(node, d.name, ExpectedDevice(plan, node, d).value, ends[d.name]);
  }

  /** A planned name is one of four kinds. */
  lemma NameCases(plan: NetworkPlan, node: NodePlan, n: string)
    requires n in PlannedNames(plan, node)
    ensures || n == "lo" || (node.bridge.Some? && n == node.bridge.value.name)
            || (exists k :: EndHere(plan, node, k) && Ends(plan.links)[k].port.interface == n)
            || (exists d :: d in node.devices && d.name == n)
  {
    AllEndNames(plan, node);
    EndNamesHave(plan, node, 2 * |plan.links|, n);
  }

  lemma NameFits(plan: NetworkPlan, node: NodePlan, m: map<string, Interface>, devices: map<string, Interface>,
                 vrfs: map<string, Interface>, ends: map<string, Interface>, r: map<string, Interface>,
                   expected: map<string, Expected>, n: string)
    requires NodeFits(plan, node) && Raw(plan, node, m) && Configuring(plan, node, m, devices, vrfs, ends, r)
    requires IsExpected(plan, node, expected) && n in expected
    ensures n in r && Fits(n, expected[n], r[n])
  {
    NameCases(plan, node, n);
    if n == "lo" {
      LoopbackFits(plan, node, m, devices, vrfs, ends, r);
    } else if node.bridge.Some? && n == node.bridge.value.name {
      BridgeFits(plan, node, m, devices, vrfs, ends, r);
    } else if k :| EndHere(plan, node, k) && Ends(plan.links)[k].port.interface == n {
      EndInTableFits(plan, node, m, devices, vrfs, ends, r, k);
    } else {
      var d :| d in node.devices && d.name == n;
      DeviceInTableFits(plan, node, m, devices, vrfs, ends, r, d);
    }
  }

  lemma TableKeys(plan: NetworkPlan, node: NodePlan, m: map<string, Interface>, devices: map<string, Interface>,
                  vrfs: map<string, Interface>, ends: map<string, Interface>, r: map<string, Interface>)
    requires Raw(plan, node, m) && Configuring(plan, node, m, devices, vrfs, ends, r)
    ensures r.Keys == PlannedNames(plan, node)
  {
    AllKindNames(node);
  }

  /** The matcher accepts every interface of a freshly configured node, and there is no interface it does not know. */
  lemma TableFits(plan: NetworkPlan, node: NodePlan, m: map<string, Interface>, devices: map<string, Interface>,
                  vrfs: map<string, Interface>, ends: map<string, Interface>, r: map<string, Interface>,
                    expected: map<string, Expected>)
    requires NodeFits(plan, node) && Raw(plan, node, m) && Configuring(plan, node, m, devices, vrfs, ends, r)
    requires IsExpected(plan, node, expected)
    ensures r.Keys == expected.Keys && forall n | n in expected :: Fits(n, expected[n], r[n])
  {
    TableKeys(plan, node, m, devices, vrfs, ends, r);
    forall n | n in expected
      ensures Fits(n, expected[n], r[n])
    {
      NameFits(plan, node, m, devices, vrfs, ends, r, expected, n);
    }
  }

  lemma KeepsIdsOn(m: map<string, Interface>, n: map<string, Interface>, r: map<string, Interface>)
    requires KeepsIds(m, n) && KeepsIds(n, r)
    ensures KeepsIds(m, r)
  {
  }

  lemma BroughtUpKeepsIds(node: NodePlan, m: map<string, Interface>)
    requires "lo" in m && BridgeNames(node) <= m.Keys
    ensures KeepsIds(m, BroughtUp(node, m))
  {
  }

  lemma MastersKeepIds(node: NodePlan, m: map<string, Interface>, r: map<string, Interface>)
    requires r.Keys == m.Keys && forall n | n in m :: MasteredOnly(node, n, m[n], r[n])
    ensures KeepsIds(m, r)
  {
  }

  lemma MacsKeepIds(node: NodePlan, m: map<string, Interface>, r: map<string, Interface>)
    requires r.Keys == m.Keys && forall n | n in m ::
               r[n] == if n in node.macs then m[n].(mac := Some(node.macs[n])) else m[n]
    ensures KeepsIds(m, r)
  {
  }

  lemma DeviceIsNoVeth(plan: NetworkPlan, node: NodePlan, d: Device, i: Interface)
    requires IsDevice(plan, node, d, i)
    ensures i.kind != Veth && i.linkId == None
  {
  }

  lemma DevicesKeepIds(plan: NetworkPlan, node: NodePlan, m: map<string, Interface>, r: map<string, Interface>)
    requires DevicesAdded(plan, node, DEVICE_KINDS, |node.devices|, m, r)
    ensures KeepsIds(m, r)
  {
    forall n | n in r && n !in m
      ensures r[n].kind != Veth && r[n].linkId == None
    {
      KindNamesHave(node, DEVICE_KINDS, |node.devices|, n);
      var i :| 0 <= i < |node.devices| && node.devices[i].Kind() in DEVICE_KINDS && node.devices[i].name == n;
      DeviceIsNoVeth(plan, node, node.devices[i], r[n]);
    }
  }

  lemma EndsKeepIds(plan: NetworkPlan, node: NodePlan, m: map<string, Interface>, r: map<string, Interface>)
    requires EndsConfigured(plan, node, 2 * |plan.links|, m, r)
    ensures KeepsIds(m, r)
  {
    forall n | n in m
      ensures r[n].kind == m[n].kind && r[n].linkId == m[n].linkId
    {
      if r[n] != m[n] {
        var i :| EndHere(plan, node, i) && Ends(plan.links)[i].port.interface == n;
        assert r[n] == ConfiguredEnd(node, plan.links[i / 2], n, m[n]);
      }
    }
  }

  /** Configuration neither makes nor removes nor renames a veth, and leaves every link identity alone. */
  lemma TableKeepsIds(plan: NetworkPlan, node: NodePlan, m: map<string, Interface>, devices: map<string, Interface>,
                      vrfs: map<string, Interface>, ends: map<string, Interface>, r: map<string, Interface>)
    requires Configuring(plan, node, m, devices, vrfs, ends, r)
    ensures KeepsIds(m, r)
  {
    var up := BroughtUp(node, m);
    BroughtUpKeepsIds(node, m);
    DevicesKeepIds(plan, node, up, devices);
    KeepsIdsOn(m, up, devices);
    MastersKeepIds(node, devices, vrfs);
    KeepsIdsOn(m, devices, vrfs);
    EndsKeepIds(plan, node, vrfs, ends);
    KeepsIdsOn(m, vrfs, ends);
    MacsKeepIds(node, ends, r);
    KeepsIdsOn(m, ends, r);
  }

  /** The interfaces are the planned ones, each as expected. */
  ghost predicate TableFit(plan: NetworkPlan, node: NodePlan, r: map<string, Interface>) {
    && r.Keys == PlannedNames(plan, node)
    && forall expected | IsExpected(plan, node, expected) :: forall n | n in expected ::
         n in r && Fits(n, expected[n], r[n])
  }

  /** What the matcher leaves open: the MTUs of loopback, bridge, VRFs and VLANs, and addresses nobody declared. */
  ghost predicate LeftOpen(node: NodePlan, m: map<string, Interface>, r: map<string, Interface>) {
    && "lo" in r && r["lo"].mtu == 65536
    && (node.bridge.Some? ==> node.bridge.value.name in r && r[node.bridge.value.name].mtu == 1500)
    && (forall d | d in node.devices :: d.name in r && DeviceLeftOpen(d, m, r[d.name]))
    && forall n | n in r && n !in node.macs :: r[n].mac == None
  }

  predicate DeviceLeftOpen(d: Device, m: map<string, Interface>, i: Interface) {
    (d.VrfDevice? ==> i.mtu == 65536) && (d.VlanDevice? && d.link in m ==> i.mtu == m[d.link].mtu)
  }

  ghost predicate Ready(plan: NetworkPlan, node: NodePlan, m: map<string, Interface>) {
    NodeFits(plan, node) && Raw(plan, node, m)
  }

  lemma DeviceCreated(plan: NetworkPlan, node: NodePlan, up: map<string, Interface>, devices: map<string, Interface>,
                      d: Device)
    requires DevicesAdded(plan, node, DEVICE_KINDS, |node.devices|, up, devices) && d in node.devices
    ensures d.name in devices && DeviceLeftOpen(d, up, devices[d.name]) && devices[d.name].mac == None
  {
    var i :| 0 <= i < |node.devices| && node.devices[i] == d;
    assert d.Kind() in DEVICE_KINDS;
    assert IsDevice(plan, node, d, devices[d.name]) && FollowsParent(d, up, devices[d.name]);
  }

  ghost predicate NoMacs(m: map<string, Interface>) {
    forall n | n in m :: m[n].mac == None
  }

  lemma DevicesHaveNoMac(plan: NetworkPlan, node: NodePlan, up: map<string, Interface>,
                         devices: map<string, Interface>)
    requires DevicesAdded(plan, node, DEVICE_KINDS, |node.devices|, up, devices) && NoMacs(up)
    ensures NoMacs(devices)
  {
    AllKindNames(node);
    forall n | n in devices && n !in up
      ensures devices[n].mac == None
    {
      var d :| d in node.devices && d.name == n;
      DeviceCreated(plan, node, up, devices, d);
    }
  }

  /** Neither being enslaved nor being configured as a link end gives an address. */
  lemma NoMacsLater(plan: NetworkPlan, node: NodePlan, devices: map<string, Interface>, vrfs: map<string, Interface>,
                    ends: map<string, Interface>)
    requires NoMacs(devices) && EndsConfigured(plan, node, 2 * |plan.links|, vrfs, ends)
    requires vrfs.Keys == devices.Keys && forall n | n in devices :: MasteredOnly(node, n, devices[n], vrfs[n])
    ensures NoMacs(ends)
  {
    assert NoMacs(vrfs) by {
      forall n | n in vrfs
        ensures vrfs[n].mac == None
      {
        assert MasteredOnly(node, n, devices[n], vrfs[n]);
      }
    }
    forall n | n in ends
      ensures ends[n].mac == None
    {
      if ends[n] != vrfs[n] {
        var i :| EndHere(plan, node, i) && Ends(plan.links)[i].port.interface == n;
        assert ends[n] == ConfiguredEnd(node, plan.links[i / 2], n, vrfs[n]);
      }
    }
  }

  lemma RawHasNoMac(plan: NetworkPlan, node: NodePlan, m: map<string, Interface>)
    requires Raw(plan, node, m)
    ensures NoMacs(BroughtUp(node, m))
  {
    forall n | n in m
      ensures m[n].mac == None
    {
      assert n in LinkedNames(plan, node.namespace) ==> RawEnd(m[n], n);
    }
  }

  lemma DeviceOpen(plan: NetworkPlan, node: NodePlan, up: map<string, Interface>, devices: map<string, Interface>,
                   vrfs: map<string, Interface>, ends: map<string, Interface>, d: Device)
    requires DevicesFit(plan, node) && d in node.devices
    requires DevicesAdded(plan, node, DEVICE_KINDS, |node.devices|, up, devices)
    requires vrfs.Keys == devices.Keys && forall n | n in devices :: MasteredOnly(node, n, devices[n], vrfs[n])
    requires EndsConfigured(plan, node, 2 * |plan.links|, vrfs, ends)
    ensures d.name in ends && DeviceLeftOpen(d, up, ends[d.name])
  {
    DeviceCreated(plan, node, up, devices, d);
    assert MasteredOnly(node, d.name, devices[d.name], vrfs[d.name]) && d.name in DeviceNames(node);
    UntouchedByEnds(plan, node, d.name, vrfs, ends);
  }

  lemma DeviceStaysOpen(plan: NetworkPlan, node: NodePlan, m: map<string, Interface>, d: Device, i: Interface)
    requires DevicesFit(plan, node) && Raw(plan, node, m) && d in node.devices
    requires DeviceLeftOpen(d, BroughtUp(node, m), i)
    ensures DeviceLeftOpen(d, m, i)
  {
  }

  lemma BaseOpen(plan: NetworkPlan, node: NodePlan, up: map<string, Interface>, devices: map<string, Interface>,
                 vrfs: map<string, Interface>, ends: map<string, Interface>, n: string)
    requires DevicesAdded(plan, node, DEVICE_KINDS, |node.devices|, up, devices)
    requires vrfs.Keys == devices.Keys && forall n | n in devices :: MasteredOnly(node, n, devices[n], vrfs[n])
    requires EndsConfigured(plan, node, 2 * |plan.links|, vrfs, ends)
    requires n in up && n !in LinkedNames(plan, node.namespace)
    ensures n in ends && ends[n].mtu == up[n].mtu
  {
    assert MasteredOnly(node, n, devices[n], vrfs[n]);
    UntouchedByEnds(plan, node, n, vrfs, ends);
  }

  lemma BasesOpen(plan: NetworkPlan, node: NodePlan, m: map<string, Interface>, devices: map<string, Interface>,
                  vrfs: map<string, Interface>, ends: map<string, Interface>)
    requires DevicesFit(plan, node) && Raw(plan, node, m)
    requires DevicesAdded(plan, node, DEVICE_KINDS, |node.devices|, BroughtUp(node, m), devices)
    requires vrfs.Keys == devices.Keys && forall n | n in devices :: MasteredOnly(node, n, devices[n], vrfs[n])
    requires EndsConfigured(plan, node, 2 * |plan.links|, vrfs, ends)
    ensures "lo" in ends && ends["lo"].mtu == 65536
    ensures node.bridge.Some? ==> node.bridge.value.name in ends && ends[node.bridge.value.name].mtu == 1500
  {
    var up := BroughtUp(node, m);
    BaseOpen(plan, node, up, devices, vrfs, ends, "lo");
    if node.bridge.Some? { BaseOpen(plan, node, up, devices, vrfs, ends, node.bridge.value.name); }
  }

  lemma DevicesOpen(plan: NetworkPlan, node: NodePlan, m: map<string, Interface>, devices: map<string, Interface>,
                    vrfs: map<string, Interface>, ends: map<string, Interface>)
    requires DevicesFit(plan, node) && Raw(plan, node, m)
    requires DevicesAdded(plan, node, DEVICE_KINDS, |node.devices|, BroughtUp(node, m), devices)
    requires vrfs.Keys == devices.Keys && forall n | n in devices :: MasteredOnly(node, n, devices[n], vrfs[n])
    requires EndsConfigured(plan, node, 2 * |plan.links|, vrfs, ends)
    ensures forall d | d in node.devices :: d.name in ends && DeviceLeftOpen(d, m, ends[d.name])
  {
    forall d | d in node.devices
      ensures d.name in ends && DeviceLeftOpen(d, m, ends[d.name])
    {
      DeviceOpen(plan, node, BroughtUp(node, m), devices, vrfs, ends, d);
      DeviceStaysOpen(plan, node, m, d, ends[d.name]);
    }
  }

  lemma MacsOpen(plan: NetworkPlan, node: NodePlan, m: map<string, Interface>, devices: map<string, Interface>,
                 vrfs: map<string, Interface>, ends: map<string, Interface>)
    requires Raw(plan, node, m)
    requires DevicesAdded(plan, node, DEVICE_KINDS, |node.devices|, BroughtUp(node, m), devices)
    requires vrfs.Keys == devices.Keys && forall n | n in devices :: MasteredOnly(node, n, devices[n], vrfs[n])
    requires EndsConfigured(plan, node, 2 * |plan.links|, vrfs, ends)
    ensures NoMacs(ends)
  {
    RawHasNoMac(plan, node, m);
    DevicesHaveNoMac(plan, node, BroughtUp(node, m), devices);
    NoMacsLater(plan, node, devices, vrfs, ends);
  }

  lemma MacsAlone(node: NodePlan, m: map<string, Interface>, ends: map<string, Interface>, r: map<string, Interface>)
    requires r.Keys == ends.Keys && NoMacs(ends)
    requires forall n | n in ends :: r[n] == if n in node.macs then ends[n].(mac := Some(node.macs[n])) else ends[n]
    requires "lo" in ends && ends["lo"].mtu == 65536
    requires node.bridge.Some? ==> node.bridge.value.name in ends && ends[node.bridge.value.name].mtu == 1500
    requires forall d | d in node.devices :: d.name in ends && DeviceLeftOpen(d, m, ends[d.name])
    ensures LeftOpen(node, m, r)
  {
  }

  lemma LeftOpenTable(plan: NetworkPlan, node: NodePlan, m: map<string, Interface>, devices: map<string, Interface>,
                      vrfs: map<string, Interface>, ends: map<string, Interface>, r: map<string, Interface>)
    requires Ready(plan, node, m) && Configuring(plan, node, m, devices, vrfs, ends, r)
    ensures LeftOpen(node, m, r)
  {
    BasesOpen(plan, node, m, devices, vrfs, ends);
    DevicesOpen(plan, node, m, devices, vrfs, ends);
    MacsOpen(plan, node, m, devices, vrfs, ends);
    MacsAlone(node, m, ends, r);
  }

  lemma ConfiguredTable(plan: NetworkPlan, node: NodePlan, m: map<string, Interface>, devices: map<string, Interface>,
                        vrfs: map<string, Interface>, ends: map<string, Interface>, r: map<string, Interface>)
    requires Ready(plan, node, m) && Configuring(plan, node, m, devices, vrfs, ends, r)
    ensures TableFit(plan, node, r)
  {
    TableKeys(plan, node, m, devices, vrfs, ends, r);
    forall expected | IsExpected(plan, node, expected)
      ensures forall n | n in expected :: n in r && Fits(n, expected[n], r[n])
    {
      TableFits(plan, node, m, devices, vrfs, ends, r, expected);
    }
  }

  /**
   The configuration of one node. On a freshly built node it cannot fail, and the matcher accepts every interface;
   on any other it at least leaves veths and link identities alone.
   */
  method ConfigureInterfaces(plan: NetworkPlan, node: NodePlan, m: map<string, Interface>)
    returns (outcome: Outcome, r: map<string, Interface>)
    requires DistinctEnds(plan)
    ensures outcome.Done? ==> KeepsIds(m, r)
    ensures Ready(plan, node, m) ==> outcome.Done? && TableFit(plan, node, r) && LeftOpen(node, m, r)
  {
    var up, devices, vrfs, ends;
    outcome, up := BringUp(node, m);
    r := up;
    if !outcome.Done? { return; }
    if Ready(plan, node, m) { RawIsCreatable(plan, node, m); }
    outcome, devices := AddDevices(plan, node, up);
    if !outcome.Done? { return; }
    AllKindNames(node);
    if Ready(plan, node, m) { MembersExist(plan, node, devices); }
    outcome, vrfs := EnslaveMembers(node, devices);
    if !outcome.Done? { return; }
    outcome, ends := ConfigureEnds(plan, node, vrfs);
    if !outcome.Done? { return; }
    outcome, r := SetMacs(node, ends);
    if !outcome.Done? { return; }
    TableKeepsIds(plan, node, m, devices, vrfs, ends, r);
    if Ready(plan, node, m) {
      ConfiguredTable(plan, node, m, devices, vrfs, ends, r);
      LeftOpenTable(plan, node, m, devices, vrfs, ends, r);
    }
  }
}
