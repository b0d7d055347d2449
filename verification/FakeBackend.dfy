/** The deterministic in-memory backend: namespaces, veth pairs, and an injected failure at a chosen call. */
module FakeBackend {
  import opened Configure
  import opened Configured
  import opened Indexes
  import opened Matcher
  import opened Network
  import opened Options
  import opened Topology

  function View(namespaces: Namespaces): (r: Observed) {
    Observed(namespaces, {})
  }

  /** `p` and its peer are two live veths, each the other's peer, with one identity given out before `next`. */
  ghost predicate PairedAt(o: Observed, peers: map<Port, Port>, next: nat, p: Port) {
    && p in peers && peers[p] != p && peers[p] in peers && peers[peers[p]] == p
    && IsVeth(o, p) && IdAt(o, p).Some? && IdAt(o, p).value < next && IdAt(o, peers[p]) == IdAt(o, p)
  }

  /** `peers` is a symmetric pairing of exactly the live veths, one identity a pair. */
  ghost predicate Paired(o: Observed, peers: map<Port, Port>, next: nat) {
    && (forall p {:trigger PairedAt(o, peers, next, p)} | p in peers :: PairedAt(o, peers, next, p))
    && (forall p {:trigger IsVeth(o, p)} | IsVeth(o, p) :: p in peers)
    && (forall p, q {:trigger OnePair(o, peers, p, q)} :: OnePair(o, peers, p, q))
  }

  /** Two ends with one id are one or make a pair. */
  ghost predicate OnePair(o: Observed, peers: map<Port, Port>, p: Port, q: Port) {
    p in peers && q in peers && IdAt(o, p) == IdAt(o, q) ==> q == p || q == peers[p]
  }

  /** Each state is filed under its own name. */
  ghost predicate Filed(namespaces: Namespaces) {
    forall s | s in namespaces :: namespaces[s].exists_ && namespaces[s].namespace == s
  }

  ghost predicate Wired(namespaces: Namespaces, peers: map<Port, Port>, next: nat) {
    Paired(View(namespaces), peers, next) && Filed(namespaces)
  }

  function WithInterface(namespaces: Namespaces, p: Port, i: Interface): (r: Namespaces)
    requires p.namespace in namespaces
  {
    var st := namespaces[p.namespace];
    namespaces[p.namespace := st.(interfaces := st.interfaces[p.interface := i])]
  }

  function WithLink(namespaces: Namespaces, l: LinkPlan, id: nat): (r: Namespaces)
    requires l.left.port.namespace in namespaces && l.right.port.namespace in namespaces
  {
    var one := WithInterface(namespaces, l.left.port, NewVeth(l.left.port.interface, l, id));
    WithInterface(one, l.right.port, NewVeth(l.right.port.interface, l, id))
  }

  /** Two views with the same veths and identities. */
  ghost predicate SameIds(o: Observed, o': Observed) {
    forall p {:trigger IsVeth(o', p)} {:trigger IdAt(o', p)} ::
        (IsVeth(o', p) <==> IsVeth(o, p)) && IdAt(o', p) == IdAt(o, p)
  }

  lemma PairedStays(o: Observed, o': Observed, peers: map<Port, Port>, next: nat)
    requires Paired(o, peers, next) && SameIds(o, o')
    ensures Paired(o', peers, next)
  {
    forall p | p in peers
      ensures PairedAt(o', peers, next, p)
    {
      assert PairedAt(o, peers, next, p);
    }
    forall p, q
      ensures OnePair(o', peers, p, q)
    {
      assert OnePair(o, peers, p, q);
      if p in peers && q in peers { assert PairedAt(o, peers, next, p) && PairedAt(o, peers, next, q); }
    }
  }

  ghost predicate LinkIsFree(l: LinkPlan, namespaces: Namespaces) {
    && l.left.port.namespace in namespaces && l.right.port.namespace in namespaces
    && !Has(namespaces, l.left.port) && !Has(namespaces, l.right.port) && l.left.port != l.right.port
  }

  function CheckLink(namespaces: Namespaces, l: LinkPlan): (outcome: Outcome)
    requires l.left.port != l.right.port
    ensures outcome == Done <==> LinkIsFree(l, namespaces)
  {
    if l.left.port.namespace !in namespaces || l.right.port.namespace !in namespaces then Missing
    else if Has(namespaces, l.left.port) || Has(namespaces, l.right.port) then Exists
    else Done
  }

  /** The pairs and a link's two ends. */
  function WithPair(peers: map<Port, Port>, l: LinkPlan): (r: map<Port, Port>) {
    peers[l.left.port := l.right.port][l.right.port := l.left.port]
  }

  /** A port before and after a link was made: its ends are new veths with the link's id, all else is unchanged. */
  ghost predicate LinkedAt(o: Observed, o': Observed, l: LinkPlan, id: nat, p: Port) {
    if p == l.left.port || p == l.right.port then IsVeth(o', p) && IdAt(o', p) == Some(id)
    else (IsVeth(o', p) <==> IsVeth(o, p)) && IdAt(o', p) == IdAt(o, p)
  }

  lemma LinkAt(namespaces: Namespaces, l: LinkPlan, id: nat, p: Port)
    requires l.left.port.namespace in namespaces && l.right.port.namespace in namespaces && l.left.port != l.right.port
    ensures LinkedAt(View(namespaces), View(WithLink(namespaces, l, id)), l, id, p)
  {
  }

  lemma LinkPaired(namespaces: Namespaces, peers: map<Port, Port>, next: nat, l: LinkPlan)
    requires Wired(namespaces, peers, next) && LinkIsFree(l, namespaces)
    ensures Wired(WithLink(namespaces, l, next), WithPair(peers, l), next + 1)
  {
    var o, o' := View(namespaces), View(WithLink(namespaces, l, next));
    forall p: Port
      ensures LinkedAt(o, o', l, next, p) && (p == l.left.port || p == l.right.port ==> p !in peers)
    {
      assert p in peers ==> PairedAt(o, peers, next, p);
      LinkAt(namespaces, l, next, p);
    }
    PairAdded(o, o', peers, next, l);
  }

  lemma PairAdded(o: Observed, o': Observed, peers: map<Port, Port>, next: nat, l: LinkPlan)
    requires Paired(o, peers, next) && l.left.port != l.right.port && l.left.port !in peers && l.right.port !in peers
    requires forall p {:trigger LinkedAt(o, o', l, next, p)} :: LinkedAt(o, o', l, next, p)
    ensures Paired(o', WithPair(peers, l), next + 1)
  {
    var peers' := WithPair(peers, l);
    forall p | p in peers'
      ensures PairedAt(o', peers', next + 1, p)
    {
      PairStands(o, o', peers, next, l, p);
    }
    forall p | IsVeth(o', p)
      ensures p in peers'
    {
      assert LinkedAt(o, o', l, next, p);
    }
    forall p, q
      ensures OnePair(o', peers', p, q)
    {
      assert OnePair(o, peers, p, q) && LinkedAt(o, o', l, next, p) && LinkedAt(o, o', l, next, q);
      assert p in peers ==> PairedAt(o, peers, next, p);
      assert q in peers ==> PairedAt(o, peers, next, q);
    }
  }

  lemma PairStands(o: Observed, o': Observed, peers: map<Port, Port>, next: nat, l: LinkPlan, p: Port)
    requires Paired(o, peers, next) && l.left.port != l.right.port && l.left.port !in peers && l.right.port !in peers
    requires forall q {:trigger LinkedAt(o, o', l, next, q)} :: LinkedAt(o, o', l, next, q)
    requires p in WithPair(peers, l)
    ensures PairedAt(o', WithPair(peers, l), next + 1, p)
  {
    assert LinkedAt(o, o', l, next, p);
    if p == l.left.port || p == l.right.port {
      assert LinkedAt(o, o', l, next, l.left.port) && LinkedAt(o, o', l, next, l.right.port);
    } else {
      assert PairedAt(o, peers, next, p) && PairedAt(o, peers, next, peers[p]);
      assert LinkedAt(o, o', l, next, peers[p]);
    }
  }

  /** The interfaces of a namespace but for the peers of the ends in `gone`. */
  function Unplugged(namespaces: Namespaces, peers: map<Port, Port>, gone: set<Port>,
                     s: string): (r: map<string, Interface>)
    requires s in namespaces
  {
    map n | n in namespaces[s].interfaces && !(Port(s, n) in peers && peers[Port(s, n)] in gone) ::
        namespaces[s].interfaces[n]
  }

  function Unpaired(peers: map<Port, Port>, gone: set<Port>): (r: map<Port, Port>) {
    map p | p in peers && p !in gone && peers[p] !in gone :: peers[p]
  }

  /** The link ends in one namespace. */
  function EndsIn(peers: map<Port, Port>, namespace: string): (r: set<Port>) {
    set p | p in peers && p.namespace == namespace
  }

  /** The peers of `gone` are unplugged everywhere except possibly in `namespace` itself. */
  ghost predicate UnpluggedOutside(before: Namespaces, peers: map<Port, Port>, gone: set<Port>, namespace: string,
                                   after: Namespaces) {
    && after.Keys == before.Keys
    && forall s | s in before ::
         && after[s] == before[s].(interfaces := after[s].interfaces, neighbors := after[s].neighbors)
         && (s != namespace ==> after[s].interfaces == Unplugged(before, peers, gone, s))
         && (s != namespace ==> after[s].neighbors == Without(before[s].neighbors, Cut(peers, gone, s)))
  }

  /** The neighbours on other devices, in order. */
  function Without(neighbors: seq<Neighbor>, devs: set<string>): (r: seq<Neighbor>) {
    if neighbors == [] then []
    else (if neighbors[0].dev in devs then [] else [neighbors[0]]) + Without(neighbors[1..], devs)
  }

  lemma {:induction false} WithoutTwice(neighbors: seq<Neighbor>, devs: set<string>, more: set<string>)
    ensures Without(Without(neighbors, devs), more) == Without(neighbors, devs + more)
  {
    if neighbors != [] {
      WithoutTwice(neighbors[1..], devs, more);
      var rest := Without(neighbors[1..], devs);
      if neighbors[0].dev in devs {
        assert [] + rest == rest;
      } else {
        assert ([neighbors[0]] + rest)[1..] == rest;
      }
    }
  }

  lemma {:induction false} WithoutNone(neighbors: seq<Neighbor>)
    ensures Without(neighbors, {}) == neighbors
  {
    if neighbors != [] {
      WithoutNone(neighbors[1..]);
    }
  }

  function Unplug(namespaces: Namespaces, p: Port): (r: Namespaces) {
    if p.namespace in namespaces then
      var st := namespaces[p.namespace];
      namespaces[p.namespace :=
        st.(interfaces := st.interfaces - {p.interface}, neighbors := Without(st.neighbors, {p.interface}))]
    else namespaces
  }

  /** Every pair is symmetric. */
  ghost predicate Symmetric(peers: map<Port, Port>) {
    forall p | p in peers :: peers[p] in peers && peers[peers[p]] == p
  }

  /** The names in a namespace whose other ends are gone. */
  function Cut(peers: map<Port, Port>, gone: set<Port>, s: string): (r: set<string>) {
    set q | q in peers && q.namespace == s && peers[q] in gone :: q.interface
  }

  lemma CutNext(peers: map<Port, Port>, gone: set<Port>, p: Port, s: string)
    requires Symmetric(peers) && p in peers
    ensures s == peers[p].namespace ==> Cut(peers, gone + {p}, s) == Cut(peers, gone, s) + {peers[p].interface}
    ensures s != peers[p].namespace ==> Cut(peers, gone + {p}, s) == Cut(peers, gone, s)
  {
    assert forall q | q in peers && peers[q] == p :: q == peers[p];
    assert peers[peers[p]] == p;
  }

  lemma CutNeighbors(before: Namespaces, peers: map<Port, Port>, gone: set<Port>, namespace: string, after: Namespaces,
                     p: Port, s: string)
    requires UnpluggedOutside(before, peers, gone, namespace, after) && Symmetric(peers) && p in peers
    requires s in before && s != namespace
    ensures Unplug(after, peers[p])[s].neighbors == Without(before[s].neighbors, Cut(peers, gone + {p}, s))
  {
    CutNext(peers, gone, p, s);
    if s == peers[p].namespace {
      WithoutTwice(before[s].neighbors, Cut(peers, gone, s), {peers[p].interface});
    }
  }

  lemma UnplugNext(before: Namespaces, peers: map<Port, Port>, gone: set<Port>, namespace: string, after: Namespaces,
                   p: Port)
    requires UnpluggedOutside(before, peers, gone, namespace, after) && Symmetric(peers) && p in peers
    ensures UnpluggedOutside(before, peers, gone + {p}, namespace, Unplug(after, peers[p]))
  {
    var after', peer := Unplug(after, peers[p]), peers[p];
    forall s | s in before && s != namespace
      ensures after'[s].interfaces == Unplugged(before, peers, gone + {p}, s)
      ensures after'[s].neighbors == Without(before[s].neighbors, Cut(peers, gone + {p}, s))
    {
      CutNeighbors(before, peers, gone, namespace, after, p, s);
      forall n: string
        ensures n in after'[s].interfaces <==> n in Unplugged(before, peers, gone + {p}, s)
      {
        assert Port(s, n) in peers && peers[Port(s, n)] == p <==> Port(s, n) == peer;
      }
    }
  }

  lemma UnplugKnown(before: Namespaces, peers: map<Port, Port>, gone: set<Port>, namespace: string, after: Namespaces,
                    p: Port)
    requires UnpluggedOutside(before, peers, gone, namespace, after) && Symmetric(peers) && p in peers
             && peers[p] in gone
    requires p.namespace == namespace
    requires forall q | q in gone :: q.namespace == namespace
    ensures UnpluggedOutside(before, peers, gone + {p}, namespace, after)
    ensures Unpaired(peers, gone + {p}) == Unpaired(peers, gone)
  {
    forall s, n | s in before && s != namespace && n in before[s].interfaces
      ensures !(Port(s, n) in peers && peers[Port(s, n)] == p)
    {
      assert Port(s, n) != peers[p];
    }
    forall s | s in before && s != namespace
      ensures Cut(peers, gone + {p}, s) == Cut(peers, gone, s)
    {
      assert forall q | q in peers && q.namespace == s :: peers[q] != p;
    }
    assert forall q | q in peers && peers[q] == p :: q == peers[p];
  }

  lemma UnpairNext(peers: map<Port, Port>, gone: set<Port>, p: Port)
    requires Symmetric(peers) && p in peers && p !in gone && peers[p] !in gone
    ensures Unpaired(peers, gone) - {p} - {peers[p]} == Unpaired(peers, gone + {p})
    ensures p in Unpaired(peers, gone) && Unpaired(peers, gone)[p] == peers[p]
  {
    assert forall q | q in peers && peers[q] == p :: q == peers[p];
  }

  ghost predicate Deleting(before: Namespaces, pairs: map<Port, Port>, gone: set<Port>, namespace: string,
                           now: Namespaces, peers: map<Port, Port>) {
    gone <= EndsIn(pairs, namespace) && peers == Unpaired(pairs, gone)
      && UnpluggedOutside(before, pairs, gone, namespace, now)
  }

  lemma DeleteStep(before: Namespaces, pairs: map<Port, Port>, gone: set<Port>, namespace: string, now: Namespaces,
                   peers: map<Port, Port>, p: Port)
    requires Deleting(before, pairs, gone, namespace, now, peers) && Symmetric(pairs) && p in EndsIn(pairs, namespace)
             && p !in gone
    ensures p in peers ==>
              Deleting(before, pairs, gone + {p}, namespace, Unplug(now, peers[p]), peers - {p} - {peers[p]})
    ensures p !in peers ==> Deleting(before, pairs, gone + {p}, namespace, now, peers)
  {
    if p in peers {
      UnpairNext(pairs, gone, p);
      UnplugNext(before, pairs, gone, namespace, now, p);
    } else {
      UnplugKnown(before, pairs, gone, namespace, now, p);
    }
  }

  /** What is left after a namespace and the far ends of its links are gone. */
  ghost predicate Severed(before: Namespaces, peers: map<Port, Port>, namespace: string, after: Namespaces,
                          peers': map<Port, Port>) {
    && after.Keys == before.Keys - {namespace} && peers' == Unpaired(peers, EndsIn(peers, namespace))
    && forall s | s in after ::
         after[s] == before[s].(interfaces := Unplugged(before, peers, EndsIn(peers, namespace), s),
                                neighbors := Without(before[s].neighbors, Cut(peers, EndsIn(peers, namespace), s)))
  }

  lemma Deleted(before: Namespaces, pairs: map<Port, Port>, next: nat, namespace: string, unplugged: Namespaces,
                after: Namespaces,
                peers: map<Port, Port>)
    requires Paired(View(before), pairs, next) && Filed(before)
    requires Deleting(before, pairs, EndsIn(pairs, namespace), namespace, unplugged, peers)
             && after == unplugged - {namespace}
    ensures Severed(before, pairs, namespace, after, peers) && Paired(View(after), peers, next) && Filed(after)
  {
    SeveredPaired(before, pairs, next, namespace, after, peers);
  }

  lemma SeveredIds(before: Namespaces, peers: map<Port, Port>, next: nat, namespace: string, after: Namespaces,
                   peers': map<Port, Port>, p: Port)
    requires Paired(View(before), peers, next) && Severed(before, peers, namespace, after, peers')
    ensures IsVeth(View(after), p) <==> p in peers'
    ensures p in peers' ==> IdAt(View(after), p) == IdAt(View(before), p)
  {
    var gone := EndsIn(peers, namespace);
    if p in peers {
      assert PairedAt(View(before), peers, next, p);
      if p in peers' {
        assert p.interface in Unplugged(before, peers, gone, p.namespace);
      }
    }
    if IsVeth(View(after), p) {
      assert IsVeth(View(before), p);
    }
  }

  lemma SeveredPaired(before: Namespaces, peers: map<Port, Port>, next: nat, namespace: string, after: Namespaces,
                      peers': map<Port, Port>)
    requires Paired(View(before), peers, next) && Severed(before, peers, namespace, after, peers')
    ensures Paired(View(after), peers', next)
  {
    forall p: Port
      ensures IsVeth(View(after), p) <==> p in peers'
      ensures p in peers' ==> IdAt(View(after), p) == IdAt(View(before), p) && PairedAt(View(before), peers, next, p)
    {
      SeveredIds(before, peers, next, namespace, after, peers', p);
      assert p in peers ==> PairedAt(View(before), peers, next, p);
    }
    forall p | p in peers'
      ensures PairedAt(View(after), peers', next, p)
    {
      assert PairedAt(View(before), peers, next, p);
    }
    forall p, q
      ensures OnePair(View(after), peers', p, q)
    {
      assert OnePair(View(before), peers, p, q);
    }
  }

  ghost predicate NodeConfigured(plan: NetworkPlan, node: NodePlan, before: Inventory, st: Inventory) {
    && st == before.(interfaces := st.interfaces, neighbors := node.neighbors, sysctls := node.sysctls)
    && TableFit(plan, node, st.interfaces) && LeftOpen(node, before.interfaces, st.interfaces)
  }

  lemma KeptIds(before: Namespaces, s: string, after: Namespaces)
    requires s in before && after.Keys == before.Keys && KeepsIds(before[s].interfaces, after[s].interfaces)
    requires forall t | t in before && t != s :: after[t] == before[t]
    ensures SameIds(View(before), View(after))
  {
  }

  lemma Installed(plan: NetworkPlan, node: NodePlan, before: Namespaces, interfaces: map<string, Interface>,
                  after: Namespaces,
                  peers: map<Port, Port>, next: nat)
    requires Paired(View(before), peers, next) && Filed(before) && node.namespace in before
    requires KeepsIds(before[node.namespace].interfaces, interfaces)
    requires Ready(plan, node, before[node.namespace].interfaces) ==>
               TableFit(plan, node, interfaces) && LeftOpen(node, before[node.namespace].interfaces, interfaces)
    requires after
             == before[node.namespace :=
             before[node.namespace].(interfaces := interfaces, neighbors := node.neighbors, sysctls := node.sysctls)]
    ensures Paired(View(after), peers, next) && Filed(after) && SameIds(View(before), View(after))
    ensures Ready(plan, node, before[node.namespace].interfaces) ==>
              NodeConfigured(plan, node, before[node.namespace], after[node.namespace])
  {
    KeptIds(before, node.namespace, after);
    PairedStays(View(before), View(after), peers, next);
  }

  /** The loop of the deletion: every link end of the namespace loses its peer, wherever that is. */
  lemma NothingCut(namespaces: Namespaces, peers: map<Port, Port>, namespace: string)
    ensures Deleting(namespaces, peers, {}, namespace, namespaces, peers)
  {
    forall s | s in namespaces
      ensures namespaces[s].neighbors == Without(namespaces[s].neighbors, Cut(peers, {}, s))
    {
      assert Cut(peers, {}, s) == {};
      WithoutNone(namespaces[s].neighbors);
    }
  }

  method UnplugPeer(ghost before: Namespaces, ghost pairs: map<Port, Port>, ghost gone: set<Port>,
                    ghost namespace: string,
                    now: Namespaces, peers: map<Port, Port>, p: Port)
    returns (r: Namespaces, left: map<Port, Port>)
    requires Symmetric(pairs) && p in EndsIn(pairs, namespace) && p !in gone && gone <= EndsIn(pairs, namespace)
    requires Deleting(before, pairs, gone, namespace, now, peers)
    ensures Deleting(before, pairs, gone + {p}, namespace, r, left)
  {
    r, left := now, peers;
    DeleteStep(before, pairs, gone, namespace, now, peers, p);
    if p in peers {
      left := peers - {p} - {peers[p]};
      r := Unplug(now, peers[p]);
    }
  }

  method UnplugPeers(namespaces: Namespaces, peers: map<Port, Port>, namespace: string)
    returns (r: Namespaces, left: map<Port, Port>)
    requires Symmetric(peers)
    ensures Deleting(namespaces, peers, EndsIn(peers, namespace), namespace, r, left)
  {
    r, left := namespaces, peers;
    NothingCut(namespaces, peers, namespace);
    var todo := EndsIn(peers, namespace);
    ghost var gone: set<Port> := {};
    while todo != {}
      invariant gone + todo == EndsIn(peers, namespace) && gone !! todo
      invariant Deleting(namespaces, peers, gone, namespace, r, left)
      decreases |todo|
    {
      var p :| p in todo;
      r, left := UnplugPeer(namespaces, peers, gone, namespace, r, left, p);
      gone, todo := gone + {p}, todo - {p};
    }
    assert gone == EndsIn(peers, namespace);
  }

  ghost function Trimmed(namespaces: Namespaces, s: string, names: set<string>): (r: Namespaces)
    requires s in namespaces
  {
    namespaces[s := namespaces[s].(interfaces := namespaces[s].interfaces - names)]
  }

  lemma DeletedIndexed(before: Namespaces, pairs: map<Port, Port>, namespace: string, after: Namespaces,
                       peers: map<Port, Port>, indexes: map<Port, nat>, next: map<string, nat>)
    requires Indexed(before, indexes, next) && Severed(before, pairs, namespace, after, peers)
    ensures Indexed(after, indexes, next - {namespace})
  {
    FewerIndexed(before, after, indexes, next);
    Restarted(after, indexes, next, next - {namespace}, namespace);
  }

  lemma FoundIndexed(namespaces: Namespaces, indexes: map<Port, nat>, next: map<string, nat>, plan: NetworkPlan,
                     found: Namespaces)
    requires Indexed(namespaces, indexes, next)
    requires forall s | s in found ::
               if s in namespaces then found[s] == namespaces[s] else IsMissing(plan, s, found[s])
    ensures forall p {:trigger Has(found, p)} | Has(found, p) :: p in indexes && indexes[p] >= 1
  {
    forall p | Has(found, p)
      ensures p in indexes && indexes[p] >= 1
    {
      assert IndexedAt(namespaces, indexes, next, p);
    }
  }

  /** A missing namespace is reported empty, under the name and kind of a node that has it. */
  ghost predicate IsMissing(plan: NetworkPlan, s: string, i: Inventory) {
    exists j :: 0 <= j < |plan.nodes| && plan.nodes[j].namespace == s && i == NoInventory(plan.nodes[j])
  }

  /** The tables with both ends of a link and their pairing. */
  method Plug(namespaces: Namespaces, peers: map<Port, Port>, next: nat, l: LinkPlan)
    returns (linked: Namespaces, paired: map<Port, Port>, later: nat)
    requires Wired(namespaces, peers, next) && LinkIsFree(l, namespaces)
    ensures Wired(linked, paired, later)
    ensures linked == WithLink(namespaces, l, next) && paired == WithPair(peers, l) && later == next + 1
  {
    linked, paired, later := WithLink(namespaces, l, next), WithPair(peers, l), next + 1;
    LinkPaired(namespaces, peers, next, l);
  }

  class Backend {
    var namespaces: Namespaces
    var peers: map<Port, Port>
    var nextLink: nat
    /** The index of each interface, and the one that each namespace hands out next. */
    var indexes: map<Port, nat>
    var nextIndex: map<string, nat>
    var calls: nat
    const failOn: Option<nat>

    constructor (failOn: Option<nat>)
      ensures Valid() && namespaces == map[] && peers == map[] && calls == 0 && this.failOn == failOn
    {
      namespaces, peers, nextLink, calls := map[], map[], 1, 0;
      indexes, nextIndex := map[], map[];
      this.failOn := failOn;
    }

    ghost predicate Valid()
      reads this
    {
      && Wired(namespaces, peers, nextLink)
      && Indexed(namespaces, indexes, nextIndex)
    }

    /** Gives the one interface that `after` has more the next index of its namespace. */
    method Allocate(p: Port, ghost now: Namespaces, ghost after: Namespaces)
      requires Indexed(now, indexes, nextIndex) && AtMostMore(now, after, p)
      modifies `indexes, `nextIndex
      ensures Indexed(after, indexes, nextIndex)
      ensures indexes == old(indexes)[p := old(Next(nextIndex, p.namespace))]
    {
      OneMoreIndexed(now, after, indexes, nextIndex, p);
      var index := Next(nextIndex, p.namespace);
      indexes, nextIndex := indexes[p := index], nextIndex[p.namespace := index + 1];
    }

    /** Counts the call; false if it is the one that fails. */
    method Record() returns (proceed: bool)
      modifies `calls
      ensures calls == old(calls) + 1 && (proceed <==> failOn != Some(calls))
    {
      calls := calls + 1;
      proceed := failOn != Some(calls);
    }

    method CreateNamespace(node: NodePlan) returns (outcome: Outcome)
      requires Valid()
      modifies this
      ensures Valid() && calls == old(calls) + 1 && peers == old(peers) && nextLink == old(nextLink)
      ensures outcome.Done? <==> failOn != Some(calls) && node.namespace !in old(namespaces)
      ensures !outcome.Done? ==> namespaces == old(namespaces)
      ensures outcome.Done? ==>
                namespaces == old(namespaces)[node.namespace :=
                  Inventory(node.name, node.bridge.Some?, node.namespace, true, map["lo" := NewLoopback()], [], map[])]
    {
      var proceed := Record();
      if !proceed { return Injected; }
      if node.namespace in namespaces { return Exists; }
      ghost var before := namespaces;
      var state := Inventory(node.name, node.bridge.Some?, node.namespace, true, map["lo" := NewLoopback()], [], map[]);
      Restarted(namespaces, indexes, nextIndex, nextIndex[node.namespace := 1], node.namespace);
      nextIndex := nextIndex[node.namespace := 1];
      Allocate(Port(node.namespace, "lo"), namespaces, namespaces[node.namespace := state]);
      namespaces := namespaces[node.namespace := state];
      assert SameIds(View(before), View(namespaces));
      PairedStays(View(before), View(namespaces), peers, nextLink);
      outcome := Done;
    }

    method CreateBridge(node: NodePlan) returns (outcome: Outcome)
      requires Valid()
      modifies this
      ensures Valid() && calls == old(calls) + 1 && peers == old(peers) && nextLink == old(nextLink)
      ensures outcome.Done? <==>
                && failOn != Some(calls) && node.namespace in old(namespaces) && node.bridge.Some?
                && !old(Has(namespaces, Port(node.namespace, node.bridge.value.name)))
      ensures !outcome.Done? ==> namespaces == old(namespaces)
      ensures outcome.Done? ==>
                namespaces == WithInterface(old(namespaces), Port(node.namespace, node.bridge.value.name),
                  NewBridge(node.bridge.value))
    {
      var proceed := Record();
      if !proceed { return Injected; }
      if node.namespace !in namespaces { return Missing; }
      if node.bridge.None? { return NotABridge; }
      var p := Port(node.namespace, node.bridge.value.name);
      if p.interface in namespaces[node.namespace].interfaces { return Exists; }
      ghost var before := namespaces;
      Allocate(p, namespaces, WithInterface(namespaces, p, NewBridge(node.bridge.value)));
      namespaces := WithInterface(namespaces, p, NewBridge(node.bridge.value));
      assert SameIds(View(before), View(namespaces));
      PairedStays(View(before), View(namespaces), peers, nextLink);
      outcome := Done;
    }

    method CreateVeth(l: LinkPlan) returns (outcome: Outcome)
      requires Valid() && l.left.port != l.right.port
      modifies this
      ensures Valid() && calls == old(calls) + 1
      ensures outcome.Done? <==> failOn != Some(calls) && old(LinkIsFree(l, namespaces))
      ensures !outcome.Done? ==> namespaces == old(namespaces) && peers == old(peers) && nextLink == old(nextLink)
      ensures outcome.Done? ==>
                && namespaces == WithLink(old(namespaces), l, old(nextLink)) && nextLink == old(nextLink) + 1
                && peers == WithPair(old(peers), l)
    {
      var proceed := Record();
      if !proceed { return Injected; }
      outcome := CheckLink(namespaces, l);
      if outcome != Done { return; }
      InsertEnds(l);
    }

    /** Indexes for both ends, the left one first. */
    method IndexEnds(l: LinkPlan, ghost id: nat, ghost now: Namespaces)
      requires Indexed(now, indexes, nextIndex) && LinkIsFree(l, now)
      modifies `indexes, `nextIndex
      ensures Indexed(WithLink(now, l, id), indexes, nextIndex)
    {
      ghost var one := WithInterface(now, l.left.port, NewVeth(l.left.port.interface, l, id));
      Allocate(l.left.port, now, one);
      Allocate(l.right.port, one, WithLink(now, l, id));
    }

    method InsertEnds(l: LinkPlan)
      requires Valid() && LinkIsFree(l, namespaces)
      modifies `namespaces, `peers, `nextLink, `indexes, `nextIndex
      ensures Valid() && namespaces == WithLink(old(namespaces), l, old(nextLink)) && nextLink == old(nextLink) + 1
      ensures peers == WithPair(old(peers), l)
    {
      var tables, next := namespaces, nextLink;
      var linked, paired, later := Plug(tables, peers, next, l);
      IndexEnds(l, next, tables);
      Install(linked, paired, later);
    }

    method Install(linked: Namespaces, paired: map<Port, Port>, next: nat)
      requires Wired(linked, paired, next) && Indexed(linked, indexes, nextIndex)
      modifies `namespaces, `peers, `nextLink
      ensures Valid() && namespaces == linked && peers == paired && nextLink == next
    {
      namespaces, peers, nextLink := linked, paired, next;
    }

    /** Deleting a namespace takes the far ends of its links with it; what is not there is no error. */
    method DeleteNamespace(namespace: string) returns (outcome: Outcome)
      requires Valid()
      modifies this
      ensures Valid() && calls == old(calls) + 1 && nextLink == old(nextLink)
      ensures outcome.Done? <==> failOn != Some(calls)
      ensures !outcome.Done? ==> namespaces == old(namespaces) && peers == old(peers)
      ensures outcome.Done? ==> Severed(old(namespaces), old(peers), namespace, namespaces, peers)
    {
      var proceed := Record();
      if !proceed { return Injected; }
      PairedIsSymmetric(View(namespaces), peers, nextLink);
      var unplugged, left := UnplugPeers(namespaces, peers, namespace);
      Deleted(namespaces, peers, nextLink, namespace, unplugged, unplugged - {namespace}, left);
      DeletedIndexed(namespaces, peers, namespace, unplugged - {namespace}, left, indexes, nextIndex);
      namespaces, peers, nextIndex := unplugged - {namespace}, left, nextIndex - {namespace};
      outcome := Done;
    }

    /** Configures a copy of the node's interface table and installs it only when every step has gone through. */
    method ConfigureNode(plan: NetworkPlan, node: NodePlan) returns (outcome: Outcome)
      requires Valid() && DistinctEnds(plan)
      modifies this
      ensures Valid() && calls == old(calls) + 1 && peers == old(peers) && nextLink == old(nextLink)
      ensures !outcome.Done? ==> namespaces == old(namespaces)
      ensures namespaces.Keys == old(namespaces).Keys
      ensures forall s | s in namespaces && s != node.namespace :: namespaces[s] == old(namespaces)[s]
      ensures SameIds(View(old(namespaces)), View(namespaces))
      ensures failOn != Some(calls) && node.namespace in old(namespaces)
              && Ready(plan, node, old(namespaces)[node.namespace].interfaces) ==>
                outcome.Done? && NodeConfigured(plan, node, old(namespaces)[node.namespace], namespaces[node.namespace])
    {
      var proceed := Record();
      if !proceed { return Injected; }
      if node.namespace !in namespaces { return Missing; }
      ghost var before := namespaces;
      var st := namespaces[node.namespace];
      var interfaces;
      outcome, interfaces := ConfigureInterfaces(plan, node, st.interfaces);
      if !outcome.Done? { return; }
      var state := st.(interfaces := interfaces, neighbors := node.neighbors, sysctls := node.sysctls);
      IndexNew(node.namespace, interfaces.Keys - st.interfaces.Keys, namespaces[node.namespace := state]);
      namespaces := namespaces[node.namespace := state];
      Installed(plan, node, before, interfaces, namespaces, peers, nextLink);
    }

    /** Indexes for the interfaces that `after` has more, all of them in one namespace. */
    method IndexNew(s: string, names: set<string>, ghost after: Namespaces)
      requires Indexed(namespaces, indexes, nextIndex) && s in after
      requires forall q {:trigger Has(after, q)} | Has(after, q) ::
                 Has(namespaces, q) || (q.namespace == s && q.interface in names)
      modifies `indexes, `nextIndex
      ensures Indexed(after, indexes, nextIndex)
    {
      var todo := names;
      forall q | Has(Trimmed(after, s, names), q)
        ensures Has(namespaces, q)
      {
        assert Has(after, q);
      }
      FewerIndexed(namespaces, Trimmed(after, s, todo), indexes, nextIndex);
      while todo != {}
        invariant Indexed(Trimmed(after, s, todo), indexes, nextIndex)
        decreases |todo|
      {
        var n :| n in todo;
        Allocate(Port(s, n), Trimmed(after, s, todo), Trimmed(after, s, todo - {n}));
        todo := todo - {n};
      }
      FewerIndexed(Trimmed(after, s, {}), after, indexes, nextIndex);
    }

    /** What is there of the plan's namespaces, and the index of every interface in them. */
    method TakeInventory(plan: NetworkPlan) returns (outcome: Outcome, o: Observed, index: map<Port, nat>)
      requires Valid()
      modifies `calls
      ensures Valid()
      ensures outcome.Done? ==> forall p :: p in index <==> Has(o.namespaces, p)
      ensures outcome.Done? ==> forall p | p in index :: p in indexes && index[p] == indexes[p] >= 1
      ensures calls == old(calls) + 1 && (outcome.Done? <==> failOn != Some(calls))
      ensures outcome.Done? ==> o.root == {} && o.namespaces.Keys == PlannedNamespaces(plan)
      ensures outcome.Done? ==> forall s | s in o.namespaces ::
                if s in namespaces then o.namespaces[s] == namespaces[s] else IsMissing(plan, s, o.namespaces[s])
    {
      var found: Namespaces := map[];
      var proceed := Record();
      if !proceed { return Injected, View(found), map[]; }
      for i := 0 to |plan.nodes|
        invariant found.Keys == set n | n in plan.nodes[..i] :: n.namespace
        invariant forall s | s in found ::
                    if s in namespaces then found[s] == namespaces[s] else IsMissing(plan, s, found[s])
      {
        var node := plan.nodes[i];
        assert plan.nodes[..i + 1] == plan.nodes[..i] + [node];
        var state := if node.namespace in namespaces then namespaces[node.namespace] else NoInventory(node);
        found := found[node.namespace := state];
      }
      assert plan.nodes[..|plan.nodes|] == plan.nodes;
      outcome, o := Done, View(found);
      FoundIndexed(namespaces, indexes, nextIndex, plan, found);
      index := map p | p in indexes && Has(found, p) :: indexes[p];
    }
  }

  lemma PairedIsSymmetric(o: Observed, peers: map<Port, Port>, next: nat)
    requires Paired(o, peers, next)
    ensures Symmetric(peers)
  {
    forall p | p in peers
      ensures peers[p] in peers && peers[peers[p]] == p
    {
      assert PairedAt(o, peers, next, p);
    }
  }
}
