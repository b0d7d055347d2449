/**
 The part of a compiled plan that the lifecycle protocol handles: namespaces, bridges, veth
 endpoints with their temporary root names, and whether a node runs routing daemons. The live side
 is what an inventory reports about the same names.
 */
module Topology {
  /** An interface inside a namespace. */
  datatype Port = Port(namespace: string, interface: string)

  datatype Endpoint = Endpoint(port: Port, temporary: string)

  datatype Link = Link(left: Endpoint, right: Endpoint) {
    predicate Disjoint(other: Link) {
      && left.port != other.left.port && left.port != other.right.port
      && right.port != other.left.port && right.port != other.right.port
    }
  }

  datatype Node = Node(namespace: string, bridge: bool, routing: bool)

  datatype Plan = Plan(nodes: seq<Node>, links: seq<Link>) {
    function Namespaces(): (r: set<string>) {
      set n | n in nodes :: n.namespace
    }

    function Bridges(): (r: set<string>) {
      set n | n in nodes && n.bridge :: n.namespace
    }

    function Ports(): (r: set<Port>) {
      (set l | l in links :: l.left.port) + (set l | l in links :: l.right.port)
    }

    function Temporaries(): (r: set<string>) {
      (set l | l in links :: l.left.temporary) + (set l | l in links :: l.right.temporary)
    }

    predicate HasRouting() {
      exists n | n in nodes :: n.routing
    }

    /** What the planner guarantees: one namespace per node, one interface per endpoint, endpoints on planned nodes. */
    ghost predicate WellFormed() {
      && (forall i, j | 0 <= i < j < |nodes| :: nodes[i].namespace != nodes[j].namespace)
      && (forall i | 0 <= i < |links| :: links[i].left.port != links[i].right.port)
      && (forall i, j | 0 <= i < j < |links| :: links[i].Disjoint(links[j]))
      && (forall i | 0 <= i < |links| ::
            links[i].left.port.namespace in Namespaces() && links[i].right.port.namespace in Namespaces())
    }
  }

  /** Live resources that belong to one deployment name. `veths` maps an endpoint to its link id. */
  datatype Live = Live(
    namespaces: set<string>,
    bridges: set<string>,
    veths: map<Port, nat>,
    configured: set<string>,
    temporaries: set<string>)
  {
    ghost predicate Coherent() {
      && bridges <= namespaces
      && configured <= namespaces
      && (forall p | p in veths :: p.namespace in namespaces)
    }
  }

  const NOTHING := Live({}, {}, map[], {}, {})

  /** Every live resource is one the plan names. */
  ghost predicate Within(plan: Plan, live: Live) {
    && live.Coherent()
    && live.namespaces <= plan.Namespaces()
    && live.bridges <= plan.Bridges()
    && live.veths.Keys <= plan.Ports()
    && live.temporaries <= plan.Temporaries()
  }

  /** `after` keeps a part of `before` and adds nothing. */
  ghost predicate Shrinks(before: Live, after: Live) {
    && after.Coherent()
    && after.namespaces <= before.namespaces
    && after.bridges <= before.bridges
    && after.veths.Keys <= before.veths.Keys
    && (forall p | p in after.veths :: after.veths[p] == before.veths[p])
    && after.configured <= before.configured
    && after.temporaries <= before.temporaries
  }

  /** What an inventory of `plan` reports: only the names that the plan mentions. */
  function Observed(plan: Plan, live: Live): (r: Live) {
    Live(live.namespaces * plan.Namespaces(),
         live.bridges * plan.Namespaces(),
         map p | p in live.veths && p.namespace in plan.Namespaces() :: live.veths[p],
         live.configured * plan.Namespaces(),
         live.temporaries * plan.Temporaries())
  }

  /** No root temporary and no planned namespace is there. */
  predicate Absent(inventory: Live) {
    inventory.temporaries == {} && inventory.namespaces == {}
  }

  /** Both ends of every link carry one id, and no two links share it. */
  predicate LinksMatch(plan: Plan, veths: map<Port, nat>) {
    && (forall i | 0 <= i < |plan.links| ::
          && plan.links[i].left.port in veths && plan.links[i].right.port in veths
          && veths[plan.links[i].left.port] == veths[plan.links[i].right.port])
    && (forall i, j | 0 <= i < j < |plan.links| :: veths[plan.links[i].left.port] != veths[plan.links[j].left.port])
  }

  predicate Matches(plan: Plan, inventory: Live) {
    && inventory.temporaries == {}
    && inventory.namespaces == plan.Namespaces()
    && inventory.bridges == plan.Bridges()
    && inventory.configured == plan.Namespaces()
    && inventory.veths.Keys == plan.Ports()
    && LinksMatch(plan, inventory.veths)
  }

  predicate RecordedIdsMatch(plan: Plan, inventory: Live, recorded: map<Port, nat>) {
    forall i | 0 <= i < |plan.links| ::
      && Recorded(plan.links[i].left.port, inventory.veths, recorded)
      && Recorded(plan.links[i].right.port, inventory.veths, recorded)
  }

  predicate Recorded(port: Port, observed: map<Port, nat>, recorded: map<Port, nat>) {
    port in recorded && port in observed && observed[port] == recorded[port]
  }

  lemma ObservedWithin(plan: Plan, live: Live)
    requires Within(plan, live)
    ensures Observed(plan, live) == live
  {
    assert Observed(plan, live).veths == live.veths;
    assert live.bridges <= plan.Namespaces();
  }
}
