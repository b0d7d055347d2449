/** From a deployment to its snapshot: what is recorded of a fresh deployment passes the snapshot's validation. */
module Recording {
  import opened FakeBackend
  import opened Indexes
  import opened Matcher
  import opened Network
  import opened Options
  import opened Ownership
  import opened Realization
  import opened Topology
  import opened Validation

  function Signed(index: map<Port, nat>): (r: map<Port, int>) {
    map p | p in index :: index[p]
  }

  /**
   Deploying, looking and recording: the records of the live inventory are valid with complete link ids,
   whether the snapshot says deployed or not.
   */
  method DeployAndRecord(b: Backend, plan: NetworkPlan, deployed: bool) returns (records: Records, verdict: Verdict)
    requires b.Valid() && WellFormed(plan) && PlainNames(plan) && b.failOn == None && b.namespaces == map[]
    modifies b
    ensures b.Valid() && verdict == Validation.Valid(true) && verdict == VerdictOf(plan, records, deployed)
  {
    Realize(b, plan);
    var outcome, o, index := b.TakeInventory(plan);
    assert o.namespaces == b.namespaces;
    var m := InterfaceOwnership(plan, FromLive(o, Signed(index)));
    records := Stored(m);
    LivePasses(plan, o, Signed(index), m, deployed);
    verdict := ValidateInterfaces(plan, records, deployed);
  }

  /** Before deploying there is nothing to record but names: such records are valid while deploying. */
  method RecordBlank(plan: NetworkPlan) returns (records: Records, verdict: Verdict)
    requires WellFormed(plan) && PlainNames(plan)
    ensures verdict == VerdictOf(plan, records, false) && verdict == Validation.Valid(plan.links == [])
  {
    var m := InterfaceOwnership(plan, Blank);
    records := Stored(m);
    BlankPasses(plan, m, false);
    verdict := ValidateInterfaces(plan, records, false);
  }
}
