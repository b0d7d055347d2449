/** Transactional deploy, destroy and redeploy over durable snapshots. */
module Lifecycle {
  import opened Options
  import opened Topology
  import opened Protocol
  import opened Store
  import opened Machine

  /** How a public call ends. `Dead` means that the process was killed inside it. */
  datatype Result = Success(changed: bool) | Failure(error: Error) | Dead

  /** How a failure handler ends: it returns, raises an error of its own, or the process dies. */
  datatype Handled = Returned | Threw(error: Error) | Died

  datatype Reconciliation = Reconciliation(
    snapshot: Option<Snapshot>,
    inventory: Option<Live>,
    stateError: bool,
    inventoryError: bool)

  datatype DeleteGate = DeleteGate(conclusive: bool, liveAbsent: bool, expectedSnapshot: bool) {
    predicate RetrySafe() {
      conclusive && expectedSnapshot && liveAbsent
    }
  }

  function Seen(w: World): (s: Option<Snapshot>) {
    match w.file
    case Some(Whole(snapshot)) => Some(snapshot)
    case _ => None
  }

  ghost predicate Visible(w: World, snapshot: Snapshot) {
    w.file == Some(Whole(snapshot))
  }

  /** What reading the state file gives. */
  ghost predicate Loaded(w: World, current: Option<Snapshot>) {
    w.file == match current
              case None => None
              case Some(snapshot) => Some(Whole(snapshot))
  }

  /** `namespace` was created successfully somewhere in `trace[from..to]`. */
  ghost predicate CreatedBetween(trace: seq<Entry>, from: nat, to: nat, namespace: string) {
    exists j :: from <= j < to && j < |trace| && trace[j].op == MakeNamespace(namespace) && trace[j].outcome == Done
  }

  /** From `since` on, only namespaces that are `listed` or were created since `from` are ever deleted. */
  ghost predicate OwnedRemovals(trace: seq<Entry>, since: nat, from: nat, listed: set<string>) {
    forall i | since <= i < |trace| && trace[i].op.RemoveNamespace? ::
      trace[i].op.namespace in listed || CreatedBetween(trace, from, i, trace[i].op.namespace)
  }

  ghost predicate NoRemovals(trace: seq<Entry>, from: nat) {
    forall i | from <= i < |trace| :: !trace[i].op.RemoveNamespace?
  }

  ghost predicate OnlyObserves(trace: seq<Entry>, from: nat) {
    forall i | from <= i < |trace| :: trace[i].op == Observe
  }

  ghost predicate NoCreations(trace: seq<Entry>, from: nat) {
    forall i | from <= i < |trace| :: !trace[i].op.Creates()
  }

  ghost predicate NoNamespaces(trace: seq<Entry>, from: nat) {
    forall i | from <= i < |trace| :: !trace[i].op.MakeNamespace?
  }

  /** From `from` on the trace only looks and creates, and a creation fails only if all of it does. */
  ghost predicate Builds(trace: seq<Entry>, from: nat, o: Outcome) {
    forall i | from <= i < |trace| ::
      && (trace[i].op == Observe || trace[i].op.Creates())
      && (trace[i].op.Creates() && trace[i].outcome.Raised? ==> o.Raised?)
  }

  /** Every namespace that was created successfully is in the list. */
  ghost predicate AllListed(trace: seq<Entry>, from: nat, created: seq<string>) {
    forall i | from <= i < |trace| && trace[i].op.MakeNamespace? && trace[i].outcome == Done ::
      trace[i].op.namespace in created
  }

  ghost predicate FailedCreation(trace: seq<Entry>, from: nat) {
    exists i :: from <= i < |trace| && trace[i].op.Creates() && trace[i].outcome.Raised?
  }

  /** The deletion of `namespace` was attempted from `from` on. */
  ghost predicate RemovedSince(trace: seq<Entry>, from: nat, namespace: string) {
    exists j :: from <= j < |trace| && trace[j].op == RemoveNamespace(namespace)
  }

  ghost predicate AllRemoved(trace: seq<Entry>, from: nat, namespaces: seq<string>) {
    forall n | n in namespaces :: RemovedSince(trace, from, n)
  }

  ghost predicate RemovedAfter(trace: seq<Entry>, i: nat, namespace: string) {
    exists j :: i < j < |trace| && trace[j].op == RemoveNamespace(namespace)
  }

  /** Each namespace that was created successfully from `from` on was later deleted, or at least tried to. */
  ghost predicate Undone(trace: seq<Entry>, from: nat) {
    forall i | from <= i < |trace| && trace[i].op.MakeNamespace? && trace[i].outcome == Done ::
      RemovedAfter(trace, i, trace[i].op.namespace)
  }

  /** A failing effect that leaves more behind than a rollback of the created namespaces can remove. */
  ghost predicate Litters(e: Entry) {
    || (e.op.MakeNamespace? && e.outcome != Done && e.after != e.before)
    || (e.op.MakeVeth? && e.after.live.temporaries != e.before.live.temporaries)
  }

  ghost predicate NoLitter(trace: seq<Entry>, from: nat) {
    forall i | from <= i < |trace| :: !Litters(trace[i])
  }

  /** A creation failed, or the call as a whole did and it is certain what the state file holds. */
  ghost predicate Blamed(trace: seq<Entry>, from: nat, r: Result) {
    FailedCreation(trace, from) || (r.Failure? && !r.error.RequiresReconciliation())
  }

  /** A deploy that fails has taken down whatever it had built, unless it is uncertain what the state file holds. */
  ghost predicate Recovers(trace: seq<Entry>, from: nat, r: Result) {
    && (r.Failure? && Blamed(trace, from, r) ==> Undone(trace, from))
    && (r.Success? ==> !FailedCreation(trace, from))
  }

  /**
   Without litter a deploy is all or nothing: it ends fully deployed, or with nothing live. If it fails for good,
   nothing at all is left, not even a snapshot.
   */
  ghost predicate CleanEnd(trace: seq<Entry>, from: nat, r: Result, end: World) {
    NoLitter(trace, from) ==>
      && (r != Dead ==> StatusOf(end) == Some(Deployed) || (end.live == NOTHING && !end.routing))
      && (Blamed(trace, from, r) ==> r.Failure? && end == World(None, NOTHING, false))
  }

  /** Without litter a build leaves no temporaries, and no namespaces but those it created. */
  lemma {:induction false} LeftBehind(start: World, trace: seq<Entry>, end: World, from: nat, k: nat, o: Outcome,
                                      created: seq<string>)
    requires Chain(start, trace, end) && AllLegal(trace) && from <= k <= |trace|
    requires Builds(trace, from, o) && NoLitter(trace, from) && AllListed(trace, from, created)
    requires WorldAt(start, trace, from).live == NOTHING
    ensures RollsBack(created, WorldAt(start, trace, k).live)
  {
    if k > from {
      LeftBehind(start, trace, end, from, k - 1, o, created);
      ChainAt(start, trace, end, k - 1);
      var e := trace[k - 1];
      assert Legal(e) && !Litters(e);
    }
  }

  lemma StillRemoved(trace: seq<Entry>, longer: seq<Entry>, from: nat, n: string)
    requires trace <= longer && RemovedSince(trace, from, n)
    ensures RemovedSince(longer, from, n)
  {
    var j :| from <= j < |trace| && trace[j].op == RemoveNamespace(n);
    assert longer[j] == trace[j];
  }

  lemma AllStillRemoved(trace: seq<Entry>, longer: seq<Entry>, from: nat, namespaces: seq<string>)
    requires trace <= longer && AllRemoved(trace, from, namespaces)
    ensures AllRemoved(longer, from, namespaces)
  {
    forall n | n in namespaces
      ensures RemovedSince(longer, from, n)
    {
      StillRemoved(trace, longer, from, n);
    }
  }

  /** Each of these namespaces was deleted from `from` on, or at least tried to. */
  ghost predicate AllTried(trace: seq<Entry>, from: nat, namespaces: set<string>) {
    forall n | n in namespaces :: RemovedSince(trace, from, n)
  }

  lemma StillTried(trace: seq<Entry>, longer: seq<Entry>, from: nat, later: nat, namespaces: set<string>)
    requires trace <= longer && from <= later && AllTried(trace, later, namespaces)
    ensures AllTried(longer, from, namespaces)
  {
    forall n | n in namespaces
      ensures RemovedSince(longer, from, n)
    {
      StillRemoved(trace, longer, later, n);
    }
  }

  function LastNamespaces(plan: Plan, k: nat): (r: set<string>)
    requires k <= |plan.nodes|
  {
    set n | n in plan.nodes[k..] :: n.namespace
  }

  lemma OneMoreTried(plan: Plan, k: nat, trace: seq<Entry>, longer: seq<Entry>, from: nat)
    requires k < |plan.nodes| && trace <= longer && AllTried(trace, from, LastNamespaces(plan, k + 1))
    requires RemovedSince(longer, from, plan.nodes[k].namespace)
    ensures AllTried(longer, from, LastNamespaces(plan, k))
  {
    StillTried(trace, longer, from, from, LastNamespaces(plan, k + 1));
    assert plan.nodes[k..] == [plan.nodes[k]] + plan.nodes[k + 1..];
  }

  lemma EarlierRemovals(trace: seq<Entry>, from: nat, later: nat, namespaces: seq<string>)
    requires from <= later && AllRemoved(trace, later, namespaces)
    ensures AllRemoved(trace, from, namespaces)
  {
    forall n | n in namespaces
      ensures RemovedSince(trace, from, n)
    {
      assert RemovedSince(trace, later, n);
    }
  }

  /** All that was created is removed after the last creation. */
  lemma RemovalsUndo(built: seq<Entry>, trace: seq<Entry>, from: nat, created: seq<string>)
    requires built <= trace && from <= |built| && AllListed(built, from, created)
    requires NoCreations(trace, |built|) && AllRemoved(trace, |built|, created)
    ensures Undone(trace, from)
  {
    forall i | from <= i < |trace| && trace[i].op.MakeNamespace? && trace[i].outcome == Done
      ensures RemovedAfter(trace, i, trace[i].op.namespace)
    {
      assert i < |built| && trace[i] == built[i];
      assert RemovedSince(trace, |built|, trace[i].op.namespace);
    }
  }

  /** What comes before the first creation changes nothing of this. */
  lemma CalmBefore(before: seq<Entry>, trace: seq<Entry>, from: nat)
    requires before <= trace && from <= |before| && NoCreations(before, from)
    ensures FailedCreation(trace, from) <==> FailedCreation(trace, |before|)
    ensures Undone(trace, from) <==> Undone(trace, |before|)
    ensures NoLitter(trace, from) ==> NoLitter(trace, |before|)
  {
    assert forall i | from <= i < |before| :: trace[i] == before[i];
  }

  lemma LaterRecovers(before: seq<Entry>, trace: seq<Entry>, from: nat, r: Result, end: World)
    requires before <= trace && from <= |before| && NoCreations(before, from) && Recovers(trace, |before|, r)
    ensures Recovers(trace, from, r)
    ensures CleanEnd(trace, |before|, r, end) ==> CleanEnd(trace, from, r, end)
    ensures r.Success? && StatusOf(end) == Some(Deployed) ==> CleanEnd(trace, from, r, end)
  {
    CalmBefore(before, trace, from);
  }

  lemma CalmRecovers(trace: seq<Entry>, from: nat, r: Result, end: World)
    requires NoCreations(trace, from) && !r.Success?
    ensures Recovers(trace, from, r)
    ensures (end.live == NOTHING && !end.routing
             && (r.Failure? && !r.error.RequiresReconciliation() ==> end.file == None))
            ==> CleanEnd(trace, from, r, end)
  {
    NothingCreated(trace, from);
  }

  lemma NothingCreated(trace: seq<Entry>, from: nat)
    requires NoCreations(trace, from)
    ensures !FailedCreation(trace, from) && Undone(trace, from)
  {
  }

  /** The namespaces that a `deployed` snapshot lists; no other status gives a later call any right to delete. */
  ghost function Listed(w: World): (r: set<string>) {
    if StatusOf(w) == Some(Deployed) then w.file.value.snapshot.plan.Namespaces() else {}
  }

  lemma StillCreated(trace: seq<Entry>, longer: seq<Entry>, from: nat, to: nat, to': nat, namespace: string)
    requires trace <= longer && to <= to' && CreatedBetween(trace, from, to, namespace)
    ensures CreatedBetween(longer, from, to', namespace)
  {
    var j :| from <= j < to && j < |trace| && trace[j].op == MakeNamespace(namespace) && trace[j].outcome == Done;
    assert longer[j] == trace[j];
  }

  lemma SavedLegally(start: World, before: seq<Entry>, w: World, after: seq<Entry>, end: World, snapshot: Snapshot)
    requires Safe(start) && Chain(start, after, end)
    requires AllLegal(before) && before <= after
    requires OnlySaves(after, |before|, w, snapshot) && MayReplace(w, Whole(snapshot))
    ensures AllLegal(after) && Safe(end)
  {
    forall i | 0 <= i < |after|
      ensures Legal(after[i])
    {
      if i < |before| { assert after[i] == before[i]; }
    }
    SafetyOverHistory(start, after, end);
  }

  lemma UnlinkedLegally(start: World, before: seq<Entry>, w: World, after: seq<Entry>, end: World)
    requires Safe(start) && Chain(start, after, end)
    requires AllLegal(before) && before <= after
    requires OnlyUnlinks(after, |before|, w) && MayUnlink(w)
    ensures AllLegal(after) && Safe(end)
  {
    forall i | 0 <= i < |after|
      ensures Legal(after[i])
    {
      if i < |before| { assert after[i] == before[i]; }
    }
    SafetyOverHistory(start, after, end);
  }

  /** Both namespaces are there and neither endpoint is taken. */
  ghost predicate Placeable(link: Link, live: Live) {
    && link.left.port.namespace in live.namespaces && link.right.port.namespace in live.namespaces
    && link.left.port !in live.veths && link.right.port !in live.veths
  }

  /** The endpoints after a clean creation of the first `n` links, the k-th of which got id `first + k`. */
  ghost function VethsOf(links: seq<Link>, n: nat, first: nat): (r: map<Port, nat>)
    requires n <= |links|
  {
    if n == 0 then map[]
    else VethsOf(links, n - 1, first)[links[n - 1].left.port := first + n - 1][links[n - 1].right.port := first + n - 1]
  }

  ghost predicate PortsDisjoint(links: seq<Link>) {
    && (forall i | 0 <= i < |links| :: links[i].left.port != links[i].right.port)
    && (forall i, j | 0 <= i < j < |links| :: links[i].Disjoint(links[j]))
  }

  lemma {:induction false} VethsOfAt(links: seq<Link>, n: nat, first: nat, k: nat)
    requires k < n <= |links| && PortsDisjoint(links)
    ensures links[k].left.port in VethsOf(links, n, first) && links[k].right.port in VethsOf(links, n, first)
    ensures VethsOf(links, n, first)[links[k].left.port] == VethsOf(links, n, first)[links[k].right.port] == first + k
  {
    if k < n - 1 {
      VethsOfAt(links, n - 1, first, k);
      assert links[k].Disjoint(links[n - 1]);
    }
  }

  lemma {:induction false} VethsOfOnly(links: seq<Link>, n: nat, first: nat, p: Port)
    requires n <= |links|
    ensures p in VethsOf(links, n, first) ==>
              exists k | 0 <= k < n :: p == links[k].left.port || p == links[k].right.port
  {
    if n > 0 {
      VethsOfOnly(links, n - 1, first, p);
      assert p == links[n - 1].left.port || p == links[n - 1].right.port || p in VethsOf(links, n - 1, first)
             || p !in VethsOf(links, n, first);
    }
  }

  lemma NextIsNew(links: seq<Link>, n: nat, first: nat)
    requires n < |links| && PortsDisjoint(links)
    ensures links[n].left.port !in VethsOf(links, n, first) && links[n].right.port !in VethsOf(links, n, first)
  {
    VethsOfOnly(links, n, first, links[n].left.port);
    VethsOfOnly(links, n, first, links[n].right.port);
    assert forall k | 0 <= k < n :: links[k].Disjoint(links[n]);
  }

  lemma AllStillCreated(trace: seq<Entry>, longer: seq<Entry>, from: nat, namespaces: seq<string>)
    requires trace <= longer
    requires forall n | n in namespaces :: CreatedBetween(trace, from, |trace|, n)
    ensures forall n | n in namespaces :: CreatedBetween(longer, from, |longer|, n)
  {
    forall n | n in namespaces
      ensures CreatedBetween(longer, from, |longer|, n)
    {
      StillCreated(trace, longer, from, |trace|, |longer|, n);
    }
  }

  ghost predicate AllCreated(plan: Plan, trace: seq<Entry>, from: nat, namespaces: seq<string>) {
    forall n | n in namespaces :: n in plan.Namespaces() && CreatedBetween(trace, from, |trace|, n)
  }

  function FirstNamespaces(plan: Plan, k: nat): (r: set<string>)
    requires k <= |plan.nodes|
  {
    set n | n in plan.nodes[..k] :: n.namespace
  }

  lemma OneMoreNamespace(plan: Plan, k: nat)
    requires k < |plan.nodes|
    ensures FirstNamespaces(plan, k + 1) == FirstNamespaces(plan, k) + {plan.nodes[k].namespace}
  {
    assert plan.nodes[..k + 1] == plan.nodes[..k] + [plan.nodes[k]];
  }

  lemma AllNamespaces(plan: Plan)
    ensures FirstNamespaces(plan, |plan.nodes|) == plan.Namespaces()
  {
    assert plan.nodes[..|plan.nodes|] == plan.nodes;
  }

  lemma AddOwnedRemoval(trace: seq<Entry>, longer: seq<Entry>, since: nat, from: nat, listed: set<string>)
    requires trace <= longer && |longer| == |trace| + 1 && since <= |trace|
    requires OwnedRemovals(trace, since, from, listed)
    requires longer[|trace|].op.RemoveNamespace? ==>
               longer[|trace|].op.namespace in listed
                 || CreatedBetween(longer, from, |trace|, longer[|trace|].op.namespace)
    ensures OwnedRemovals(longer, since, from, listed)
  {
    forall i | since <= i < |longer| && longer[i].op.RemoveNamespace?
      ensures longer[i].op.namespace in listed || CreatedBetween(longer, from, i, longer[i].op.namespace)
    {
      if i < |trace| && longer[i].op.namespace !in listed {
        StillCreated(trace, longer, from, i, i, longer[i].op.namespace);
      }
    }
  }

  lemma ComposeRemovals(trace: seq<Entry>, longer: seq<Entry>, since: nat, from: nat, listed: set<string>)
    requires trace <= longer && since <= |trace|
    requires OwnedRemovals(trace, since, from, listed) && OwnedRemovals(longer, |trace|, from, listed)
    ensures OwnedRemovals(longer, since, from, listed)
  {
    forall i | since <= i < |longer| && longer[i].op.RemoveNamespace?
      ensures longer[i].op.namespace in listed || CreatedBetween(longer, from, i, longer[i].op.namespace)
    {
      if i < |trace| && longer[i].op.namespace !in listed {
        assert trace[i] == longer[i];
        StillCreated(trace, longer, from, i, i, longer[i].op.namespace);
      }
    }
  }

  /** Two stretches of one call, each with its own notion of what was created in it. */
  lemma JoinRemovals(trace: seq<Entry>, longer: seq<Entry>, start: nat, listed: set<string>, later: set<string>)
    requires trace <= longer && start <= |trace| && later <= listed
    requires OwnedRemovals(trace, start, start, listed)
    requires OwnedRemovals(longer, |trace|, |trace|, later)
    ensures OwnedRemovals(longer, start, start, listed)
  {
    forall i | start <= i < |longer| && longer[i].op.RemoveNamespace? && longer[i].op.namespace !in listed
      ensures CreatedBetween(longer, start, i, longer[i].op.namespace)
    {
      var n := longer[i].op.namespace;
      if i < |trace| {
        assert trace[i] == longer[i];
        StillCreated(trace, longer, start, i, i, n);
      } else {
        assert CreatedBetween(longer, |trace|, i, n);
        var j :| |trace| <= j < i && j < |longer| && longer[j].op == MakeNamespace(n) && longer[j].outcome == Done;
      }
    }
  }

  /** Deleting `created` removes everything that is live: no stray namespace and no stray root temporary. */
  ghost predicate RollsBack(created: seq<string>, live: Live) {
    live.temporaries == {} && forall n | n in live.namespaces :: n in created
  }

  /** Nothing planned is observed and nothing unplanned exists, so nothing exists. */
  lemma AbsentMeansNothing(plan: Plan, live: Live)
    requires Within(plan, live) && Absent(Observed(plan, live))
    ensures live == NOTHING
  {
    ObservedWithin(plan, live);
    assert live.veths == map[];
  }

  lemma AllPlaceable(plan: Plan, first: nat, base: Live)
    requires plan.WellFormed() && base.namespaces == plan.Namespaces()
    ensures forall i | 0 <= i < |plan.links| :: Placeable(plan.links[i], base.(veths := VethsOf(plan.links, i, first)))
  {
    forall i | 0 <= i < |plan.links|
      ensures Placeable(plan.links[i], base.(veths := VethsOf(plan.links, i, first)))
    {
      NextIsNew(plan.links, i, first);
    }
  }

  lemma AllLinked(plan: Plan, first: nat)
    requires PortsDisjoint(plan.links)
    ensures VethsOf(plan.links, |plan.links|, first).Keys == plan.Ports()
    ensures LinksMatch(plan, VethsOf(plan.links, |plan.links|, first))
  {
    var veths := VethsOf(plan.links, |plan.links|, first);
    forall p | p in veths
      ensures p in plan.Ports()
    {
      VethsOfOnly(plan.links, |plan.links|, first, p);
    }
    forall k | 0 <= k < |plan.links|
      ensures plan.links[k].left.port in veths && plan.links[k].right.port in veths
      ensures veths[plan.links[k].left.port] == veths[plan.links[k].right.port] == first + k
    {
      VethsOfAt(plan.links, |plan.links|, first, k);
    }
    assert forall l | l in plan.links :: l.left.port in veths && l.right.port in veths;
  }

  class LifecycleService {
    const host: Host
    const store: StateStore

    constructor (host: Host)
      ensures this.host == host && store.host == host
    {
      this.host := host;
      store := new StateStore(host);
    }

    ghost predicate Valid()
      reads this, host
    {
      store.host == host && host.Valid()
    }

    // Saving and deleting under the protocol.

    method Save(snapshot: Snapshot) returns (o: Outcome)
      requires Valid() && MayReplace(host.Now(), Whole(snapshot))
      modifies host`faults, host`trace, host`temporary, host`file
      ensures Valid() && old(host.trace) <= host.trace
      ensures NoRemovals(host.trace, |old(host.trace)|)
              && NoCreations(host.trace, |old(host.trace)|)
      ensures host.file == old(host.file) || host.file == Some(Whole(snapshot))
      ensures o == Done ==> host.file == Some(Whole(snapshot))
      ensures o.Raised? && !o.error.RequiresReconciliation() ==> host.file == old(host.file)
      ensures o.Raised? ==> o.error.Injectable()
                            || o.error in {Coded(StateWriteFailed), Coded(CommitOutcomeUnknown),
                               Coded(DurabilityUncertain)}
      ensures host.faults == old(host.faults) ==> o == Done
      ensures host.faults <= old(host.faults)
    {
      o := store.Save(snapshot);
      SavedLegally(host.origin, old(host.trace), old(host.Now()), host.trace, host.Now(), snapshot);
    }

    method Delete() returns (o: Outcome)
      requires Valid() && MayUnlink(host.Now())
      modifies host`faults, host`trace, host`file
      ensures Valid() && old(host.trace) <= host.trace
      ensures NoRemovals(host.trace, |old(host.trace)|)
              && NoCreations(host.trace, |old(host.trace)|)
      ensures host.file == old(host.file) || host.file == None
      ensures o == Done ==> host.file == None
      ensures o == Raised(Coded(DurabilityUncertain)) ==> host.file == None
      ensures o.Raised? ==>
                o.error in {Coded(CommitOutcomeUnknown), Coded(DurabilityUncertain)} || o.error.Interruption()
      ensures host.faults == old(host.faults) ==> o == Done
      ensures host.faults <= old(host.faults)
    {
      o := store.Delete();
      UnlinkedLegally(host.origin, old(host.trace), old(host.Now()), host.trace, host.Now());
    }

    /** Reads state and inventory after an uncertain outcome; errors of either are remembered, not raised. */
    method Reconcile(plan: Plan) returns (died: bool, r: Reconciliation)
      requires Valid()
      modifies host`faults, host`trace
      ensures Valid() && old(host.trace) <= host.trace
      ensures host.Now() == old(host.Now())
      ensures OnlyObserves(host.trace, |old(host.trace)|)
      ensures !died && !r.stateError ==> r.snapshot == Seen(host.Now())
      ensures !died && r.stateError ==> r.snapshot == None
      ensures !died && !r.inventoryError ==> r.inventory == Some(Observed(plan, host.live))
      ensures !died && r.inventoryError ==> r.inventory == None
      ensures host.faults == old(host.faults) && host.file != Some(Torn) ==> !died && !r.stateError && !r.inventoryError
      ensures host.faults <= old(host.faults)
    {
      r := Reconciliation(None, None, true, true);
      var o, current := store.Load();
      if o == Killed {
        return true, r;
      }
      if o == Done {
        r := r.(snapshot := current, stateError := false);
      }
      var inventory;
      o, inventory := host.Inventory(plan);
      if o == Done {
        r := r.(inventory := Some(inventory), inventoryError := false);
      }
      died := o == Killed;
    }

    method Gate(plan: Plan, expected: Snapshot) returns (died: bool, gate: DeleteGate)
      requires Valid()
      modifies host`faults, host`trace
      ensures Valid() && old(host.trace) <= host.trace
      ensures host.Now() == old(host.Now())
      ensures OnlyObserves(host.trace, |old(host.trace)|)
      ensures !died && gate.RetrySafe() ==> Visible(host.Now(), expected) && Absent(Observed(plan, host.live))
      ensures (host.faults == old(host.faults) && Visible(host.Now(), expected)
               && Absent(Observed(plan, host.live)))
              ==> !died && gate.RetrySafe()
      ensures host.faults <= old(host.faults)
    {
      var r;
      died, r := Reconcile(plan);
      gate := DeleteGate(
        !r.stateError && !r.inventoryError,
        r.inventory.Some? && Absent(r.inventory.value),
        r.snapshot == Some(expected));
    }

    /** The write-ahead save; an uncertain outcome is reconciled for the report only. */
    method SaveInitialTransition(snapshot: Snapshot) returns (o: Outcome)
      requires Valid() && MayReplace(host.Now(), Whole(snapshot))
      modifies host`faults, host`trace, host`temporary, host`file
      ensures Valid() && old(host.trace) <= host.trace
      ensures NoRemovals(host.trace, |old(host.trace)|)
              && NoCreations(host.trace, |old(host.trace)|)
      ensures host.file == old(host.file) || host.file == Some(Whole(snapshot))
      ensures o == Done ==> host.file == Some(Whole(snapshot))
      ensures o.Raised? && !o.error.RequiresReconciliation() ==> host.file == old(host.file)
      ensures o.Raised? ==> o.error.Injectable()
                            || o.error in {Coded(StateWriteFailed), Coded(CommitOutcomeUnknown),
                               Coded(DurabilityUncertain)}
      ensures host.faults == old(host.faults) ==> o == Done
      ensures host.faults <= old(host.faults)
    {
      o := Save(snapshot);
      if o.Raised? && o.error.RequiresReconciliation() {
        var died, r := Reconcile(snapshot.plan);
        if died {
          o := Killed;
        }
      }
    }

    // The try block of a deploy.

    /** A deploy of `plan` is under way: its `deploying` snapshot is the visible one. */
    ghost predicate Building(plan: Plan, snapshot: Snapshot)
      reads host
    {
      Visible(host.Now(), snapshot) && snapshot.status == Deploying && snapshot.plan == plan
    }

    /** The call respected the protocol, deleted nothing and left the `deploying` snapshot in place. */
    twostate predicate Built(plan: Plan, snapshot: Snapshot, o: Outcome)
      reads this, host
    {
      && Valid() && Building(plan, snapshot)
      && old(host.trace) <= host.trace && Builds(host.trace, |old(host.trace)|, o)
      && host.faults <= old(host.faults)
      && (o.Raised? ==> o.error.Injectable())
    }

    /** The same for what comes after the namespaces. */
    twostate predicate Furnished(plan: Plan, snapshot: Snapshot, o: Outcome)
      reads this, host
    {
      Built(plan, snapshot, o) && NoNamespaces(host.trace, |old(host.trace)|)
    }

    method MakeNamespace(plan: Plan, ghost snapshot: Snapshot, namespace: string) returns (o: Outcome)
      requires Valid() && Building(plan, snapshot) && namespace in plan.Namespaces()
      modifies host`faults, host`trace, host`live
      ensures Built(plan, snapshot, o)
      ensures AllListed(host.trace, |old(host.trace)|, if o == Done then [namespace] else [])
      ensures o == Done ==> CreatedBetween(host.trace, |old(host.trace)|, |host.trace|, namespace)
      ensures host.faults == old(host.faults) && namespace !in old(host.live).namespaces ==>
                o == Done && host.live == old(host.live).(namespaces := old(host.live).namespaces + {namespace})
    {
      o := host.CreateNamespace(namespace);
      assert host.trace[|old(host.trace)|].op == Op.MakeNamespace(namespace);
    }

    method MakeBridge(plan: Plan, ghost snapshot: Snapshot, namespace: string) returns (o: Outcome)
      requires Valid() && Building(plan, snapshot) && namespace in plan.Bridges()
      modifies host`faults, host`trace, host`live
      ensures Furnished(plan, snapshot, o)
      ensures host.faults == old(host.faults)
              && namespace in old(host.live).namespaces && namespace !in old(host.live).bridges ==>
                o == Done && host.live == old(host.live).(bridges := old(host.live).bridges + {namespace})
    {
      o := host.CreateBridge(namespace);
      assert Legal(host.trace[|old(host.trace)|]);
    }

    method MakeVeth(plan: Plan, ghost snapshot: Snapshot, link: Link) returns (o: Outcome)
      requires Valid() && Building(plan, snapshot) && link in plan.links
      modifies host`faults, host`trace, host`live, host`nextLink
      ensures Furnished(plan, snapshot, o)
      ensures host.nextLink == old(host.nextLink) + 1
      ensures host.faults == old(host.faults)
              && Placeable(link, old(host.live)) ==>
                && o == Done
                && host.live == old(host.live).(veths := WithEnds(old(host.live).veths, link, old(host.nextLink)))
    {
      o := host.CreateVeth(link);
      assert link.left.port in plan.Ports() && link.right.port in plan.Ports();
      assert link.left.temporary in plan.Temporaries() && link.right.temporary in plan.Temporaries();
      assert Legal(host.trace[|old(host.trace)|]);
    }

    method SetUp(plan: Plan, ghost snapshot: Snapshot, namespace: string) returns (o: Outcome)
      requires Valid() && Building(plan, snapshot) && namespace in plan.Namespaces()
      modifies host`faults, host`trace, host`live
      ensures Furnished(plan, snapshot, o)
      ensures host.faults == old(host.faults) && namespace in old(host.live).namespaces ==>
                o == Done && host.live == old(host.live).(configured := old(host.live).configured + {namespace})
    {
      o := host.Configure(namespace);
      assert Legal(host.trace[|old(host.trace)|]);
    }

    method CreateNamespaces(plan: Plan, ghost snapshot: Snapshot) returns (o: Outcome, created: seq<string>)
      requires Valid() && Building(plan, snapshot)
      modifies host`faults, host`trace, host`live
      ensures Built(plan, snapshot, o)
      ensures AllCreated(plan, host.trace, |old(host.trace)|, created)
      ensures AllListed(host.trace, |old(host.trace)|, created)
      ensures host.faults == old(host.faults) && plan.WellFormed() && old(host.live) == NOTHING ==>
                o == Done && host.live == NOTHING.(namespaces := plan.Namespaces())
    {
      o, created := Done, [];
      for i := 0 to |plan.nodes|
        invariant Built(plan, snapshot, o)
        invariant AllCreated(plan, host.trace, |old(host.trace)|, created)
        invariant AllListed(host.trace, |old(host.trace)|, created)
        invariant o == Done
        invariant host.faults == old(host.faults) && plan.WellFormed() && old(host.live) == NOTHING ==>
                    host.live == NOTHING.(namespaces := FirstNamespaces(plan, i))
      {
        var node := plan.nodes[i];
        ghost var before := host.trace;
        o := MakeNamespace(plan, snapshot, node.namespace);
        AllStillCreated(before, host.trace, |old(host.trace)|, created);
        if o != Done {
          return;
        }
        OneMoreNamespace(plan, i);
        created := created + [node.namespace];
      }
      AllNamespaces(plan);
    }

    method CreateBridges(plan: Plan, ghost snapshot: Snapshot) returns (o: Outcome)
      requires Valid() && Building(plan, snapshot)
      modifies host`faults, host`trace, host`live
      ensures Furnished(plan, snapshot, o)
      ensures host.faults == old(host.faults) && plan.WellFormed()
              && old(host.live) == NOTHING.(namespaces := plan.Namespaces()) ==>
                o == Done && host.live == NOTHING.(namespaces := plan.Namespaces(), bridges := plan.Bridges())
    {
      o := Done;
      for i := 0 to |plan.nodes|
        invariant Furnished(plan, snapshot, o)
        invariant o == Done
        invariant host.faults == old(host.faults) && plan.WellFormed()
                  && old(host.live) == NOTHING.(namespaces := plan.Namespaces()) ==>
                    host.live == NOTHING.(namespaces := plan.Namespaces(),
                                          bridges := set n | n in plan.nodes[..i] && n.bridge :: n.namespace)
      {
        var node := plan.nodes[i];
        assert plan.nodes[..i + 1] == plan.nodes[..i] + [node];
        if node.bridge {
          o := MakeBridge(plan, snapshot, node.namespace);
          if o != Done {
            return;
          }
        }
      }
      assert plan.nodes[..|plan.nodes|] == plan.nodes;
    }

    /** `live` is `base` plus the cleanly created first `n` links. */
    ghost predicate LinkedSoFar(plan: Plan, n: nat, first: nat, base: Live, live: Live)
      requires n <= |plan.links|
    {
      live == base.(veths := VethsOf(plan.links, n, first))
    }

    method CreateLink(plan: Plan, ghost snapshot: Snapshot, i: nat, ghost first: nat, ghost base: Live,
                      ghost clean: bool)
      returns (o: Outcome)
      requires Valid() && Building(plan, snapshot) && i < |plan.links| && host.nextLink == first + i
      requires clean ==> LinkedSoFar(plan, i, first, base, host.live) && Placeable(plan.links[i], host.live)
      modifies host`faults, host`trace, host`live, host`nextLink
      ensures Furnished(plan, snapshot, o)
      ensures host.nextLink == first + i + 1
      ensures host.faults == old(host.faults) && clean ==> o == Done && LinkedSoFar(plan, i + 1, first, base, host.live)
    {
      o := MakeVeth(plan, snapshot, plan.links[i]);
    }

    method CreateEachLink(plan: Plan, ghost snapshot: Snapshot, ghost first: nat, ghost base: Live, ghost clean: bool)
      returns (o: Outcome)
      requires Valid() && Building(plan, snapshot) && host.nextLink == first && host.live == base
      requires clean ==> base.veths == map[]
      requires clean ==> forall i | 0 <= i < |plan.links| ::
                           Placeable(plan.links[i], base.(veths := VethsOf(plan.links, i, first)))
      modifies host`faults, host`trace, host`live, host`nextLink
      ensures Furnished(plan, snapshot, o)
      ensures host.faults == old(host.faults) && clean ==>
                o == Done && LinkedSoFar(plan, |plan.links|, first, base, host.live)
    {
      o := Done;
      for i := 0 to |plan.links|
        invariant Furnished(plan, snapshot, o)
        invariant o == Done && host.nextLink == first + i
        invariant host.faults == old(host.faults) && clean ==> LinkedSoFar(plan, i, first, base, host.live)
      {
        o := CreateLink(plan, snapshot, i, first, base, host.faults == old(host.faults) && clean);
        if o != Done {
          return;
        }
      }
    }

    method CreateLinks(plan: Plan, ghost snapshot: Snapshot) returns (o: Outcome)
      requires Valid() && Building(plan, snapshot)
      modifies host`faults, host`trace, host`live, host`nextLink
      ensures Furnished(plan, snapshot, o)
      ensures host.faults == old(host.faults) && plan.WellFormed()
              && old(host.live) == NOTHING.(namespaces := plan.Namespaces(), bridges := plan.Bridges()) ==>
                && o == Done && host.live == old(host.live).(veths := host.live.veths)
                && host.live.veths.Keys == plan.Ports() && LinksMatch(plan, host.live.veths)
    {
      ghost var clean := plan.WellFormed() && host.live.namespaces == plan.Namespaces() && host.live.veths == map[];
      if clean {
        AllPlaceable(plan, host.nextLink, host.live);
        AllLinked(plan, host.nextLink);
      }
      o := CreateEachLink(plan, snapshot, host.nextLink, host.live, clean);
    }

    method ConfigureNodes(plan: Plan, ghost snapshot: Snapshot) returns (o: Outcome)
      requires Valid() && Building(plan, snapshot)
      modifies host`faults, host`trace, host`live
      ensures Furnished(plan, snapshot, o)
      ensures host.faults == old(host.faults)
              && old(host.live.namespaces == plan.Namespaces() && host.live.configured == {}) ==>
                o == Done && host.live == old(host.live).(configured := plan.Namespaces())
    {
      o := Done;
      for i := 0 to |plan.nodes|
        invariant Furnished(plan, snapshot, o)
        invariant o == Done
        invariant host.faults == old(host.faults)
                  && old(host.live.namespaces == plan.Namespaces() && host.live.configured == {}) ==>
                    host.live == old(host.live).(configured := set n | n in plan.nodes[..i] :: n.namespace)
      {
        var node := plan.nodes[i];
        assert plan.nodes[..i + 1] == plan.nodes[..i] + [node];
        o := SetUp(plan, snapshot, node.namespace);
        if o != Done {
          return;
        }
      }
      assert plan.nodes[..|plan.nodes|] == plan.nodes;
    }

    method LaunchRouting(plan: Plan, ghost snapshot: Snapshot) returns (o: Outcome)
      requires Valid() && Building(plan, snapshot)
      modifies host`faults, host`trace, host`routing
      ensures Furnished(plan, snapshot, o)
      ensures host.faults == old(host.faults) ==>
                o == Done && (host.routing <==> old(host.routing) || plan.HasRouting())
    {
      o := Done;
      if plan.HasRouting() {
        o := host.StartRouting();
        assert Legal(host.trace[|old(host.trace)|]);
      }
    }

    /** The live check before the `deployed` snapshot: inventory first, then the daemons. */
    method Verify(plan: Plan, ghost snapshot: Snapshot) returns (o: Outcome, inventory: Live, verified: bool)
      requires Valid() && Building(plan, snapshot)
      modifies host`faults, host`trace
      ensures Furnished(plan, snapshot, o)
      ensures o == Done && verified ==>
                inventory == host.live && Matches(plan, host.live) && host.routing == plan.HasRouting()
      ensures host.faults == old(host.faults) && Matches(plan, host.live) && host.routing == plan.HasRouting() ==>
                o == Done && verified
    {
      verified := false;
      o, inventory := host.Inventory(plan);
      ObservedWithin(plan, host.live);
      if o == Done && Matches(plan, inventory) {
        var ready;
        o, ready := RoutingReady(plan);
        verified := o == Done && ready;
      }
    }

    method RoutingReady(plan: Plan) returns (o: Outcome, ready: bool)
      requires Valid()
      modifies host`faults, host`trace
      ensures Valid() && old(host.trace) <= host.trace && OnlyObserves(host.trace, |old(host.trace)|)
      ensures host.Now() == old(host.Now())
      ensures o == Done ==> (ready <==> (plan.HasRouting() ==> host.routing))
      ensures o.Raised? ==> o.error.Injectable()
      ensures host.faults == old(host.faults) ==> o == Done
      ensures host.faults <= old(host.faults)
    {
      o, ready := Done, true;
      if plan.HasRouting() {
        o := host.Aside();
        ready := host.routing;
      }
    }

    /** The try block from bridges over links to configuration. */
    method BuildNetwork(plan: Plan, ghost snapshot: Snapshot) returns (o: Outcome)
      requires Valid() && Building(plan, snapshot)
      modifies host`faults, host`trace, host`live, host`nextLink
      ensures Furnished(plan, snapshot, o) && host.routing == old(host.routing)
      ensures host.faults == old(host.faults) && plan.WellFormed()
              && old(host.live) == NOTHING.(namespaces := plan.Namespaces()) ==>
                o == Done && Matches(plan, host.live)
    {
      o := CreateBridges(plan, snapshot);
      if o == Done {
        o := CreateLinks(plan, snapshot);
      }
      if o == Done {
        o := ConfigureNodes(plan, snapshot);
      }
    }

    /** The try block after the namespaces: the network, the daemons, the verification. */
    method Finish(plan: Plan, ghost snapshot: Snapshot) returns (o: Outcome, inventory: Live, verified: bool)
      requires Valid() && Building(plan, snapshot)
      modifies host`faults, host`trace, host`live, host`nextLink, host`routing
      ensures Furnished(plan, snapshot, o)
      ensures o == Done && verified ==>
                inventory == host.live && Matches(plan, host.live) && host.routing == plan.HasRouting()
      ensures (host.faults == old(host.faults) && plan.WellFormed() && !old(host.routing)
               && old(host.live) == NOTHING.(namespaces := plan.Namespaces()))
              ==> o == Done && verified
    {
      inventory, verified := NOTHING, false;
      o := BuildNetwork(plan, snapshot);
      if o == Done {
        o := LaunchRouting(plan, snapshot);
      }
      if o == Done {
        o, inventory, verified := Verify(plan, snapshot);
      }
    }

    /** The whole try block; a failed verification raises an error of its own. */
    method Build(plan: Plan, ghost snapshot: Snapshot) returns (o: Outcome, created: seq<string>, inventory: Live)
      requires Valid() && Building(plan, snapshot)
      modifies host`faults, host`trace, host`live, host`nextLink, host`routing
      ensures Valid() && Building(plan, snapshot)
      ensures old(host.trace) <= host.trace && Builds(host.trace, |old(host.trace)|, o)
      ensures AllListed(host.trace, |old(host.trace)|, created)
      ensures forall n | n in created ::
                n in plan.Namespaces() && CreatedBetween(host.trace, |old(host.trace)|, |host.trace|, n)
      ensures o == Done ==> inventory == host.live && Matches(plan, host.live) && host.routing == plan.HasRouting()
      ensures o.Raised? ==> o.error.Injectable() || o.error == Coded(VerificationFailed)
      ensures host.faults <= old(host.faults)
      ensures host.faults == old(host.faults) && plan.WellFormed()
              && old(host.live) == NOTHING && !old(host.routing) ==>
                o == Done
    {
      inventory := NOTHING;
      o, created := CreateNamespaces(plan, snapshot);
      if o == Done {
        ghost var made := host.trace;
        var verified;
        o, inventory, verified := Finish(plan, snapshot);
        AllStillCreated(made, host.trace, |old(host.trace)|, created);
        if o == Done && !verified {
          o := Raised(Coded(VerificationFailed));
        }
      }
    }

    // Rollback.

    /**
     Removes the `deploying` snapshot after a clean rollback; `removed` means that no snapshot is visible any
     more.
     */
    method RemoveRollbackState(plan: Plan, deploying: Snapshot) returns (h: Handled, removed: bool)
      requires Valid() && Building(plan, deploying) && MayUnlink(host.Now())
      modifies host`faults, host`trace, host`file
      ensures Valid() && old(host.trace) <= host.trace && NoRemovals(host.trace, |old(host.trace)|)
              && NoCreations(host.trace, |old(host.trace)|)
      ensures host.file == old(host.file) || host.file == None
      ensures h == Returned && removed ==> host.file == None
      ensures h.Threw? ==> h.error.Interruption()
      ensures host.faults == old(host.faults) ==> h == Returned && removed
      ensures host.faults <= old(host.faults)
    {
      removed := false;
      var o, current := store.Load();
      if o == Killed {
        return Died, false;
      }
      if o.Raised? {
        return Returned, false;
      }
      if current == None {
        return Returned, true;
      }
      if current != Some(deploying) {
        return Returned, false;
      }
      o := Delete();
      if o == Killed {
        return Died, false;
      }
      if o == Done {
        return Returned, true;
      }
      h, removed := ReconcileDelete(o.error, plan, deploying);
    }

    /**
     After a failed delete of an unowned snapshot: a second delete only for an uncertain outcome, and
     only if the snapshot is still the expected one over no live resources. An interruption of that
     second delete is raised in place of the original error.
     */
    method ReconcileDelete(error: Error, plan: Plan, expected: Snapshot) returns (h: Handled, removed: bool)
      requires Valid() && expected.plan == plan
      requires host.file == None || (Visible(host.Now(), expected) && MayUnlink(host.Now()))
      modifies host`faults, host`trace, host`file
      ensures Valid() && old(host.trace) <= host.trace && NoRemovals(host.trace, |old(host.trace)|)
              && NoCreations(host.trace, |old(host.trace)|)
      ensures host.file == old(host.file) || host.file == None
      ensures h == Returned && removed ==> host.file == None
      ensures h.Threw? ==> h.error.Interruption()
      ensures (host.faults == old(host.faults) && error.RequiresReconciliation() && !error.Interruption()
               && old(host.file).Some?)
              ==> h == Returned && removed
      ensures host.faults <= old(host.faults)
    {
      removed := false;
      if !error.RequiresReconciliation() {
        return Returned, false;
      }
      var died, gate := Gate(plan, expected);
      if died {
        return Died, false;
      }
      if error.Interruption() || !gate.RetrySafe() {
        return Returned, false;
      }
      var o := Delete();
      if o == Done {
        return Returned, true;
      }
      if o == Killed {
        return Died, false;
      }
      // Every other error of the second delete also ends in a report of what is visible now.
      if o.error.RequiresReconciliation() {
        died, gate := Gate(plan, expected);
        if died {
          return Died, false;
        }
      }
      h := if o.error.Interruption() then Threw(o.error) else Returned;
    }

    /** One step of a rollback: `names` are the namespaces whose deletion was attempted since `start`. */
    method RemoveCreated(plan: Plan, ghost deploying: Snapshot, namespace: string, ghost names: seq<string>,
                         ghost start: nat, ghost from: nat)
      returns (o: Outcome)
      requires Valid() && Building(plan, deploying) && namespace in plan.Namespaces() && start <= |host.trace|
      requires CreatedBetween(host.trace, from, |host.trace|, namespace)
      requires OwnedRemovals(host.trace, start, from, {}) && NoCreations(host.trace, start)
      requires AllRemoved(host.trace, start, names)
      modifies host`faults, host`trace, host`live
      ensures Valid() && Building(plan, deploying)
      ensures |host.trace| == |old(host.trace)| + 1 && old(host.trace) <= host.trace
      ensures OwnedRemovals(host.trace, start, from, {}) && NoCreations(host.trace, start)
      ensures AllRemoved(host.trace, start, [namespace] + names)
      ensures Shrinks(old(host.live), host.live) && host.routing == old(host.routing)
      ensures host.live.temporaries == old(host.live).temporaries
      ensures host.faults <= old(host.faults)
      ensures host.faults == old(host.faults) ==>
                && host.live.namespaces == old(host.live).namespaces - {namespace}
                && (o == Done || o == Raised(Coded(ResourceMissing)))
    {
      ghost var before := host.trace;
      o := Remove(plan, deploying, namespace);
      StillCreated(before, host.trace, from, |before|, |before|, namespace);
      AddOwnedRemoval(before, host.trace, start, from, {});
      AllStillRemoved(before, host.trace, start, names);
      assert RemovedSince(host.trace, start, namespace);
    }

    /** Deletes the namespaces this call created, newest first, whatever each deletion returns. */
    method RollbackNamespaces(plan: Plan, created: seq<string>, ghost deploying: Snapshot, ghost from: nat)
      returns (died: bool, failed: bool)
      requires Valid() && Building(plan, deploying)
      requires forall n | n in created :: n in plan.Namespaces() && CreatedBetween(host.trace, from, |host.trace|, n)
      modifies host`faults, host`trace, host`live
      ensures Valid() && old(host.trace) <= host.trace && Building(plan, deploying)
      ensures OwnedRemovals(host.trace, |old(host.trace)|, from, {}) && NoCreations(host.trace, |old(host.trace)|)
      ensures !died ==> AllRemoved(host.trace, |old(host.trace)|, created)
      ensures Shrinks(old(host.live), host.live) && host.routing == old(host.routing)
      ensures host.live.temporaries == old(host.live).temporaries
      ensures host.faults <= old(host.faults)
      ensures host.faults == old(host.faults) ==>
                !died && !failed && host.live.namespaces == old(host.live).namespaces - set n | n in created
    {
      died, failed := false, false;
      var i := |created|;
      while i > 0
        invariant 0 <= i <= |created|
        invariant Valid() && old(host.trace) <= host.trace && Building(plan, deploying)
        invariant OwnedRemovals(host.trace, |old(host.trace)|, from, {}) && NoCreations(host.trace, |old(host.trace)|)
        invariant AllRemoved(host.trace, |old(host.trace)|, created[i..])
        invariant Shrinks(old(host.live), host.live) && host.routing == old(host.routing)
        invariant host.live.temporaries == old(host.live).temporaries
        invariant host.faults <= old(host.faults) && !died
        invariant host.faults == old(host.faults) ==>
                    !failed && host.live.namespaces == old(host.live).namespaces - set n | n in created[i..]
      {
        i := i - 1;
        assert created[i..] == [created[i]] + created[i + 1..];
        StillCreated(old(host.trace), host.trace, from, |old(host.trace)|, |host.trace|, created[i]);
        var o := RemoveCreated(plan, deploying, created[i], created[i + 1..], |old(host.trace)|, from);
        if o == Killed {
          died := true;
          return;
        }
        if o != Done && o != Raised(Coded(ResourceMissing)) {
          failed := true;
        }
      }
    }

    /** One namespace deletion under a visible `deploying` or `destroying` snapshot of `plan`. */
    method Remove(plan: Plan, ghost snapshot: Snapshot, namespace: string) returns (o: Outcome)
      requires Valid() && Visible(host.Now(), snapshot) && snapshot.plan == plan && snapshot.status != Deployed
      requires namespace in plan.Namespaces()
      modifies host`faults, host`trace, host`live
      ensures Valid() && Visible(host.Now(), snapshot)
      ensures |host.trace| == |old(host.trace)| + 1 && old(host.trace) <= host.trace
      ensures host.trace[|old(host.trace)|].op == RemoveNamespace(namespace)
      ensures Shrinks(old(host.live), host.live) && host.routing == old(host.routing)
      ensures host.live.temporaries == old(host.live).temporaries
      ensures o.Raised? ==> o.error.Injectable()
      ensures host.faults <= old(host.faults)
      ensures host.faults == old(host.faults) ==>
                && host.live.namespaces == old(host.live).namespaces - {namespace}
                && (o == Done || o == Raised(Coded(ResourceMissing)))
    {
      o := host.DeleteNamespace(namespace);
      assert Legal(host.trace[|old(host.trace)|]);
    }

    /** Stopping the daemons of a plan that has any, under any status but `deployed`. */
    method HaltRouting(plan: Plan) returns (o: Outcome)
      requires Valid() && StatusOf(host.Now()) != Some(Deployed)
      modifies host`faults, host`trace, host`routing
      ensures Valid() && old(host.trace) <= host.trace && NoRemovals(host.trace, |old(host.trace)|)
              && NoCreations(host.trace, |old(host.trace)|)
      ensures host.routing ==> old(host.routing)
      ensures o == Done ==> !host.routing || (old(host.routing) && !plan.HasRouting())
      ensures plan.HasRouting() ==> |host.trace| > 0 && host.trace[|host.trace| - 1].op == Op.HaltRouting
      ensures o.Raised? ==> o.error.Injectable()
      ensures host.faults == old(host.faults) ==> o == Done
      ensures host.faults <= old(host.faults)
    {
      o := Done;
      if plan.HasRouting() {
        o := host.StopRouting();
        assert Legal(host.trace[|old(host.trace)|]);
      }
    }

    /** Daemons, created namespaces, then the inventory: `clean` only if all succeeded and nothing is left. */
    method TearDown(plan: Plan, created: seq<string>, ghost deploying: Snapshot, ghost from: nat)
      returns (died: bool, clean: bool)
      requires Valid() && Building(plan, deploying)
      requires forall n | n in created :: n in plan.Namespaces() && CreatedBetween(host.trace, from, |host.trace|, n)
      modifies host`faults, host`trace, host`live, host`routing
      ensures Valid() && old(host.trace) <= host.trace && Building(plan, deploying)
      ensures OwnedRemovals(host.trace, |old(host.trace)|, from, {}) && NoCreations(host.trace, |old(host.trace)|)
      ensures !died ==> AllRemoved(host.trace, |old(host.trace)|, created)
      ensures clean ==> host.live == NOTHING && !host.routing
      ensures host.faults <= old(host.faults)
      ensures host.faults == old(host.faults) && RollsBack(created, old(host.live)) ==> !died && clean
    {
      clean := false;
      var halt := HaltRouting(plan);
      if halt == Killed {
        return true, false;
      }
      ghost var halted := host.trace;
      AllStillCreated(old(host.trace), halted, from, created);
      var stuck;
      died, stuck := RollbackNamespaces(plan, created, deploying, from);
      ComposeRemovals(halted, host.trace, |old(host.trace)|, from, {});
      if died {
        return;
      }
      ghost var rolled := host.trace;
      var o, inventory := host.Inventory(plan);
      EarlierRemovals(rolled, |old(host.trace)|, |halted|, created);
      AllStillRemoved(rolled, host.trace, |old(host.trace)|, created);
      ComposeRemovals(rolled, host.trace, |old(host.trace)|, from, {});
      died := o == Killed;
      clean := o == Done && halt == Done && !stuck && Absent(inventory);
      if clean {
        AbsentMeansNothing(plan, host.live);
      }
    }

    /**
     Undoes a failed deploy: daemons, the namespaces this call created, then, only if all of that
     succeeded and nothing is left, the `deploying` snapshot. `complete` is reported to the user.
     */
    method Rollback(plan: Plan, created: seq<string>, deploying: Snapshot, ghost from: nat)
      returns (h: Handled, complete: bool)
      requires Valid() && Building(plan, deploying)
      requires forall n | n in created :: n in plan.Namespaces() && CreatedBetween(host.trace, from, |host.trace|, n)
      modifies host`faults, host`trace, host`live, host`routing, host`file
      ensures Valid() && old(host.trace) <= host.trace
      ensures OwnedRemovals(host.trace, |old(host.trace)|, from, {}) && NoCreations(host.trace, |old(host.trace)|)
      ensures h != Died ==> AllRemoved(host.trace, |old(host.trace)|, created)
      ensures Building(plan, deploying) || host.file == None
      ensures h == Returned && complete ==> host.Now() == World(None, NOTHING, false)
      ensures h.Threw? ==> h.error.Interruption()
      ensures host.faults <= old(host.faults)
      ensures host.faults == old(host.faults) && RollsBack(created, old(host.live)) ==> h == Returned && complete
    {
      var died, clean := TearDown(plan, created, deploying, from);
      if died {
        return Died, false;
      }
      if !clean {
        return Returned, false;
      }
      ghost var torn := host.trace;
      h, complete := RemoveRollbackState(plan, deploying);
      ComposeRemovals(torn, host.trace, |old(host.trace)|, from, {});
    }

    // Deploy.

    /**
     The `deployed` save failed. Live resources are torn down only if it is certain that the `deployed`
     snapshot is not the visible one.
     */
    method HandleFinalSaveFailure(error: Error, plan: Plan, created: seq<string>, deploying: Snapshot, ghost from: nat)
      returns (h: Handled)
      requires Valid() && deploying.status == Deploying && deploying.plan == plan
      requires Visible(host.Now(), deploying)
               || (error.RequiresReconciliation() && StatusOf(host.Now()) == Some(Deployed)
                   && host.file.value.snapshot.plan == plan)
      requires forall n | n in created :: n in plan.Namespaces() && CreatedBetween(host.trace, from, |host.trace|, n)
      modifies host`faults, host`trace, host`live, host`routing, host`file
      ensures Valid() && old(host.trace) <= host.trace
      ensures OwnedRemovals(host.trace, |old(host.trace)|, from, {}) && NoCreations(host.trace, |old(host.trace)|)
      ensures h != Died && !error.RequiresReconciliation() ==> AllRemoved(host.trace, |old(host.trace)|, created)
      ensures (host.faults == old(host.faults) && old(StatusOf(host.Now())) == Some(Deploying)
               && RollsBack(created, old(host.live)))
              ==> h == Returned && host.Now() == World(None, NOTHING, false)
      ensures old(StatusOf(host.Now())) == Some(Deployed) ==> host.Now() == old(host.Now())
      ensures old(StatusOf(host.Now())) == Some(Deploying) ==> Visible(host.Now(), deploying) || host.file == None
      ensures h.Threw? ==> h.error.Interruption()
      ensures host.faults <= old(host.faults)
    {
      if error.RequiresReconciliation() {
        var died, r := Reconcile(plan);
        if died {
          return Died;
        }
        if r.stateError || r.inventoryError {
          return Returned;
        }
        if r.snapshot.Some? && r.snapshot.value.plan == plan && r.snapshot.value.status == Deployed {
          return Returned;
        }
      }
      ghost var reconciled := host.trace;
      AllStillCreated(old(host.trace), reconciled, from, created);
      var complete;
      h, complete := Rollback(plan, created, deploying, from);
      ComposeRemovals(reconciled, host.trace, |old(host.trace)|, from, {});
    }

    /** The branch of a deploy that found a `deployed` snapshot of the same plan: an idempotent success. */
    method ConfirmDeployed(plan: Plan, current: Snapshot) returns (r: Result)
      requires Valid() && Visible(host.Now(), current) && current.status == Deployed && current.plan == plan
      modifies host`faults, host`trace
      ensures Valid() && old(host.trace) <= host.trace && OnlyObserves(host.trace, |old(host.trace)|)
      ensures host.Now() == old(host.Now())
      ensures r.Success? ==> !r.changed
      ensures r.Failure? ==> r.error.Injectable()
      ensures host.faults == old(host.faults) ==> r == Success(false)
      ensures host.faults <= old(host.faults)
    {
      var o, inventory := host.Inventory(plan);
      ObservedWithin(plan, host.live);
      var same := o == Done && Matches(plan, inventory) && RecordedIdsMatch(plan, inventory, current.linkIds);
      if same {
        o, same := RoutingReady(plan);
      }
      if o == Killed {
        return Dead;
      }
      if o.Raised? {
        return Failure(o.error);
      }
      r := if same then Success(false) else Failure(Coded(DeploymentDrift));
    }

    twostate predicate Undoes(r: Result)
      reads this, host
    {
      Recovers(host.trace, |old(host.trace)|, r)
    }

    twostate predicate Spotless(plan: Plan, r: Result)
      reads this, host
    {
      host.faults == old(host.faults) - 1 && plan.WellFormed() ==>
        CleanEnd(host.trace, |old(host.trace)|, r, host.Now())
    }

    /** The build failed: roll back and report. */
    method Abandon(error: Error, plan: Plan, created: seq<string>, deploying: Snapshot, ghost from: nat)
      returns (r: Result)
      requires Valid() && Building(plan, deploying) && from <= |host.trace|
      requires OwnedRemovals(host.trace, from, from, {}) && ExpectedFailure(error)
      requires forall n | n in created :: n in plan.Namespaces() && CreatedBetween(host.trace, from, |host.trace|, n)
      modifies host`faults, host`trace, host`live, host`routing, host`file
      ensures Valid() && old(host.trace) <= host.trace
      ensures OwnedRemovals(host.trace, from, from, {}) && NoCreations(host.trace, |old(host.trace)|)
      ensures Building(plan, deploying) || host.file == None
      ensures !r.Success? && (r.Failure? ==> ExpectedFailure(r.error))
      ensures r.Failure? ==> AllRemoved(host.trace, |old(host.trace)|, created)
      ensures host.faults <= old(host.faults)
      ensures host.faults == old(host.faults) && RollsBack(created, old(host.live)) ==>
                r.Failure? && host.Now() == World(None, NOTHING, false)
    {
      var h, complete := Rollback(plan, created, deploying, from);
      ComposeRemovals(old(host.trace), host.trace, from, from, {});
      r := Ending(error, h);
    }

    /** Everything is up: save `deployed`, or handle the failure to. */
    method Commit(plan: Plan, created: seq<string>, deploying: Snapshot, inventory: Live, ghost from: nat)
      returns (r: Result)
      requires Valid() && Building(plan, deploying) && from <= |host.trace|
      requires OwnedRemovals(host.trace, from, from, {})
      requires forall n | n in created :: n in plan.Namespaces() && CreatedBetween(host.trace, from, |host.trace|, n)
      requires inventory == host.live && Matches(plan, host.live) && host.routing == plan.HasRouting()
      modifies host`faults, host`trace, host`live, host`routing, host`temporary, host`file
      ensures Valid() && old(host.trace) <= host.trace
      ensures OwnedRemovals(host.trace, from, from, {}) && NoCreations(host.trace, |old(host.trace)|)
      ensures host.file == None
              || (host.file.value.Whole? && host.file.value.snapshot.plan == plan
                 && StatusOf(host.Now()) != Some(Destroying))
      ensures r.Success? ==> r.changed && StatusOf(host.Now()) == Some(Deployed)
      ensures r.Failure? ==> ExpectedFailure(r.error)
      ensures r.Failure? && !r.error.RequiresReconciliation() ==>
                StatusOf(host.Now()) != Some(Deployed) && AllRemoved(host.trace, |old(host.trace)|, created)
      ensures host.faults <= old(host.faults)
      ensures host.faults == old(host.faults) ==> r == Success(true)
      ensures r.Failure? && host.faults == old(host.faults) - 1 && RollsBack(created, old(host.live)) ==>
                StatusOf(host.Now()) == Some(Deployed) || host.Now() == World(None, NOTHING, false)
    {
      var deployed := deploying.(status := Deployed, linkIds := inventory.veths);
      assert deployed.(status := Deploying, linkIds := map[]) == deploying;
      var o := Save(deployed);
      ghost var saved := host.trace;
      ComposeRemovals(old(host.trace), saved, from, from, {});
      if o == Killed {
        return Dead;
      }
      if o.Raised? {
        AllStillCreated(old(host.trace), saved, from, created);
        var h := HandleFinalSaveFailure(o.error, plan, created, deploying, from);
        ComposeRemovals(saved, host.trace, from, from, {});
        if h != Died && !o.error.RequiresReconciliation() {
          EarlierRemovals(host.trace, |old(host.trace)|, |saved|, created);
        }
        return Ending(o.error, h);
      }
      r := Success(true);
    }

    /** After the build: commit what stands, abandon what failed. */
    method Settle(o: Outcome, plan: Plan, created: seq<string>, deploying: Snapshot, inventory: Live, ghost from: nat)
      returns (r: Result)
      requires Valid() && Building(plan, deploying) && from <= |host.trace|
      requires OwnedRemovals(host.trace, from, from, {}) && (o.Raised? ==> ExpectedFailure(o.error))
      requires forall n | n in created :: n in plan.Namespaces() && CreatedBetween(host.trace, from, |host.trace|, n)
      requires o == Done ==> inventory == host.live && Matches(plan, host.live) && host.routing == plan.HasRouting()
      modifies host`faults, host`trace, host`live, host`routing, host`temporary, host`file
      ensures Valid() && old(host.trace) <= host.trace
      ensures OwnedRemovals(host.trace, from, from, {}) && NoCreations(host.trace, |old(host.trace)|)
      ensures host.file == None
              || (host.file.value.Whole? && host.file.value.snapshot.plan == plan
                 && StatusOf(host.Now()) != Some(Destroying))
      ensures r.Success? ==> o == Done && r.changed && StatusOf(host.Now()) == Some(Deployed)
      ensures r.Failure? ==> ExpectedFailure(r.error)
      ensures r.Failure? && !r.error.RequiresReconciliation() ==> StatusOf(host.Now()) != Some(Deployed)
      ensures r.Failure? && (o.Raised? || !r.error.RequiresReconciliation()) ==>
                AllRemoved(host.trace, |old(host.trace)|, created)
      ensures host.faults <= old(host.faults)
      ensures o == Killed ==> r == Dead
      ensures o == Done && host.faults == old(host.faults) ==> r == Success(true)
      ensures o.Raised? && host.faults == old(host.faults) && RollsBack(created, old(host.live)) ==>
                r.Failure? && host.Now() == World(None, NOTHING, false)
      ensures (o == Done && r.Failure? && host.faults == old(host.faults) - 1 && RollsBack(created, old(host.live)))
              ==> StatusOf(host.Now()) == Some(Deployed) || host.Now() == World(None, NOTHING, false)
    {
      match o
      case Killed => r := Dead;
      case Raised(error) => r := Abandon(error, plan, created, deploying, from);
      case Done => r := Commit(plan, created, deploying, inventory, from);
    }

    lemma Undoing(built: seq<Entry>, trace: seq<Entry>, from: nat, created: seq<string>, o: Outcome, r: Result)
      requires built <= trace && from <= |built| && Builds(built, from, o) && AllListed(built, from, created)
      requires NoCreations(trace, |built|) && (r.Success? ==> !o.Raised?)
      requires r.Failure? && (o.Raised? || !r.error.RequiresReconciliation()) ==>
                 AllRemoved(trace, |built|, created)
      ensures FailedCreation(trace, from) ==> o.Raised?
      ensures r.Failure? && Blamed(trace, from, r) ==> Undone(trace, from)
      ensures r.Success? ==> !FailedCreation(trace, from)
      ensures NoLitter(trace, from) ==> NoLitter(built, from)
    {
      assert forall i | from <= i < |built| :: built[i] == trace[i];
      if FailedCreation(trace, from) {
        var i :| from <= i < |trace| && trace[i].op.Creates() && trace[i].outcome.Raised?;
        assert i < |built| && built[i] == trace[i];
      }
      if r.Failure? && (o.Raised? || !r.error.RequiresReconciliation()) {
        RemovalsUndo(built, trace, from, created);
      }
    }

    /** What a build without litter has made, its namespaces cover. */
    lemma BuiltOnNothing(before: seq<Entry>, w: World, built: seq<Entry>, end: World, o: Outcome, created: seq<string>)
      requires Chain(host.origin, before, w) && Chain(host.origin, built, end) && before <= built && AllLegal(built)
      requires Builds(built, |before|, o) && AllListed(built, |before|, created) && w.live == NOTHING
      requires NoLitter(built, |before|)
      ensures RollsBack(created, end.live)
    {
      ChainAt(host.origin, before, w, 0);
      ChainAt(host.origin, built, end, 0);
      LeftBehind(host.origin, built, end, |before|, |built|, o, created);
    }

    /** From the visible `deploying` snapshot to the end: build, then save `deployed`, each with its failure handler. */
    method BuildAndCommit(plan: Plan, deploying: Snapshot) returns (r: Result)
      requires Valid() && Building(plan, deploying)
      modifies host`faults, host`trace, host`live, host`nextLink, host`routing, host`temporary, host`file
      ensures Valid() && old(host.trace) <= host.trace
      ensures OwnedRemovals(host.trace, |old(host.trace)|, |old(host.trace)|, {})
      ensures host.file == None
              || (host.file.value.Whole? && host.file.value.snapshot.plan == plan
                 && StatusOf(host.Now()) != Some(Destroying))
      ensures r.Success? ==> r.changed && StatusOf(host.Now()) == Some(Deployed)
      ensures r.Failure? && !r.error.RequiresReconciliation() ==> StatusOf(host.Now()) != Some(Deployed)
      ensures r.Failure? ==> ExpectedFailure(r.error)
      ensures Undoes(r) && (old(host.live) == NOTHING && !old(host.routing) ==> Spotless(plan, r))
      ensures host.faults <= old(host.faults)
      ensures host.faults == old(host.faults) && plan.WellFormed() && old(host.live) == NOTHING
              && !old(host.routing) ==>
                r == Success(true)
    {
      ghost var from := |host.trace|;
      var o, created, inventory := Build(plan, deploying);
      ghost var built, w := host.trace, host.Now();
      r := Settle(o, plan, created, deploying, inventory, from);
      Undoing(built, host.trace, from, created, o, r);
      if old(host.live) == NOTHING && NoLitter(built, from) {
        BuiltOnNothing(old(host.trace), old(host.Now()), built, w, o, created);
      }
    }

    /** The original error, unless its handler raised another one or the process died in it. */
    function Ending(error: Error, h: Handled): (r: Result) {
      match h
      case Returned => Failure(error)
      case Threw(other) => Failure(other)
      case Died => Dead
    }

    /** `DEPLOYMENT_DRIFT` and `OWNERSHIP_UNKNOWN` are not among them: nobody else touches the resources. */
    predicate ExpectedFailure(error: Error) {
      error.Coded? ==> error.code !in {DeploymentDrift, OwnershipUnknown}
    }

    /** The branch of a deploy that found no snapshot: preflight, write-ahead save, build, commit. */
    method DeployFresh(plan: Plan, createdAt: nat) returns (r: Result)
      requires Valid() && host.file == None
      modifies host`faults, host`trace, host`live, host`nextLink, host`routing, host`temporary, host`file
      ensures Valid() && old(host.trace) <= host.trace
      ensures OwnedRemovals(host.trace, |old(host.trace)|, |old(host.trace)|, {})
      ensures host.file == None
              || (host.file.value.Whole? && host.file.value.snapshot.plan == plan
                 && StatusOf(host.Now()) != Some(Destroying))
      ensures r.Success? ==> r.changed && StatusOf(host.Now()) == Some(Deployed)
      ensures r.Failure? && !r.error.RequiresReconciliation() ==> StatusOf(host.Now()) != Some(Deployed)
      ensures r.Failure? ==> ExpectedFailure(r.error)
      ensures Undoes(r) && Spotless(plan, r)
      ensures host.faults <= old(host.faults)
      ensures host.faults == old(host.faults) && plan.WellFormed() ==> r == Success(true)
    {
      var o, preflight := host.Inventory(plan);
      if o != Done || !Absent(preflight) {
        r := match o
             case Done => Failure(Coded(OwnershipUnknown))
             case Raised(error) => Failure(error)
             case Killed => Dead;
        CalmRecovers(host.trace, |old(host.trace)|, r, host.Now());
        return;
      }
      var deploying := Snapshot(plan, createdAt, Deploying, map[]);
      o := SaveInitialTransition(deploying);
      ghost var saved := host.trace;
      if o != Done {
        r := if o == Killed then Dead else Failure(o.error);
        CalmRecovers(saved, |old(host.trace)|, r, host.Now());
        return;
      }
      r := BuildAndCommit(plan, deploying);
      LaterRecovers(saved, host.trace, |old(host.trace)|, r, host.Now());
      JoinRemovals(saved, host.trace, |old(host.trace)|, {}, {});
    }

    method DeployLocked(plan: Plan, createdAt: nat) returns (r: Result)
      requires Valid()
      modifies host`faults, host`trace, host`live, host`nextLink, host`routing, host`temporary, host`file
      ensures Valid() && old(host.trace) <= host.trace
      ensures OwnedRemovals(host.trace, |old(host.trace)|, |old(host.trace)|, {})
      ensures old(host.file).Some? ==> host.Now() == old(host.Now()) && OnlyObserves(host.trace, |old(host.trace)|)
      ensures r.Success? ==>
                && host.file.Some? && host.file.value.Whole?
                && host.file.value.snapshot.plan == plan && host.file.value.snapshot.status == Deployed
                && r.changed == (old(host.file) == None)
      ensures r.Failure? ==> ExpectedFailure(r.error)
      ensures Undoes(r) && (old(host.file) == None ==> Spotless(plan, r))
      ensures r.Failure? && !r.error.RequiresReconciliation() && StatusOf(host.Now()) == Some(Deployed) ==>
                host.Now() == old(host.Now())
      ensures host.faults == old(host.faults) && plan.WellFormed() ==>
                r == match StatusOf(old(host.Now()))
                     case None => Success(true)
                     case Some(Deployed) =>
                       if Seen(old(host.Now())).value.plan == plan then Success(false)
                         else Failure(Coded(DeploymentConflict))
                     case Some(_) => Failure(Coded(DeploymentInterrupted))
      ensures r.Success? ==> StatusOf(old(host.Now())) == None || StatusOf(old(host.Now())) == Some(Deployed)
      ensures host.faults <= old(host.faults)
    {
      var o, current := store.Load();
      ghost var loaded := host.trace;
      if o != Done {
        r := if o == Killed then Dead else Failure(o.error);
        CalmRecovers(loaded, |old(host.trace)|, r, host.Now());
        return;
      }
      r := DeployLoaded(plan, createdAt, current);
      LaterRecovers(loaded, host.trace, |old(host.trace)|, r, host.Now());
      JoinRemovals(loaded, host.trace, |old(host.trace)|, {}, {});
    }

    /** A deploy that has read the state file. */
    method DeployLoaded(plan: Plan, createdAt: nat, current: Option<Snapshot>) returns (r: Result)
      requires Valid() && Loaded(host.Now(), current)
      modifies host`faults, host`trace, host`live, host`nextLink, host`routing, host`temporary, host`file
      ensures Valid() && old(host.trace) <= host.trace
      ensures OwnedRemovals(host.trace, |old(host.trace)|, |old(host.trace)|, {})
      ensures old(host.file).Some? ==> host.Now() == old(host.Now()) && OnlyObserves(host.trace, |old(host.trace)|)
      ensures r.Success? ==>
                && host.file.Some? && host.file.value.Whole?
                && host.file.value.snapshot.plan == plan && host.file.value.snapshot.status == Deployed
                && r.changed == (old(host.file) == None)
      ensures r.Failure? ==> ExpectedFailure(r.error)
      ensures Undoes(r) && (old(host.file) == None ==> Spotless(plan, r))
      ensures r.Failure? && !r.error.RequiresReconciliation() && StatusOf(host.Now()) == Some(Deployed) ==>
                host.Now() == old(host.Now())
      ensures host.faults == old(host.faults) && plan.WellFormed() ==>
                r == match StatusOf(old(host.Now()))
                     case None => Success(true)
                     case Some(Deployed) =>
                       if Seen(old(host.Now())).value.plan == plan then Success(false)
                         else Failure(Coded(DeploymentConflict))
                     case Some(_) => Failure(Coded(DeploymentInterrupted))
      ensures r.Success? ==> StatusOf(old(host.Now())) == None || StatusOf(old(host.Now())) == Some(Deployed)
      ensures host.faults <= old(host.faults)
    {
      if current.Some? {
        if current.value.status != Deployed {
          return Failure(Coded(DeploymentInterrupted));
        }
        if current.value.plan != plan {
          return Failure(Coded(DeploymentConflict));
        }
        r := ConfirmDeployed(plan, current.value);
        return;
      }
      r := DeployFresh(plan, createdAt);
    }

    // Destroy.

    /**
     Deletes every namespace of the snapshot's plan, last first. Errors are collected and the first one
     kept; an interruption replaces it and stops the loop.
     */
    method DestroyNamespaces(plan: Plan, ghost destroying: Snapshot, first: Option<Error>)
      returns (died: bool, error: Option<Error>)
      requires Valid() && Visible(host.Now(), destroying) && destroying.plan == plan && destroying.status == Destroying
      modifies host`faults, host`trace, host`live
      ensures Valid() && old(host.trace) <= host.trace && Visible(host.Now(), destroying)
      ensures OwnedRemovals(host.trace, |old(host.trace)|, |old(host.trace)|, plan.Namespaces())
      ensures !died && (error == None || !error.value.Interruption()) ==>
                AllTried(host.trace, |old(host.trace)|, plan.Namespaces())
      ensures host.routing == old(host.routing)
      ensures first.Some? ==> error.Some?
      ensures error.Some? ==> error == first || error.value.Injectable()
      ensures host.live.temporaries == old(host.live).temporaries
      ensures host.faults <= old(host.faults)
      ensures host.faults == old(host.faults) ==> !died && error == first && host.live.namespaces !! plan.Namespaces()
    {
      died, error := false, first;
      var i := |plan.nodes|;
      while i > 0
        invariant 0 <= i <= |plan.nodes|
        invariant Valid() && old(host.trace) <= host.trace && Visible(host.Now(), destroying)
        invariant OwnedRemovals(host.trace, |old(host.trace)|, |old(host.trace)|, plan.Namespaces())
        invariant AllTried(host.trace, |old(host.trace)|, LastNamespaces(plan, i))
        invariant host.routing == old(host.routing) && !died
        invariant first.Some? ==> error.Some?
        invariant error.Some? ==> error == first || error.value.Injectable()
        invariant host.live.temporaries == old(host.live).temporaries
        invariant host.faults <= old(host.faults)
        invariant host.faults == old(host.faults) ==>
                    error == first && forall k | i <= k < |plan.nodes| ::
                        plan.nodes[k].namespace !in host.live.namespaces
      {
        i := i - 1;
        ghost var before := host.trace;
        var o := Remove(plan, destroying, plan.nodes[i].namespace);
        AddOwnedRemoval(before, host.trace, |old(host.trace)|, |old(host.trace)|, plan.Namespaces());
        OneMoreTried(plan, i, before, host.trace, |old(host.trace)|);
        if o == Killed {
          died := true;
          return;
        }
        if o.Raised? && o.error.Interruption() {
          error := Some(o.error);
          return;
        }
        if o.Raised? && o.error != Coded(ResourceMissing) && error == None {
          error := Some(o.error);
        }
      }
      assert plan.nodes[0..] == plan.nodes;
    }

    /** Daemons, namespaces, inventory. `error == None` only if everything is certainly gone. */
    method DestroyResources(plan: Plan, ghost destroying: Snapshot) returns (died: bool, error: Option<Error>)
      requires Valid() && Visible(host.Now(), destroying) && destroying.plan == plan && destroying.status == Destroying
      modifies host`faults, host`trace, host`live, host`routing
      ensures Valid() && old(host.trace) <= host.trace && Visible(host.Now(), destroying)
      ensures OwnedRemovals(host.trace, |old(host.trace)|, |old(host.trace)|, plan.Namespaces())
      ensures !died && (error == None || !error.value.Interruption()) ==>
                AllTried(host.trace, |old(host.trace)|, plan.Namespaces())
      ensures !died && error == None ==> host.live == NOTHING && !host.routing
      ensures error.Some? ==> error.value.Injectable() || error.value == Coded(DestroyIncomplete)
      ensures host.faults <= old(host.faults)
      ensures host.faults == old(host.faults) && old(host.live).temporaries == {} ==> !died && error == None
    {
      error := None;
      var o := HaltRouting(plan);
      ghost var halted := host.trace;
      if o == Killed {
        return true, None;
      }
      if o.Raised? {
        error := Some(o.error);
      }
      died, error := DestroyNamespaces(plan, destroying, error);
      JoinRemovals(halted, host.trace, |old(host.trace)|, plan.Namespaces(), plan.Namespaces());
      if died {
        return;
      }
      ghost var emptied := host.trace;
      var inventory;
      o, inventory := host.Inventory(plan);
      ComposeRemovals(emptied, host.trace, |old(host.trace)|, |old(host.trace)|, plan.Namespaces());
      died := o == Killed;
      if error == None || !error.value.Interruption() {
        StillTried(emptied, host.trace, |old(host.trace)|, |halted|, plan.Namespaces());
      }
      if o == Done && Absent(inventory) {
        AbsentMeansNothing(plan, host.live);
      } else if error == None {
        error := Some(if o.Raised? then o.error else Coded(DestroyIncomplete));
      }
    }

    method DestroyLocked(plan: Option<Plan>) returns (r: Result)
      requires Valid()
      modifies host`faults, host`trace, host`live, host`routing, host`temporary, host`file
      ensures Valid() && old(host.trace) <= host.trace
      ensures OwnedRemovals(host.trace, |old(host.trace)|, |old(host.trace)|, old(Listed(host.Now())))
      ensures StatusOf(old(host.Now())) != Some(Deployed) ==> host.Now() == old(host.Now())
      ensures StatusOf(old(host.Now())) == Some(Deploying) || StatusOf(old(host.Now())) == Some(Destroying) ==>
                OnlyObserves(host.trace, |old(host.trace)|) && !r.Success?
      ensures host.file.Some? ==> Seen(old(host.Now())).Some? && host.file.value.Whole?
                                  && host.file.value.snapshot.plan == Seen(old(host.Now())).value.plan
      ensures (r.Failure? && !r.error.RequiresReconciliation() && StatusOf(old(host.Now())) == Some(Deployed)
               && StatusOf(host.Now()) == Some(Destroying))
              ==> AllTried(host.trace, |old(host.trace)|, old(Listed(host.Now())))
      ensures r.Success? ==> host.Now() == World(None, NOTHING, false) && r.changed == old(host.file).Some?
      ensures host.faults == old(host.faults) ==>
                r == match StatusOf(old(host.Now()))
                     case None => if plan.Some? then Success(false) else Failure(Coded(OwnershipUnknown))
                     case Some(Deployed) => Success(true)
                     case Some(_) => Failure(Coded(DeploymentInterrupted))
      ensures host.faults <= old(host.faults)
    {
      var o, current := store.Load();
      ghost var loaded := host.trace;
      if o == Killed {
        return Dead;
      }
      if o.Raised? {
        return Failure(o.error);
      }
      r := DestroyLoaded(plan, current);
      if AllTried(host.trace, |loaded|, old(Listed(host.Now()))) {
        StillTried(host.trace, host.trace, |old(host.trace)|, |loaded|, old(Listed(host.Now())));
      }
      JoinRemovals(loaded, host.trace, |old(host.trace)|, old(Listed(host.Now())), old(Listed(host.Now())));
    }

    /** A destroy that has read the state file. */
    method DestroyLoaded(plan: Option<Plan>, current: Option<Snapshot>) returns (r: Result)
      requires Valid() && Loaded(host.Now(), current)
      modifies host`faults, host`trace, host`live, host`routing, host`temporary, host`file
      ensures Valid() && old(host.trace) <= host.trace
      ensures OwnedRemovals(host.trace, |old(host.trace)|, |old(host.trace)|, old(Listed(host.Now())))
      ensures StatusOf(old(host.Now())) != Some(Deployed) ==> host.Now() == old(host.Now())
      ensures StatusOf(old(host.Now())) == Some(Deploying) || StatusOf(old(host.Now())) == Some(Destroying) ==>
                OnlyObserves(host.trace, |old(host.trace)|) && !r.Success?
      ensures host.file.Some? ==> Seen(old(host.Now())).Some? && host.file.value.Whole?
                                  && host.file.value.snapshot.plan == Seen(old(host.Now())).value.plan
      ensures (r.Failure? && !r.error.RequiresReconciliation() && StatusOf(old(host.Now())) == Some(Deployed)
               && StatusOf(host.Now()) == Some(Destroying))
              ==> AllTried(host.trace, |old(host.trace)|, old(Listed(host.Now())))
      ensures r.Success? ==> host.Now() == World(None, NOTHING, false) && r.changed == old(host.file).Some?
      ensures host.faults == old(host.faults) ==>
                r == match StatusOf(old(host.Now()))
                     case None => if plan.Some? then Success(false) else Failure(Coded(OwnershipUnknown))
                     case Some(Deployed) => Success(true)
                     case Some(_) => Failure(Coded(DeploymentInterrupted))
      ensures host.faults <= old(host.faults)
    {
      if current == None {
        if plan == None {
          return Failure(Coded(OwnershipUnknown));
        }
        r := DestroyAbsent(plan.value);
        return;
      }
      if current.value.status != Deployed {
        return Failure(Coded(DeploymentInterrupted));
      }
      r := DestroyDeployed(current.value);
    }

    /** No snapshot: check that nothing is live and recover routing artifacts. */
    method DestroyAbsent(plan: Plan) returns (r: Result)
      requires Valid() && host.file == None
      modifies host`faults, host`trace, host`routing
      ensures Valid() && old(host.trace) <= host.trace && NoRemovals(host.trace, |old(host.trace)|)
      ensures host.Now() == old(host.Now())
      ensures r.Success? ==> !r.changed
      ensures r.Success? && plan.HasRouting() ==> |host.trace| > 0 && host.trace[|host.trace| - 1].op == Op.HaltRouting
      ensures host.faults == old(host.faults) ==> r == Success(false)
      ensures host.faults <= old(host.faults)
    {
      var o, inventory := host.Inventory(plan);
      if o == Done {
        if !Absent(inventory) {
          return Failure(Coded(OwnershipUnknown));
        }
        o := HaltRouting(plan);
      }
      r := match o
           case Done => Success(false)
           case Raised(error) => Failure(error)
           case Killed => Dead;
    }

    /** A `deployed` snapshot: write ahead `destroying`, remove the resources, then the snapshot. */
    method DestroyDeployed(current: Snapshot) returns (r: Result)
      requires Valid() && Visible(host.Now(), current) && current.status == Deployed
      modifies host`faults, host`trace, host`live, host`routing, host`temporary, host`file
      ensures Valid() && old(host.trace) <= host.trace
      ensures OwnedRemovals(host.trace, |old(host.trace)|, |old(host.trace)|, current.plan.Namespaces())
      ensures host.file == None || Visible(host.Now(), current) || Visible(host.Now(), current.(status := Destroying))
      ensures r.Failure? && !r.error.RequiresReconciliation() && StatusOf(host.Now()) == Some(Destroying) ==>
                AllTried(host.trace, |old(host.trace)|, current.plan.Namespaces())
      ensures r.Success? ==> host.Now() == World(None, NOTHING, false) && r.changed
      ensures host.faults == old(host.faults) ==> r == Success(true)
      ensures host.faults <= old(host.faults)
    {
      var destroying := current.(status := Destroying);
      assert destroying.(status := Deployed) == current;
      var o := SaveInitialTransition(destroying);
      ghost var saved := host.trace;
      if o == Killed {
        return Dead;
      }
      if o.Raised? {
        return Failure(o.error);
      }
      var died, error := DestroyResources(current.plan, destroying);
      JoinRemovals(saved, host.trace, |old(host.trace)|, current.plan.Namespaces(), current.plan.Namespaces());
      ghost var emptied := host.trace;
      if died {
        return Dead;
      }
      if error == None || !error.value.Interruption() {
        StillTried(emptied, emptied, |old(host.trace)|, |saved|, current.plan.Namespaces());
      }
      if error.Some? {
        return Failure(error.value);
      }
      r := DeleteFinalState(current.plan, destroying);
      StillTried(emptied, host.trace, |old(host.trace)|, |old(host.trace)|, current.plan.Namespaces());
      ComposeRemovals(emptied, host.trace, |old(host.trace)|, |old(host.trace)|, current.plan.Namespaces());
    }

    method DeleteFinalState(plan: Plan, destroying: Snapshot) returns (r: Result)
      requires Valid() && Visible(host.Now(), destroying) && destroying.plan == plan && MayUnlink(host.Now())
      modifies host`faults, host`trace, host`file
      ensures Valid() && old(host.trace) <= host.trace && NoRemovals(host.trace, |old(host.trace)|)
      ensures host.file == None || host.file == old(host.file)
      ensures r.Success? ==> r.changed && host.file == None
      ensures host.faults == old(host.faults) ==> r == Success(true)
      ensures host.faults == old(host.faults) - 1 && r.Failure? && !r.error.Interruption() ==> host.file == None
      ensures host.faults <= old(host.faults)
    {
      var o := Delete();
      match o
      case Done => r := Success(true);
      case Killed => r := Dead;
      case Raised(error) =>
        var h, removed := ReconcileDelete(error, plan, destroying);
        r := if h == Returned && removed then Success(true) else Ending(error, h);
    }

    // The public calls. The deployment lock is held for each of them.

    method Redeploy(plan: Plan, createdAt: nat) returns (r: Result)
      requires Valid()
      modifies host`faults, host`trace, host`live, host`nextLink, host`routing, host`temporary, host`file
      ensures Valid() && old(host.trace) <= host.trace
      ensures OwnedRemovals(host.trace, |old(host.trace)|, |old(host.trace)|, old(Listed(host.Now())))
      ensures StatusOf(old(host.Now())) == Some(Deploying) || StatusOf(old(host.Now())) == Some(Destroying) ==>
                host.Now() == old(host.Now()) && OnlyObserves(host.trace, |old(host.trace)|) && !r.Success?
      ensures r.Success? ==>
                r.changed && StatusOf(host.Now()) == Some(Deployed) && host.file.value.snapshot.plan == plan
      ensures host.faults == old(host.faults) && plan.WellFormed() ==>
                r == match StatusOf(old(host.Now()))
                     case Some(Deploying) => Failure(Coded(DeploymentInterrupted))
                     case Some(Destroying) => Failure(Coded(DeploymentInterrupted))
                     case _ => Success(true)
      ensures host.faults <= old(host.faults)
    {
      var destroyed := DestroyLocked(Some(plan));
      ghost var emptied := host.trace;
      if !destroyed.Success? {
        return destroyed;
      }
      var deployed := DeployLocked(plan, createdAt);
      JoinRemovals(emptied, host.trace, |old(host.trace)|, old(Listed(host.Now())), {});
      if !deployed.Success? {
        return deployed;
      }
      r := Success(destroyed.changed || deployed.changed);
    }

    method Perform(command: Command) returns (r: Result)
      requires Valid()
      modifies host
      ensures Valid() && old(host.trace) <= host.trace
      ensures Rightful(host.trace, |old(host.trace)|, |host.trace|)
    {
      match command {
        case Deploy(plan, createdAt) => r := DeployLocked(plan, createdAt);
        case Destroy(plan) => r := DestroyLocked(plan);
        case Redeploy(plan, createdAt) => r := Redeploy(plan, createdAt);
      }
      OwnedIsRightful(host.origin, old(host.trace), old(host.Now()), host.trace, host.Now());
    }

    /**
     Any sequence of calls, under any faults, with the process killed anywhere in any of them: every
     world of the whole history is safe, the visible status only moves along the automaton, and whatever
     a call deletes it created itself or found listed as deployed. `bounds` tells the calls apart.
     */
    method Run(commands: seq<Command>) returns (results: seq<Result>, ghost bounds: seq<nat>)
      requires Valid()
      modifies host
      ensures Valid() && old(host.trace) <= host.trace
      ensures |results| == |commands|
      ensures forall i | 0 <= i < |host.trace| :: Safe(host.trace[i].before) && Safe(host.trace[i].after)
      ensures forall i | 0 <= i < |host.trace| ::
                StatusMove(StatusOf(host.trace[i].before), StatusOf(host.trace[i].after))
      ensures |bounds| == |commands| + 1 && bounds[0] == |old(host.trace)| && bounds[|commands|] == |host.trace|
      ensures forall i {:trigger CallAt(host.trace, bounds, i)} | 0 <= i < |commands| :: CallAt(host.trace, bounds, i)
    {
      results, bounds := [], [|host.trace|];
      for i := 0 to |commands|
        invariant Valid() && old(host.trace) <= host.trace
        invariant |results| == i && |bounds| == i + 1 && bounds[0] == |old(host.trace)| && bounds[i] == |host.trace|
        invariant forall k {:trigger CallAt(host.trace, bounds, k)} | 0 <= k < i :: CallAt(host.trace, bounds, k)
      {
        ghost var before := host.trace;
        var r := Perform(commands[i]);
        OneMoreCall(before, host.trace, bounds, i);
        results, bounds := results + [r], bounds + [|host.trace|];
      }
      SafetyOverHistory(host.origin, host.trace, host.Now());
      StatusAutomaton(host.origin, host.trace, host.Now());
    }
  }

  /**
   In the call that spans `trace[from..to]`, a namespace is deleted only if the call created it, or found it
   listed as deployed.
   */
  ghost predicate Rightful(trace: seq<Entry>, from: nat, to: nat) {
    forall k | from <= k < to && k < |trace| && trace[k].op.RemoveNamespace? ::
      trace[k].op.namespace in Listed(trace[from].before) || CreatedBetween(trace, from, k, trace[k].op.namespace)
  }

  ghost predicate CallAt(trace: seq<Entry>, bounds: seq<nat>, i: int) {
    0 <= i < |bounds| - 1 && bounds[i] <= bounds[i + 1] <= |trace| && Rightful(trace, bounds[i], bounds[i + 1])
  }

  lemma {:induction false} ChainContinues(start: World, trace: seq<Entry>, mid: World, longer: seq<Entry>, end: World)
    requires Chain(start, trace, mid) && Chain(start, longer, end) && trace <= longer && |trace| < |longer|
    ensures longer[|trace|].before == mid
    decreases |trace|
  {
    if trace != [] {
      assert longer[1..][..|trace| - 1] == trace[1..];
      ChainContinues(trace[0].after, trace[1..], mid, longer[1..], end);
    }
  }

  lemma OwnedIsRightful(start: World, trace: seq<Entry>, mid: World, longer: seq<Entry>, end: World)
    requires Chain(start, trace, mid) && Chain(start, longer, end) && trace <= longer
    requires OwnedRemovals(longer, |trace|, |trace|, Listed(mid))
    ensures Rightful(longer, |trace|, |longer|)
  {
    if |trace| < |longer| {
      ChainContinues(start, trace, mid, longer, end);
    }
  }

  lemma RightfulStays(trace: seq<Entry>, longer: seq<Entry>, from: nat, to: nat)
    requires trace <= longer && to <= |trace| && Rightful(trace, from, to)
    ensures Rightful(longer, from, to)
  {
    forall k | from <= k < to && k < |longer| && longer[k].op.RemoveNamespace?
      ensures longer[k].op.namespace in Listed(longer[from].before)
              || CreatedBetween(longer, from, k, longer[k].op.namespace)
    {
      assert longer[k] == trace[k] && longer[from] == trace[from];
      if longer[k].op.namespace !in Listed(longer[from].before) {
        StillCreated(trace, longer, from, k, k, longer[k].op.namespace);
      }
    }
  }

  lemma OneMoreCall(trace: seq<Entry>, longer: seq<Entry>, bounds: seq<nat>, i: nat)
    requires trace <= longer && |bounds| == i + 1 && bounds[i] == |trace| && Rightful(longer, |trace|, |longer|)
    requires forall k {:trigger CallAt(trace, bounds, k)} | 0 <= k < i :: CallAt(trace, bounds, k)
    ensures forall k {:trigger CallAt(longer, bounds + [|longer|], k)} | 0 <= k <= i ::
              CallAt(longer, bounds + [|longer|], k)
  {
    var more := bounds + [|longer|];
    forall k | 0 <= k <= i
      ensures CallAt(longer, more, k)
    {
      if k < i {
        assert CallAt(trace, bounds, k);
        RightfulStays(trace, longer, bounds[k], bounds[k + 1]);
      }
    }
  }

  datatype Command =
    | Deploy(plan: Plan, createdAt: nat)
    | Destroy(known: Option<Plan>)
    | Redeploy(plan: Plan, createdAt: nat)
}
