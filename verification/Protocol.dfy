/**
 The write-ahead protocol of deploy and destroy as a relation over single effects. A `World` is what
 survives a kill: the state file, the live resources and the routing daemons. An `Entry` is one effect
 attempted by the program, with the world before and after it.
 */
module Protocol {
  import opened Options
  import opened Topology

  datatype Status = Deploying | Deployed | Destroying

  datatype Snapshot = Snapshot(plan: Plan, createdAt: nat, status: Status, linkIds: map<Port, nat>)

  /** Contents of a state file as a later `load` would find them. */
  datatype FileText = Torn | Whole(snapshot: Snapshot)

  datatype World = World(file: Option<FileText>, live: Live, routing: bool)

  datatype Code =
    | ResourceMissing | ResourceExists | BackendFailure
    | StateReadFailed | StateInvalid | StateWriteFailed | CommitOutcomeUnknown | DurabilityUncertain
    | OwnershipUnknown | DeploymentInterrupted | DeploymentConflict | DeploymentDrift
    | VerificationFailed | DestroyIncomplete

  /**
   A raised exception: a coded error, an error of the operating system, any other exception, or one of the two
   interruptions.
   */
  datatype Error = Coded(code: Code) | System | Other | Cancelled | Interrupt {
    predicate Interruption() {
      Cancelled? || Interrupt?
    }

    predicate RequiresReconciliation() {
      Interruption() || this == Coded(CommitOutcomeUnknown) || this == Coded(DurabilityUncertain)
    }

    /** What the environment may inject into a backend or system call. */
    predicate Injectable() {
      Coded? ==> code in {ResourceMissing, ResourceExists, BackendFailure}
    }
  }

  datatype Outcome = Done | Raised(error: Error) | Killed

  datatype Op =
    | Observe
    | Replace(text: FileText)
    | Unlink
    | MakeNamespace(namespace: string)
    | MakeBridge(namespace: string)
    | MakeVeth(link: Link)
    | SetUp(namespace: string)
    | LaunchRouting
    | HaltRouting
    | RemoveNamespace(namespace: string)
  {
    predicate Creates() {
      MakeNamespace? || MakeBridge? || MakeVeth? || SetUp? || LaunchRouting?
    }
  }

  datatype Entry = Entry(op: Op, outcome: Outcome, before: World, after: World)

  function StatusOf(w: World): (s: Option<Status>) {
    match w.file
    case Some(Whole(snapshot)) => Some(snapshot.status)
    case _ => None
  }

  /** A new resource may only appear while a `deploying` snapshot whose plan lists it is visible. */
  ghost predicate MayCreate(w: World, op: Op) {
    && w.file.Some? && w.file.value.Whole? && w.file.value.snapshot.status == Deploying
    && var plan := w.file.value.snapshot.plan;
       match op
       case MakeNamespace(n) => n in plan.Namespaces()
       case MakeBridge(n) => n in plan.Bridges()
       case MakeVeth(l) => l in plan.links
       case SetUp(n) => n in plan.Namespaces()
       case LaunchRouting => plan.HasRouting()
       case _ => false
  }

  /** Which snapshot may be written over which world. */
  ghost predicate MayReplace(w: World, text: FileText) {
    && text.Whole?
    && var s := text.snapshot;
       match s.status
       case Deploying => w.file.None? && s.linkIds == map[]
       case Deployed =>
         && w.file == Some(Whole(s.(status := Deploying, linkIds := map[])))
         && Matches(s.plan, w.live) && s.linkIds == w.live.veths
         && w.routing == s.plan.HasRouting()
       case Destroying => w.file == Some(Whole(s.(status := Deployed)))
  }

  /** The state file may only be removed once nothing is left to own. */
  ghost predicate MayUnlink(w: World) {
    && (StatusOf(w) == Some(Deploying) || StatusOf(w) == Some(Destroying))
    && w.live == NOTHING && !w.routing
  }

  /**
   One effect that follows the protocol: its guard held when it was attempted, and it did no more than its kind
   allows.
   */
  ghost predicate Legal(e: Entry) {
    var w, w' := e.before, e.after;
    match e.op
    case Observe => w' == w
    case Replace(text) =>
      MayReplace(w, text) && (w' == w || w' == w.(file := Some(text)))
    case Unlink =>
      MayUnlink(w) && (w' == w || w' == w.(file := None))
    case HaltRouting =>
      && StatusOf(w) != Some(Deployed)
      && w' == w.(routing := w'.routing) && (w'.routing ==> w.routing)
    case RemoveNamespace(n) =>
      && (StatusOf(w) == Some(Deploying) || StatusOf(w) == Some(Destroying))
      && n in w.file.value.snapshot.plan.Namespaces()
      && w' == w.(live := w'.live) && Shrinks(w.live, w'.live)
      && w.live.namespaces - {n} <= w'.live.namespaces && w'.live.temporaries == w.live.temporaries
    case LaunchRouting =>
      MayCreate(w, e.op) && w' == w.(routing := w'.routing)
    case MakeNamespace(n) =>
      && MayCreate(w, e.op)
      && (w' == w || w' == w.(live := w.live.(namespaces := w.live.namespaces + {n})))
    case MakeBridge(n) =>
      && MayCreate(w, e.op)
      && (w' == w || (n in w.live.namespaces && w' == w.(live := w.live.(bridges := w.live.bridges + {n}))))
    case SetUp(n) =>
      && MayCreate(w, e.op)
      && (w' == w || (n in w.live.namespaces && w' == w.(live := w.live.(configured := w.live.configured + {n}))))
    case MakeVeth(link) => MayCreate(w, e.op) && w' == w.(live := w'.live) && Joins(w.live, link, w'.live)
  }

  /** At most the two ends of the link are new, and the temporary names on the way there. */
  ghost predicate Joins(before: Live, link: Link, after: Live) {
    && after == before.(veths := after.veths, temporaries := after.temporaries) && after.Coherent()
    && before.veths.Keys <= after.veths.Keys <= before.veths.Keys + {link.left.port, link.right.port}
    && (forall p | p in before.veths :: after.veths[p] == before.veths[p])
    && before.temporaries <= after.temporaries <= before.temporaries + {link.left.temporary, link.right.temporary}
  }

  /** Safety: what exists is covered by the visible snapshot, and `deployed` means complete. */
  ghost predicate Safe(w: World) {
    match w.file
    case None => w.live == NOTHING && !w.routing
    case Some(Torn) => false
    case Some(Whole(s)) =>
      && Within(s.plan, w.live)
      && (w.routing ==> s.plan.HasRouting())
      && (s.status == Deploying ==> s.linkIds == map[])
      && (s.status == Deployed ==>
            Matches(s.plan, w.live) && s.linkIds == w.live.veths && w.routing == s.plan.HasRouting())
  }

  ghost predicate Chain(start: World, trace: seq<Entry>, end: World)
    decreases |trace|
  {
    if trace == [] then start == end
    else trace[0].before == start && Chain(trace[0].after, trace[1..], end)
  }

  ghost predicate AllLegal(trace: seq<Entry>) {
    forall i | 0 <= i < |trace| :: Legal(trace[i])
  }

  lemma LegalKeepsSafe(e: Entry)
    requires Safe(e.before) && Legal(e)
    ensures Safe(e.after)
  {
  }

  lemma {:induction false} ChainAppend(start: World, trace: seq<Entry>, mid: World, e: Entry)
    requires Chain(start, trace, mid) && e.before == mid
    ensures Chain(start, trace + [e], e.after)
    decreases |trace|
  {
    if trace == [] {
      assert trace + [e] == [e];
    } else {
      ChainAppend(trace[0].after, trace[1..], mid, e);
      assert (trace + [e])[1..] == trace[1..] + [e];
    }
  }

  /** The world after the first `k` effects. */
  ghost function WorldAt(start: World, trace: seq<Entry>, k: nat): (w: World)
    requires k <= |trace|
  {
    if k == 0 then start else trace[k - 1].after
  }

  lemma {:induction false} ChainAt(start: World, trace: seq<Entry>, end: World, k: nat)
    requires Chain(start, trace, end) && k <= |trace|
    ensures WorldAt(start, trace, |trace|) == end
    ensures k < |trace| ==> trace[k].before == WorldAt(start, trace, k)
    decreases |trace|
  {
    if trace != [] {
      ChainAt(trace[0].after, trace[1..], end, if k == 0 then 0 else k - 1);
    }
  }

  /** Whatever the faults, interruptions and kills, every world a legal history passes through is safe. */
  lemma {:induction false} SafetyOverHistory(start: World, trace: seq<Entry>, end: World)
    requires Safe(start) && Chain(start, trace, end) && AllLegal(trace)
    ensures Safe(end)
    ensures forall i | 0 <= i < |trace| :: Safe(trace[i].before) && Safe(trace[i].after)
    decreases |trace|
  {
    if trace != [] {
      LegalKeepsSafe(trace[0]);
      assert forall i | 0 <= i < |trace[1..]| :: trace[1..][i] == trace[i + 1];
      SafetyOverHistory(trace[0].after, trace[1..], end);
      forall i | 0 <= i < |trace|
        ensures Safe(trace[i].before) && Safe(trace[i].after)
      {
        if i > 0 { assert trace[i] == trace[1..][i - 1]; }
      }
    }
  }

  /** The moves of the visible status. */
  predicate StatusMove(from: Option<Status>, to: Option<Status>) {
    || from == to
    || (from == None && to == Some(Deploying))
    || (from == Some(Deploying) && (to == Some(Deployed) || to == None))
    || (from == Some(Deployed) && to == Some(Destroying))
    || (from == Some(Destroying) && to == None)
  }

  lemma {:induction false} StatusAutomaton(start: World, trace: seq<Entry>, end: World)
    requires Safe(start) && Chain(start, trace, end) && AllLegal(trace)
    ensures forall i | 0 <= i < |trace| :: StatusMove(StatusOf(trace[i].before), StatusOf(trace[i].after))
    ensures forall i | 0 <= i < |trace| && trace[i].before.file.Some? && trace[i].after.file.Some? ::
              trace[i].after.file.value.Whole? && trace[i].before.file.value.Whole?
              && trace[i].after.file.value.snapshot.plan == trace[i].before.file.value.snapshot.plan
  {
    SafetyOverHistory(start, trace, end);
    forall i | 0 <= i < |trace|
      ensures StatusMove(StatusOf(trace[i].before), StatusOf(trace[i].after))
    {
      assert Legal(trace[i]) && Safe(trace[i].before);
    }
  }

  /** Nothing of a verified deployment changes while its `deployed` snapshot stays visible. */
  lemma DeployedIsFrozen(e: Entry)
    requires Safe(e.before) && Legal(e)
    requires StatusOf(e.before) == Some(Deployed)
    ensures e.after.live == e.before.live && e.after.routing == e.before.routing
    ensures e.after == e.before || (e.op.Replace? && StatusOf(e.after) == Some(Destroying))
  {
    match e.op
    case Replace(text) => assert MayReplace(e.before, text);
    case _ =>
  }
}
