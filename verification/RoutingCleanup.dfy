/**
 Stopping the routing daemons of a deployment: all of its directories are checked before anything is
 signalled or removed, and nothing outside them is touched.
 */
module RoutingCleanup {
  import opened FileTree
  import opened Options
  import opened RoutingPaths
  import opened RoutingRecords
  import opened RoutingSignals
  import opened Texts

  /** `Invalid` also covers a failing removal. */
  datatype Code = Invalid | Conflict

  /** A stop ends with an error of its own or with an exception that nothing handles. */
  datatype Failure = Reported(code: Code) | Uncaught

  const LEGACY_FILES := {
    "processes.json", "frr.conf", "zebra.api", "zebra.pid", "ospfd.pid", "bgpd.pid", "zebra.log", "ospfd.log",
      "bgpd.log"}

  predicate EndsWith(s: string, suffix: string) {
    |s| >= |suffix| && s[|s| - |suffix|..] == suffix
  }

  predicate HasPid(t: Tree, d: Path) {
    exists n :: n in Children(t, d) && EndsWith(n, ".pid")
  }

  predicate OnlyLegacyFiles(t: Tree, d: Path) {
    forall n | n in Children(t, d) :: d + [n] in t && t[d + [n]].File? && n in LEGACY_FILES
  }

  /** The narrow look of a node directory from before there were markers. */
  predicate LegacyNode(t: Tree, d: Path) {
    d in t && t[d] == Directory && HasPid(t, d) && OnlyLegacyFiles(t, d)
  }

  predicate MarkedRuntime(t: Tree, r: Roots, p: Plan) {
    && Marked(t, r.Deployment(p), RuntimeMarker(p))
    && forall n | n in Children(t, r.Deployment(p)) && n != MARKER_FILE ::
         n in p.nodes && r.Node(p, n) in t && t[r.Node(p, n)] == Directory
  }

  predicate LegacyRuntime(t: Tree, r: Roots, p: Plan) {
    var d := r.Deployment(p);
    && d in t && t[d] == Directory && d + [MARKER_FILE] !in t && Children(t, d) != {}
    && forall n | n in Children(t, d) :: n in p.nodes && LegacyNode(t, d + [n])
  }

  predicate RuntimeOk(t: Tree, r: Roots, p: Plan) {
    r.Deployment(p) !in t || MarkedRuntime(t, r, p) || LegacyRuntime(t, r, p)
  }

  predicate NoLinksIn(t: Tree, d: Path) {
    forall n | n in Children(t, d) :: d + [n] in t && t[d + [n]] != Link
  }

  /** What there is of a node's directories is this deployment's own. */
  predicate NodeOk(t: Tree, r: Roots, p: Plan, node: string) {
    && (r.Node(p, node) in t ==>
          && (if LegacyRuntime(t, r, p) then LegacyNode(t, r.Node(p, node))
             else Marked(t, r.Node(p, node), RuntimeNodeMarker(p, node)))
          && NoLinksIn(t, r.Node(p, node)))
    && (r.State(p, node) in t ==> Marked(t, r.State(p, node), StateMarker(p, node)))
    && (r.Config(p, node) in t ==> Marked(t, r.Config(p, node), ConfigMarker(p, node)))
  }

  /** Every existing directory of the deployment passes. */
  predicate ArtifactsOk(t: Tree, r: Roots, p: Plan) {
    RuntimeOk(t, r, p) && forall i | 0 <= i < |p.nodes| :: NodeOk(t, r, p, p.nodes[i])
  }

  function ReadMarker(t: Tree, d: Path, expected: string): (error: Option<Code>)
    ensures d in t && t[d] == Directory && Ascii(expected) ==> (error.None? <==> Marked(t, d, expected))
    ensures !Ascii(expected) ==> error.Some?
  {
    var m := d + [MARKER_FILE];
    if m !in t then Some(Conflict)
    else if !t[m].File? || t[m].text.None? || !Ascii(t[m].text.value) then Some(Invalid)
    else if t[m].text.value != expected then Some(Conflict)
    else None
  }

  function CheckManaged(t: Tree, d: Path, marker: string): (error: Option<Code>)
    ensures error.None? <==> d in t ==> Marked(t, d, marker)
  {
    if d !in t then None
    else if t[d] != Directory then Some(Invalid)
    else ReadMarker(t, d, marker)
  }

  method CheckMarkedChildren(t: Tree, d: Path, nodes: seq<string>) returns (error: Option<Code>)
    ensures error.None? <==>
              forall n | n in Children(t, d) && n != MARKER_FILE ::
                n in nodes && d + [n] in t && t[d + [n]] == Directory
  {
    var todo := Children(t, d);
    while todo != {}
      invariant todo <= Children(t, d)
      invariant forall n | n in Children(t, d) && n !in todo && n != MARKER_FILE ::
                  n in nodes && d + [n] in t && t[d + [n]] == Directory
      decreases |todo|
    {
      var n :| n in todo;
      ChildIsThere(t, d, n);
      if n != MARKER_FILE {
        if n !in nodes {
          return Some(Conflict);
        }
        if t[d + [n]] != Directory {
          return Some(Invalid);
        }
      }
      todo := todo - {n};
    }
    error := None;
  }

  method CheckLegacyChildren(t: Tree, d: Path, nodes: seq<string>) returns (ok: bool)
    ensures ok <==> Children(t, d) != {} && forall n | n in Children(t, d) :: n in nodes && LegacyNode(t, d + [n])
  {
    if Children(t, d) == {} {
      return false;
    }
    var todo := Children(t, d);
    while todo != {}
      invariant todo <= Children(t, d)
      invariant forall n | n in Children(t, d) && n !in todo :: n in nodes && LegacyNode(t, d + [n])
      decreases |todo|
    {
      var n :| n in todo;
      if n !in nodes || !LegacyNode(t, d + [n]) {
        return false;
      }
      todo := todo - {n};
    }
    ok := true;
  }

  /** The deployment's runtime directory: an error, or whether it is of the legacy form. */
  method ValidateRuntime(t: Tree, r: Roots, p: Plan) returns (error: Option<Code>, legacy: bool)
    ensures error.None? <==> RuntimeOk(t, r, p)
    ensures error.None? ==> (legacy <==> LegacyRuntime(t, r, p))
  {
    var d := r.Deployment(p);
    if d !in t {
      return None, false;
    }
    if t[d] != Directory {
      return Some(Invalid), false;
    }
    if d + [MARKER_FILE] in t {
      error, legacy := ReadMarker(t, d, RuntimeMarker(p)), false;
      if error.None? {
        error := CheckMarkedChildren(t, d, p.nodes);
      }
      return;
    }
    legacy := CheckLegacyChildren(t, d, p.nodes);
    error := if legacy then None else Some(Conflict);
  }

  method CheckNoLinks(t: Tree, d: Path) returns (ok: bool)
    ensures ok <==> NoLinksIn(t, d)
  {
    var todo := Children(t, d);
    while todo != {}
      invariant todo <= Children(t, d)
      invariant forall n | n in Children(t, d) && n !in todo :: d + [n] in t && t[d + [n]] != Link
      decreases |todo|
    {
      var n :| n in todo;
      ChildIsThere(t, d, n);
      if t[d + [n]] == Link {
        return false;
      }
      todo := todo - {n};
    }
    ok := true;
  }

  method ValidateNode(t: Tree, r: Roots, p: Plan, node: string, legacy: bool) returns (error: Option<Code>)
    requires legacy <==> LegacyRuntime(t, r, p)
    ensures error.None? <==> NodeOk(t, r, p, node)
  {
    var d := r.Node(p, node);
    if !legacy {
      error := CheckManaged(t, d, RuntimeNodeMarker(p, node));
      if error.Some? { return; }
    } else if d in t && !LegacyNode(t, d) {
      return Some(Conflict);
    }
    if d in t {
      var plain := CheckNoLinks(t, d);
      if !plain { return Some(Invalid); }
    }
    error := CheckManaged(t, r.State(p, node), StateMarker(p, node));
    if error.None? {
      error := CheckManaged(t, r.Config(p, node), ConfigMarker(p, node));
    }
  }

  method ValidateArtifacts(t: Tree, r: Roots, p: Plan) returns (error: Option<Code>)
    ensures error.None? <==> ArtifactsOk(t, r, p)
  {
    var legacy;
    error, legacy := ValidateRuntime(t, r, p);
    if error.Some? {
      return;
    }
    for i := 0 to |p.nodes|
      invariant error.None? && forall j | 0 <= j < i :: NodeOk(t, r, p, p.nodes[j])
    {
      error := ValidateNode(t, r, p, p.nodes[i], legacy);
      if error.Some? {
        return;
      }
    }
  }

  /** `after` lost entries below `roots` and nothing else. */
  ghost predicate OnlyBelow(before: Tree, after: Tree, roots: set<Path>) {
    && after.Keys <= before.Keys && (forall p | p in after :: after[p] == before[p])
    && forall p | p in before && p !in after :: Covered(p, roots)
  }

  ghost predicate Covered(p: Path, roots: set<Path>) {
    exists root :: root in roots && Under(p, root)
  }

  /** No entry is at or below `root`. */
  ghost predicate Gone(t: Tree, root: Path) {
    forall p | p in t :: !Under(p, root)
  }

  /** What has an entry has directories all the way above it. */
  ghost predicate ClosedAbove(t: Tree) {
    forall p, q | p in t && q != [] && q != p && Under(p, q) :: q in t && t[q] == Directory
  }

  // The records of all nodes.

  datatype Target = Target(node: string, pid: nat)

  predicate InRange(records: seq<Record>) {
    forall i | 0 <= i < |records| :: records[i].pid <= MAX_PID
  }

  predicate NodeReads(t: Tree, d: Path, decode: string -> Reading) {
    !ReadingEscapes(t, d, decode) && InRange(RecordsOf(t, d, decode))
  }

  /** No metadata makes the reader fail without refusing, and every number on record is one a process could have. */
  predicate RecordsOk(t: Tree, r: Roots, p: Plan, decode: string -> Reading) {
    ReadsUpTo(t, r, p, decode, |p.nodes|)
  }

  predicate ReadsUpTo(t: Tree, r: Roots, p: Plan, decode: string -> Reading, k: nat)
    requires k <= |p.nodes|
  {
    forall i | 0 <= i < k :: NodeReads(t, r.Node(p, p.nodes[i]), decode)
  }

  lemma ReadsNext(t: Tree, r: Roots, p: Plan, decode: string -> Reading, k: nat)
    requires k < |p.nodes| && ReadsUpTo(t, r, p, decode, k)
    ensures NodeReads(t, r.Node(p, p.nodes[k]), decode) ==> ReadsUpTo(t, r, p, decode, k + 1)
    ensures !NodeReads(t, r.Node(p, p.nodes[k]), decode) ==> !RecordsOk(t, r, p, decode)
  {
  }

  /** The processes among the first `k` records that exist. */
  function Existing(node: string, records: seq<Record>, alive: set<nat>, k: nat): (r: seq<Target>)
    requires k <= |records|
  {
    if k == 0 then []
    else
      var before, pid := Existing(node, records, alive, k - 1), records[k - 1].pid;
      if pid in alive then before + [Target(node, pid)] else before
  }

  function TargetsOf(t: Tree, r: Roots, p: Plan, decode: string -> Reading, alive: set<nat>,
                     k: nat): (result: seq<Target>)
    requires k <= |p.nodes|
  {
    if k == 0 then []
    else
      var records := RecordsOf(t, r.Node(p, p.nodes[k - 1]), decode);
      TargetsOf(t, r, p, decode, alive, k - 1) + Existing(p.nodes[k - 1], records, alive, |records|)
  }

  function PidsOf(targets: seq<Target>): (r: seq<nat>) {
    seq(|targets|, i requires 0 <= i < |targets| => targets[i].pid)
  }

  lemma {:induction false} ExistingMeans(node: string, records: seq<Record>, alive: set<nat>, k: nat, target: Target)
    requires k <= |records|
    ensures target in Existing(node, records, alive, k) <==>
            target.node == node && target.pid in alive && exists i :: 0 <= i < k && records[i].pid == target.pid
  {
    if k > 0 {
      ExistingMeans(node, records, alive, k - 1, target);
    }
  }

  /** The targets of the signals: the existing processes on record for the nodes. */
  lemma {:induction false} TargetsMean(t: Tree, r: Roots, p: Plan, decode: string -> Reading, alive: set<nat>, k: nat,
                                       target: Target)
    requires k <= |p.nodes|
    ensures target in TargetsOf(t, r, p, decode, alive, k) <==>
            target.pid in alive && exists i {:trigger p.nodes[i]} ::
              0 <= i < k && p.nodes[i] == target.node
              && exists j ::
                   0 <= j < |RecordsOf(t, r.Node(p, target.node), decode)|
                   && RecordsOf(t, r.Node(p, target.node), decode)[j].pid == target.pid
  {
    if k > 0 {
      var records := RecordsOf(t, r.Node(p, p.nodes[k - 1]), decode);
      TargetsMean(t, r, p, decode, alive, k - 1, target);
      ExistingMeans(p.nodes[k - 1], records, alive, |records|, target);
    }
  }

  // What stopping daemons do to the tree.

  /** A file of a node's daemons: below the node's runtime or state directory, and no marker. */
  predicate DaemonFile(r: Roots, p: Plan, node: string, q: Path) {
    q != [] && q[|q| - 1] != MARKER_FILE && (Under(q, r.Node(p, node)) || Under(q, r.State(p, node)))
  }

  predicate AnyDaemonFile(r: Roots, p: Plan, q: Path) {
    exists n :: n in p.nodes && DaemonFile(r, p, n, q)
  }

  /** `after` lost files of daemons and nothing else. */
  ghost predicate Lost(before: Tree, after: Tree, r: Roots, p: Plan) {
    && after.Keys <= before.Keys && (forall q | q in after :: after[q] == before[q])
    && forall q | q in before && q !in after :: before[q].File? && AnyDaemonFile(r, p, q)
  }

  /** No node directory has lost its last pid file. */
  predicate PidsLeft(t: Tree, r: Roots, p: Plan) {
    forall n | n in p.nodes :: r.Node(p, n) in t ==> HasPid(t, r.Node(p, n))
  }

  lemma LostTwice(before: Tree, between: Tree, after: Tree, r: Roots, p: Plan)
    requires Lost(before, between, r, p) && Lost(between, after, r, p)
    ensures Lost(before, after, r, p)
  {
  }

  lemma LostChild(before: Tree, after: Tree, r: Roots, p: Plan, d: Path, n: string)
    requires Lost(before, after, r, p)
    ensures n in Children(after, d) ==>
              n in Children(before, d) && d + [n] in after && after[d + [n]] == before[d + [n]]
    ensures n in Children(before, d) && d + [n] in before && before[d + [n]] == Directory ==> n in Children(after, d)
  {
    ChildIsThere(after, d, n);
    ChildIsThere(before, d, n);
  }

  lemma LostMarked(before: Tree, after: Tree, r: Roots, p: Plan, d: Path, marker: string)
    requires Lost(before, after, r, p) && (d in before ==> Marked(before, d, marker))
    ensures (d in after <==> d in before) && (d in after ==> Marked(after, d, marker))
  {
    var m := d + [MARKER_FILE];
    assert m[|m| - 1] == MARKER_FILE;
  }

  lemma LostOnlyLegacy(before: Tree, after: Tree, r: Roots, p: Plan, d: Path)
    requires Lost(before, after, r, p) && OnlyLegacyFiles(before, d)
    ensures OnlyLegacyFiles(after, d)
  {
    forall n | n in Children(after, d)
      ensures d + [n] in after && after[d + [n]].File? && n in LEGACY_FILES
    {
      LostChild(before, after, r, p, d, n);
    }
  }

  lemma LostNoLinks(before: Tree, after: Tree, r: Roots, p: Plan, d: Path)
    requires Lost(before, after, r, p) && NoLinksIn(before, d)
    ensures NoLinksIn(after, d)
  {
    forall n | n in Children(after, d)
      ensures d + [n] in after && after[d + [n]] != Link
    {
      LostChild(before, after, r, p, d, n);
    }
  }

  lemma MarkedStays(before: Tree, after: Tree, r: Roots, p: Plan)
    requires Lost(before, after, r, p) && MarkedRuntime(before, r, p)
    ensures MarkedRuntime(after, r, p)
  {
    var d := r.Deployment(p);
    LostMarked(before, after, r, p, d, RuntimeMarker(p));
    forall n | n in Children(after, d) && n != MARKER_FILE
      ensures n in p.nodes && r.Node(p, n) in after && after[r.Node(p, n)] == Directory
    {
      LostChild(before, after, r, p, d, n);
    }
  }

  /** The nodes' directories, when the runtime directory is not of the legacy form. */
  lemma NodeStays(before: Tree, after: Tree, r: Roots, p: Plan, node: string)
    requires Lost(before, after, r, p) && NodeOk(before, r, p, node) && !LegacyRuntime(before, r, p)
             && !LegacyRuntime(after, r, p)
    ensures NodeOk(after, r, p, node)
  {
    LostMarked(before, after, r, p, r.Node(p, node), RuntimeNodeMarker(p, node));
    LostMarked(before, after, r, p, r.State(p, node), StateMarker(p, node));
    LostMarked(before, after, r, p, r.Config(p, node), ConfigMarker(p, node));
    if r.Node(p, node) in before {
      LostNoLinks(before, after, r, p, r.Node(p, node));
    }
  }

  lemma LegacyNodeStays(before: Tree, after: Tree, r: Roots, p: Plan, d: Path)
    requires Lost(before, after, r, p) && LegacyNode(before, d)
    ensures d in after && (LegacyNode(after, d) <==> HasPid(after, d))
  {
    LostOnlyLegacy(before, after, r, p, d);
  }

  /** A legacy runtime directory stays one exactly if pid files are left. */
  lemma LegacyStays(before: Tree, after: Tree, r: Roots, p: Plan)
    requires Lost(before, after, r, p) && LegacyRuntime(before, r, p) && ArtifactsOk(before, r, p)
    ensures r.Deployment(p) in after && !MarkedRuntime(after, r, p)
    ensures LegacyRuntime(after, r, p) <==> PidsLeft(after, r, p)
  {
    var d := r.Deployment(p);
    forall n | n in Children(before, d)
      ensures n in Children(after, d) && n in p.nodes && (LegacyNode(after, d + [n]) <==> HasPid(after, d + [n]))
    {
      LostChild(before, after, r, p, d, n);
      LegacyNodeStays(before, after, r, p, d + [n]);
    }
    forall n | n in Children(after, d)
      ensures n in Children(before, d)
    {
      LostChild(before, after, r, p, d, n);
    }
    forall n | n in p.nodes && r.Node(p, n) in after
      ensures n in Children(after, d)
    {
      ChildIsThere(after, d, n);
    }
    forall n | n in Children(after, d)
      ensures r.Node(p, n) in after
    {
      ChildIsThere(after, d, n);
    }
  }

  lemma LegacyNodeOkStays(before: Tree, after: Tree, r: Roots, p: Plan, node: string)
    requires Lost(before, after, r, p) && NodeOk(before, r, p, node) && LegacyRuntime(before, r, p)
             && LegacyRuntime(after, r, p)
    requires node in p.nodes && PidsLeft(after, r, p)
    ensures NodeOk(after, r, p, node)
  {
    LostMarked(before, after, r, p, r.State(p, node), StateMarker(p, node));
    LostMarked(before, after, r, p, r.Config(p, node), ConfigMarker(p, node));
    if r.Node(p, node) in before {
      LegacyNodeStays(before, after, r, p, r.Node(p, node));
      LostNoLinks(before, after, r, p, r.Node(p, node));
    }
  }

  /**
   The second check after the daemons stopped: with markers it passes again. Without markers it passes
   exactly if no node directory has lost its last pid file.
   */
  lemma StillOk(before: Tree, after: Tree, r: Roots, p: Plan)
    requires Lost(before, after, r, p) && ArtifactsOk(before, r, p)
    ensures ArtifactsOk(after, r, p) <==> (LegacyRuntime(before, r, p) ==> PidsLeft(after, r, p))
  {
    if LegacyRuntime(before, r, p) {
      LegacyStays(before, after, r, p);
      if PidsLeft(after, r, p) {
        forall i | 0 <= i < |p.nodes|
          ensures NodeOk(after, r, p, p.nodes[i])
        {
          LegacyNodeOkStays(before, after, r, p, p.nodes[i]);
        }
      }
    } else {
      if MarkedRuntime(before, r, p) {
        MarkedStays(before, after, r, p);
      }
      forall i | 0 <= i < |p.nodes|
        ensures NodeOk(after, r, p, p.nodes[i])
      {
        NodeStays(before, after, r, p, p.nodes[i]);
      }
    }
  }

  class Runtime {
    var tree: Tree
    /** Whom each delivered signal reached. */
    var signals: seq<set<nat>>
    var faults: nat
    const roots: Roots
    /** The reader of metadata. */
    const decode: string -> Reading
    const procs: Processes

    constructor (roots: Roots, tree: Tree, faults: nat, decode: string -> Reading, procs: Processes)
      ensures this.roots == roots && this.tree == tree && this.faults == faults && signals == []
      ensures this.decode == decode && this.procs == procs
    {
      this.roots, this.tree, this.faults, this.signals := roots, tree, faults, [];
      this.decode, this.procs := decode, procs;
    }

    /** Removes a directory with all below it, or, at the cost of a fault, any part of what is below it. */
    method RemoveTree(root: Path) returns (ok: bool)
      modifies this`tree, this`faults
      ensures OnlyBelow(old(tree), tree, {root})
      ensures ok ==> Gone(tree, root) && faults == old(faults)
      ensures !ok ==> faults < old(faults)
    {
      var doomed: set<Path> := set p | p in tree && Under(p, root);
      ok := true;
      if faults > 0 {
        var fails: bool := *;
        if fails {
          var some: set<Path> := *;
          doomed, ok, faults := doomed * some, false, faults - 1;
        }
      }
      tree := tree - doomed;
      assert forall p | p in old(tree) && p !in tree :: root in {root} && Under(p, root);
    }

    /** Removes what exists of one of the deployment's directories. */
    method RemoveArtifact(root: Path) returns (error: Option<Code>)
      requires root in tree ==> tree[root] == Directory
      modifies this`tree, this`faults
      ensures OnlyBelow(old(tree), tree, {root})
      ensures error.None? ==> root !in tree && faults == old(faults)
      ensures error.None? && root in old(tree) ==> Gone(tree, root)
      ensures error.Some? ==> faults < old(faults)
    {
      if root !in tree {
        return None;
      }
      var ok := RemoveTree(root);
      error := if ok then None else Some(Invalid);
      assert Under(root, root);
    }

    /** The checks once more, then the removals, deployment first. */
    method Cleanup(p: Plan) returns (error: Option<Code>)
      requires ClosedAbove(tree)
      modifies this`tree, this`faults
      ensures OnlyBelow(old(tree), tree, roots.Artifacts(p))
      ensures !ArtifactsOk(old(tree), roots, p) ==> error.Some? && tree == old(tree) && faults == old(faults)
      ensures error.None? ==> AllGone(old(tree), tree, roots.Artifacts(p)) && faults == old(faults)
      ensures error.Some? && ArtifactsOk(old(tree), roots, p) ==> faults < old(faults)
    {
      error := ValidateArtifacts(tree, roots, p);
      if error.Some? {
        return;
      }
      ghost var before := tree;
      ghost var done := {roots.Deployment(p)};
      RootsAreDirectories(before, roots, p);
      error := RemoveArtifact(roots.Deployment(p));
      if error.Some? {
        Widen(before, tree, done, roots.Artifacts(p));
        return;
      }
      for i := 0 to |p.nodes|
        invariant error.None? && faults == old(faults) && done <= roots.Artifacts(p)
        invariant OnlyBelow(before, tree, done) && AllGone(before, tree, done) && roots.Deployment(p) in done
        invariant forall j | 0 <= j < i :: roots.State(p, p.nodes[j]) in done && roots.Config(p, p.nodes[j]) in done
      {
        ghost var state, config := roots.State(p, p.nodes[i]), roots.Config(p, p.nodes[i]);
        assert state in roots.Artifacts(p) && config in roots.Artifacts(p);
        ghost var step := tree;
        error := RemoveArtifact(roots.State(p, p.nodes[i]));
        OneMoreGone(before, step, tree, done, state, error.None?);
        done, step := done + {state}, tree;
        if error.None? {
          error := RemoveArtifact(roots.Config(p, p.nodes[i]));
          OneMoreGone(before, step, tree, done, config, error.None?);
          done := done + {config};
        }
        if error.Some? {
          Widen(before, tree, done, roots.Artifacts(p));
          return;
        }
      }
      assert done == roots.Artifacts(p);
    }

    /** Probes a number on record; none if it is too large to be passed on, which no handler expects. */
    method Probe(pid: nat) returns (exists_: Option<bool>)
      ensures exists_ == if pid > MAX_PID then None else Some(pid in procs.Alive())
    {
      exists_ := if pid > MAX_PID then None else Some(pid in procs.Alive());
    }

    /** The existing processes of one node, after those found before. */
    method FindInNode(node: string, records: seq<Record>, found: seq<Target>) returns (more: Option<seq<Target>>)
      ensures more.Some? <==> InRange(records)
      ensures more.Some? ==> more.value == found + Existing(node, records, procs.Alive(), |records|)
    {
      var targets := found;
      for k := 0 to |records|
        invariant targets == found + Existing(node, records, procs.Alive(), k)
        invariant forall i | 0 <= i < k :: records[i].pid <= MAX_PID
      {
        var answer := Probe(records[k].pid);
        if answer.None? {
          return None;
        }
        if answer.value {
          targets := targets + [Target(node, records[k].pid)];
        }
      }
      more := Some(targets);
    }

    /** The existing processes of all nodes; none exactly if some record cannot be read or probed. */
    method FindProcesses(p: Plan) returns (found: Option<seq<Target>>)
      ensures found.Some? <==> RecordsOk(tree, roots, p, decode)
      ensures found.Some? ==> found.value == TargetsOf(tree, roots, p, decode, procs.Alive(), |p.nodes|)
    {
      var targets: seq<Target> := [];
      for k := 0 to |p.nodes|
        invariant targets == TargetsOf(tree, roots, p, decode, procs.Alive(), k)
        invariant ReadsUpTo(tree, roots, p, decode, k)
      {
        ReadsNext(tree, roots, p, decode, k);
        var more := FindOn(p, p.nodes[k], targets);
        if more.None? {
          return None;
        }
        targets := more.value;
      }
      found := Some(targets);
    }

    /** Reads and probes the records of one node. */
    method FindOn(p: Plan, node: string, found: seq<Target>) returns (more: Option<seq<Target>>)
      ensures more.Some? <==> NodeReads(tree, roots.Node(p, node), decode)
      ensures more.Some? ==>
                var records := RecordsOf(tree, roots.Node(p, node), decode);
                more.value == found + Existing(node, records, procs.Alive(), |records|)
    {
      var records := ReadRecords(tree, roots.Node(p, node), decode);
      if records.None? {
        return None;
      }
      more := FindInNode(node, records.value, found);
    }

    /**
     Stops one process as far as its group can be found. The daemons that are reached may take files of the
     plan's nodes along.
     */
    method Signal(p: Plan, target: Target)
      requires target.pid in procs.Alive()
      modifies this`tree, this`signals
      ensures signals == old(signals) + Deliveries(procs, [target.pid]) && Lost(old(tree), tree, roots, p)
    {
      var skipped, reached := TerminateOne(procs, target.pid);
      assert Deliveries(procs, [target.pid]) == if skipped then [] else [reached];
      if !skipped {
        signals := signals + [reached];
        var some: set<Path> := *;
        tree := tree - (set q | q in tree && q in some && tree[q].File? && AnyDaemonFile(roots, p, q));
      }
    }

    method Terminate(p: Plan, found: seq<Target>)
      requires forall i | 0 <= i < |found| :: found[i].pid in procs.Alive()
      modifies this`tree, this`signals
      ensures signals == old(signals) + Deliveries(procs, PidsOf(found)) && Lost(old(tree), tree, roots, p)
    {
      var k := |found|;
      assert found[..k] == found;
      while k > 0
        invariant 0 <= k <= |found|
        invariant signals + Deliveries(procs, PidsOf(found[..k])) == old(signals) + Deliveries(procs, PidsOf(found))
        invariant Lost(old(tree), tree, roots, p)
      {
        k := k - 1;
        ghost var step := tree;
        Signal(p, found[k]);
        LostTwice(old(tree), step, tree, roots, p);
        LastDelivery(procs, found, k);
      }
    }

    /** Signals what was found, checks again and removes. */
    method Finish(p: Plan, found: seq<Target>) returns (error: Option<Code>)
      requires ClosedAbove(tree) && ArtifactsOk(tree, roots, p)
      requires forall i | 0 <= i < |found| :: found[i].pid in procs.Alive()
      modifies this`tree, this`faults, this`signals
      ensures OnlyBelow(old(tree), tree, OwnRoots(old(tree), roots, p))
      ensures signals == old(signals) + Deliveries(procs, PidsOf(found))
      ensures error.Some? ==>
                || faults < old(faults)
                || (LegacyRuntime(old(tree), roots, p) && Lost(old(tree), tree, roots, p) && !PidsLeft(tree, roots, p))
      ensures error.None? ==> faults == old(faults) && AllGone(old(tree), tree, roots.Artifacts(p))
    {
      ghost var before := tree;
      Terminate(p, found);
      ghost var between := tree;
      LostBelow(before, between, roots, p);
      LostKeepsClosed(before, between, roots, p);
      StillOk(before, between, roots, p);
      error := Cleanup(p);
      BelowTwice(before, between, tree, roots.Artifacts(p));
      BelowOwn(before, tree, roots, p);
      if error.None? {
        GoneThroughout(before, between, tree, roots, p);
      }
    }

    /**
     Stops the deployment's daemons. It gets past the records exactly if all directories pass their check
     and all records can be read and probed; if not, nothing is signalled and nothing removed. If so, the
     groups named by the existing processes on record are signalled: exactly those processes if and only if
     each of them is heard and has no unrecorded company. Afterwards every directory of the deployment is
     gone, unless a removal failed, or the daemons of a legacy runtime took the last pid file of a node
     along: then the rest stays. Whatever is gone was below a directory that carried the deployment's own
     marker or the legacy look.
     */
    method Stop(p: Plan) returns (error: Option<Failure>)
      requires ClosedAbove(tree)
      modifies this`tree, this`faults, this`signals
      ensures OnlyBelow(old(tree), tree, OwnRoots(old(tree), roots, p))
      ensures !ArtifactsOk(old(tree), roots, p) ==> error.Some? && error.value.Reported?
      ensures error == Some(Uncaught) <==> ArtifactsOk(old(tree), roots, p) && !RecordsOk(old(tree), roots, p, decode)
      ensures !Stoppable(old(tree), roots, p, decode) ==>
                tree == old(tree) && signals == old(signals) && faults == old(faults)
      ensures Stoppable(old(tree), roots, p, decode) ==>
                var pids := Recorded(old(tree), roots, p, decode, procs);
                && signals == old(signals) + Deliveries(procs, pids)
                && ((forall q :: q in Reached(Deliveries(procs, pids)) <==> q in pids) <==>
                    forall o | o in pids :: procs.Heard(o, pids) && procs.Only(o, pids))
      ensures Stoppable(old(tree), roots, p, decode) && error.Some? ==>
                || faults < old(faults)
                || (LegacyRuntime(old(tree), roots, p) && Lost(old(tree), tree, roots, p) && !PidsLeft(tree, roots, p))
      ensures error.None? ==> faults == old(faults) && AllGone(old(tree), tree, roots.Artifacts(p))
    {
      NothingBelow(tree, OwnRoots(tree, roots, p));
      var invalid := ValidateArtifacts(tree, roots, p);
      if invalid.Some? {
        return Some(Reported(invalid.value));
      }
      var found := FindProcesses(p);
      if found.None? {
        return Some(Uncaught);
      }
      TargetsAlive(tree, roots, p, decode, procs.Alive(), |p.nodes|);
      ExactlyIff(procs, PidsOf(found.value));
      var failed := Finish(p, found.value);
      error := if failed.Some? then Some(Reported(failed.value)) else None;
    }
  }

  /** The numbers of the existing processes on record, in the order found. */
  function Recorded(t: Tree, r: Roots, p: Plan, decode: string -> Reading, procs: Processes): (result: seq<nat>) {
    PidsOf(TargetsOf(t, r, p, decode, procs.Alive(), |p.nodes|))
  }

  /** The directories of the deployment that carry its own marker, or for the runtime directory the legacy look. */
  ghost predicate OwnRoot(t: Tree, r: Roots, p: Plan, d: Path) {
    || (d == r.Deployment(p) && (Marked(t, d, RuntimeMarker(p)) || LegacyRuntime(t, r, p)))
    || (exists n {:trigger r.State(p, n)} :: n in p.nodes && d == r.State(p, n) && Marked(t, d, StateMarker(p, n)))
    || (exists n {:trigger r.Config(p, n)} :: n in p.nodes && d == r.Config(p, n) && Marked(t, d, ConfigMarker(p, n)))
  }

  ghost function OwnRoots(t: Tree, r: Roots, p: Plan): (result: set<Path>) {
    set d | d in r.Artifacts(p) && OwnRoot(t, r, p, d)
  }

  lemma NothingBelow(t: Tree, roots: set<Path>)
    ensures OnlyBelow(t, t, roots)
  {
  }

  /** What is gone below a directory of the deployment is gone below one that was its own. */
  lemma BelowOwn(before: Tree, after: Tree, r: Roots, p: Plan)
    requires OnlyBelow(before, after, r.Artifacts(p)) && ArtifactsOk(before, r, p) && ClosedAbove(before)
    ensures OnlyBelow(before, after, OwnRoots(before, r, p))
  {
    forall q | q in before && q !in after
      ensures Covered(q, OwnRoots(before, r, p))
    {
      LostIsOwn(before, after, r, p, q);
    }
  }

  lemma LostIsOwn(before: Tree, after: Tree, r: Roots, p: Plan, q: Path)
    requires OnlyBelow(before, after, r.Artifacts(p)) && ArtifactsOk(before, r, p) && ClosedAbove(before)
    requires q in before && q !in after
    ensures Covered(q, OwnRoots(before, r, p))
  {
    assert Covered(q, r.Artifacts(p));
    var d :| d in r.Artifacts(p) && Under(q, d);
    ArtifactIsPath(r, p, d);
    PresentIsOwn(before, r, p, d);
    assert d in OwnRoots(before, r, p);
  }

  lemma ArtifactIsPath(r: Roots, p: Plan, d: Path)
    requires d in r.Artifacts(p)
    ensures d != []
  {
  }

  lemma PresentIsOwn(t: Tree, r: Roots, p: Plan, d: Path)
    requires ArtifactsOk(t, r, p) && d in r.Artifacts(p) && d in t
    ensures OwnRoot(t, r, p, d)
  {
    if d != r.Deployment(p) {
      var n :| n in p.nodes && (d == r.State(p, n) || d == r.Config(p, n));
      RemovedWasOwn(t, r, p, n);
    }
  }

  lemma LastDelivery(procs: Processes, found: seq<Target>, k: nat)
    requires k < |found|
    ensures Deliveries(procs, PidsOf(found[..k + 1]))
            == Deliveries(procs, [found[k].pid]) + Deliveries(procs, PidsOf(found[..k]))
  {
    var pids := PidsOf(found[..k + 1]);
    assert pids[..k] == PidsOf(found[..k]) && pids[k] == found[k].pid && [found[k].pid][..0] == [];
  }

  /** A stop will signal and remove. */
  predicate Stoppable(t: Tree, r: Roots, p: Plan, decode: string -> Reading) {
    ArtifactsOk(t, r, p) && RecordsOk(t, r, p, decode)
  }

  lemma TargetsAlive(t: Tree, r: Roots, p: Plan, decode: string -> Reading, alive: set<nat>, k: nat)
    requires k <= |p.nodes|
    ensures forall i | 0 <= i < |TargetsOf(t, r, p, decode, alive, k)| ::
              TargetsOf(t, r, p, decode, alive, k)[i].pid in alive
  {
    var targets := TargetsOf(t, r, p, decode, alive, k);
    forall i | 0 <= i < |targets|
      ensures targets[i].pid in alive
    {
      TargetsMean(t, r, p, decode, alive, k, targets[i]);
    }
  }

  lemma LostBelow(before: Tree, after: Tree, r: Roots, p: Plan)
    requires Lost(before, after, r, p)
    ensures OnlyBelow(before, after, r.Artifacts(p))
  {
    forall q | q in before && q !in after
      ensures Covered(q, r.Artifacts(p))
    {
      var n :| n in p.nodes && DaemonFile(r, p, n, q);
      if Under(q, r.Node(p, n)) {
        Below(q, r.Node(p, n), r.Deployment(p));
        assert r.Deployment(p) in r.Artifacts(p);
      } else {
        assert r.State(p, n) in r.Artifacts(p);
      }
    }
  }

  lemma LostKeepsClosed(before: Tree, after: Tree, r: Roots, p: Plan)
    requires Lost(before, after, r, p) && ClosedAbove(before)
    ensures ClosedAbove(after)
  {
  }

  lemma BelowTwice(before: Tree, between: Tree, after: Tree, roots: set<Path>)
    requires OnlyBelow(before, between, roots) && OnlyBelow(between, after, roots)
    ensures OnlyBelow(before, after, roots)
  {
  }

  lemma GoneThroughout(before: Tree, between: Tree, after: Tree, r: Roots, p: Plan)
    requires Lost(before, between, r, p) && ArtifactsOk(before, r, p) && AllGone(between, after, r.Artifacts(p))
    ensures AllGone(before, after, r.Artifacts(p))
  {
    RootsAreDirectories(before, r, p);
  }

  /** None of `roots` is there, and of those that were there nothing is left. */
  ghost predicate AllGone(before: Tree, after: Tree, roots: set<Path>) {
    forall d | d in roots :: d !in after && (d in before ==> Gone(after, d))
  }

  lemma Widen(before: Tree, after: Tree, roots: set<Path>, more: set<Path>)
    requires OnlyBelow(before, after, roots) && roots <= more
    ensures OnlyBelow(before, after, more)
  {
    forall p | p in before && p !in after
      ensures Covered(p, more)
    {
      assert Covered(p, roots);
    }
  }

  lemma Below(p: Path, d: Path, root: Path)
    requires Under(p, d) && Under(d, root)
    ensures Under(p, root)
  {
    assert p[..|root|] == p[..|d|][..|root|];
  }

  /** What an earlier removal took along is gone with all below it. */
  lemma AlreadyGone(before: Tree, step: Tree, done: set<Path>, d: Path)
    requires OnlyBelow(before, step, done) && AllGone(before, step, done) && ClosedAbove(before)
    requires (forall root | root in done :: root != []) && d in before && d !in step
    ensures Gone(step, d)
  {
    assert Covered(d, done);
    var root :| root in done && Under(d, root);
    assert root in before && Gone(step, root);
    forall p | p in step
      ensures !Under(p, d)
    {
      if Under(p, d) { Below(p, d, root); }
    }
  }

  lemma OneMoreGone(before: Tree, step: Tree, after: Tree, done: set<Path>, d: Path, ok: bool)
    requires OnlyBelow(before, step, done) && AllGone(before, step, done) && OnlyBelow(step, after, {d})
    requires ok ==> d !in after && (d in step ==> Gone(after, d))
    requires ClosedAbove(before) && forall root | root in done :: root != []
    ensures OnlyBelow(before, after, done + {d})
    ensures ok ==> AllGone(before, after, done + {d})
  {
    forall p | p in before && p !in after
      ensures Covered(p, done + {d})
    {
      if p in step { assert Covered(p, {d}); } else { assert Covered(p, done); }
    }
    if d in before && d !in step {
      AlreadyGone(before, step, done, d);
    }
  }

  /** A directory that passed its check is a directory. */
  lemma RootsAreDirectories(t: Tree, r: Roots, p: Plan)
    requires ArtifactsOk(t, r, p)
    ensures forall d | d in r.Artifacts(p) && d in t :: t[d] == Directory
  {
    forall d | d in r.Artifacts(p) && d in t
      ensures t[d] == Directory
    {
      if d != r.Deployment(p) {
        var n :| n in p.nodes && (d == r.State(p, n) || d == r.Config(p, n));
        var i :| 0 <= i < |p.nodes| && p.nodes[i] == n;
        assert NodeOk(t, r, p, p.nodes[i]);
      }
    }
  }

  /** What a removed directory carried: this deployment's marker, or the legacy look for the runtime directory. */
  lemma RemovedWasOwn(t: Tree, r: Roots, p: Plan, node: string)
    requires ArtifactsOk(t, r, p) && node in p.nodes
    ensures r.Deployment(p) in t ==> Marked(t, r.Deployment(p), RuntimeMarker(p)) || LegacyRuntime(t, r, p)
    ensures r.State(p, node) in t ==> Marked(t, r.State(p, node), StateMarker(p, node))
    ensures r.Config(p, node) in t ==> Marked(t, r.Config(p, node), ConfigMarker(p, node))
  {
    var i :| 0 <= i < |p.nodes| && p.nodes[i] == node;
    assert NodeOk(t, r, p, p.nodes[i]);
  }

  /** A state or config directory of another deployment or node at one's own path makes stopping refuse. */
  lemma ForeignIsRefused(t: Tree, r: Roots, p: Plan, node: string, other: Plan, theirs: string)
    requires node in p.nodes && Pathspace(p, node) == Pathspace(other, theirs)
    requires Marked(t, r.State(other, theirs), StateMarker(other, theirs))
             || Marked(t, r.Config(other, theirs), ConfigMarker(other, theirs))
    requires Lacks(p.name, '\n') && Lacks(other.name, '\n') && Lacks(node, '\n') && Lacks(theirs, '\n')
    requires p.name != other.name || node != theirs
    ensures !ArtifactsOk(t, r, p)
  {
    if ArtifactsOk(t, r, p) {
      RemovedWasOwn(t, r, p, node);
      if Marked(t, r.State(other, theirs), StateMarker(other, theirs)) {
        StateMarkersDiffer(t, r.State(p, node), p, node, other, theirs);
      } else {
        ConfigMarkersDiffer(t, r.Config(p, node), p, node, other, theirs);
      }
    }
  }

  /**
   Without markers a stop may refuse after it signalled: daemons that take a node's last pid file along
   make the second check fail.
   */
  lemma LegacyMayBeRefused(t: Tree, r: Roots, p: Plan, node: string) returns (after: Tree)
    requires ArtifactsOk(t, r, p) && LegacyRuntime(t, r, p) && node in p.nodes && r.Node(p, node) in t
    ensures Lost(t, after, r, p) && !ArtifactsOk(after, r, p)
  {
    var d := r.Node(p, node);
    var i :| 0 <= i < |p.nodes| && p.nodes[i] == node;
    assert NodeOk(t, r, p, p.nodes[i]);
    var gone := set n | n in Children(t, d) && n != MARKER_FILE :: d + [n];
    after := t - gone;
    forall q | q in t && q !in after
      ensures t[q].File? && DaemonFile(r, p, node, q)
    {
      var n :| n in Children(t, d) && n != MARKER_FILE && q == d + [n];
    }
    assert forall q | q in t && q !in after :: AnyDaemonFile(r, p, q);
    assert Lost(t, after, r, p);
    forall n | n in Children(after, d)
      ensures !EndsWith(n, ".pid")
    {
      ChildIsThere(after, d, n);
      ChildIsThere(t, d, n);
      assert n == MARKER_FILE;
    }
    StillOk(t, after, r, p);
  }

  // Where a stop does not get through.

  /** A pid file with too large a number, and no metadata for the daemon: the probe fails and nothing is stopped. */
  lemma OversizedPid(t: Tree, r: Roots, p: Plan, node: string, daemon: string, decode: string -> Reading)
    requires node in p.nodes && daemon in DAEMONS
    requires var d := r.Node(p, node);
             && d in t && t[d] == Directory && PidFile(t, d, daemon).Some? && PidFile(t, d, daemon).value > MAX_PID
             && Listed(EntriesOf(MetadataOf(t, d, decode)), daemon).None?
    ensures !RecordsOk(t, r, p, decode)
  {
    var d := r.Node(p, node);
    var record := Record(daemon, PidFile(t, d, daemon).value);
    RecordsMean(t, d, decode, record);
    var j :| 0 <= j < |RecordsOf(t, d, decode)| && RecordsOf(t, d, decode)[j] == record;
    assert !InRange(RecordsOf(t, d, decode));
    var i :| 0 <= i < |p.nodes| && p.nodes[i] == node;
    assert !NodeReads(t, r.Node(p, p.nodes[i]), decode);
  }

  const LARGE := "9999999999"

  /** A deployment of one node with nothing but markers and a pid file. */
  function OnePidFile(r: Roots, p: Plan, node: string, text: string): (result: Tree) {
    map[r.Deployment(p) := Directory,
        r.Deployment(p) + [MARKER_FILE] := File(Some(RuntimeMarker(p))),
        r.Node(p, node) := Directory,
        r.Node(p, node) + [MARKER_FILE] := File(Some(RuntimeNodeMarker(p, node))),
        r.Node(p, node) + ["zebra.pid"] := File(Some(text))]
  }

  lemma LargeValue()
    ensures Ascii(LARGE) && IntOf(LARGE) == Some(9_999_999_999)
  {
    var s := LARGE;
    assert Nines(s);
    NoSpaces(s);
    NinesMean(s);
    NinesValue(s);
    assert Power10(5) == 100_000 && Power10(10) == 100_000 * 100_000;
  }

  predicate Nines(s: string) {
    forall i | 0 <= i < |s| :: s[i] == '9'
  }

  lemma {:induction false} NinesMean(s: string)
    requires Nines(s)
    ensures DigitsOf(s) == s
  {
    if s != "" {
      NinesMean(s[..|s| - 1]);
      assert s == s[..|s| - 1] + [s[|s| - 1]];
    }
  }

  function Power10(k: nat): (r: nat) {
    if k == 0 then 1 else 10 * Power10(k - 1)
  }

  lemma {:induction false} NinesValue(s: string)
    requires Nines(s)
    ensures (forall i | 0 <= i < |s| :: Digit(s[i])) && ValueOf(s) == Power10(|s|) - 1
  {
    if s != "" {
      NinesValue(s[..|s| - 1]);
    }
  }

  lemma OnePidFileChildren(r: Roots, p: Plan, node: string, text: string, n: string)
    requires node != MARKER_FILE
    ensures var t := OnePidFile(r, p, node, text);
            && (n in Children(t, r.Deployment(p)) <==> n == MARKER_FILE || n == node)
            && (n in Children(t, r.Node(p, node)) <==> n == MARKER_FILE || n == "zebra.pid")
  {
    var t := OnePidFile(r, p, node, text);
    var d, e := r.Deployment(p), r.Node(p, node);
    ChildIsThere(t, d, n);
    ChildIsThere(t, e, n);
    assert (d + [n])[|d|] == n && (d + [MARKER_FILE])[|d|] == MARKER_FILE && e[|d|] == node;
    assert (e + [n])[|e|] == n && (e + [MARKER_FILE])[|e|] == MARKER_FILE && (e + ["zebra.pid"])[|e|] == "zebra.pid";
    assert |d + [n]| == |d| + 1 && |e + [n]| == |d| + 2 && |e| == |d| + 1;
  }

  lemma OnePidFileOk(r: Roots, p: Plan, node: string, text: string)
    requires node != MARKER_FILE && p.nodes == [node] && Ascii(RuntimeMarker(p)) && Ascii(RuntimeNodeMarker(p, node))
    requires var t := OnePidFile(r, p, node, text); r.State(p, node) !in t && r.Config(p, node) !in t
    ensures var t := OnePidFile(r, p, node, text); ArtifactsOk(t, r, p) && !LegacyRuntime(t, r, p)
  {
    var t := OnePidFile(r, p, node, text);
    var d, e := r.Deployment(p), r.Node(p, node);
    assert (e + [MARKER_FILE])[|e|] != (e + ["zebra.pid"])[|e|];
    assert |d + [MARKER_FILE]| == |e| && (d + [MARKER_FILE])[|d|] != e[|d|];
    assert Marked(t, d, RuntimeMarker(p)) && Marked(t, e, RuntimeNodeMarker(p, node));
    forall n | n in Children(t, d) && n != MARKER_FILE
      ensures n in p.nodes && r.Node(p, n) in t && t[r.Node(p, n)] == Directory
    {
      OnePidFileChildren(r, p, node, text, n);
    }
    forall n | n in Children(t, e)
      ensures e + [n] in t && t[e + [n]] != Link
    {
      OnePidFileChildren(r, p, node, text, n);
    }
    assert MarkedRuntime(t, r, p) && !LegacyRuntime(t, r, p);
  }

  /** All directories of such a deployment pass, and yet with too large a number on record it cannot be stopped. */
  lemma LargePidStuck(r: Roots, p: Plan, node: string, decode: string -> Reading)
    requires node != MARKER_FILE && p.nodes == [node] && Ascii(RuntimeMarker(p)) && Ascii(RuntimeNodeMarker(p, node))
    requires var t := OnePidFile(r, p, node, LARGE); r.State(p, node) !in t && r.Config(p, node) !in t
    ensures var t := OnePidFile(r, p, node, LARGE); ArtifactsOk(t, r, p) && !RecordsOk(t, r, p, decode)
  {
    var t, d := OnePidFile(r, p, node, LARGE), r.Node(p, node);
    OnePidFileOk(r, p, node, LARGE);
    LargePidFile(t, d);
    NoMetadata(r, p, node, LARGE);
    OversizedPid(t, r, p, node, DAEMONS[0], decode);
  }

  lemma LargePidFile(t: Tree, d: Path)
    requires d + ["zebra.pid"] in t && t[d + ["zebra.pid"]] == File(Some(LARGE))
    ensures DAEMONS[0] in DAEMONS && PidFile(t, d, DAEMONS[0]) == Some(9_999_999_999)
  {
    LargeValue();
    FirstFile(t, d, LARGE, 9_999_999_999);
  }

  lemma FirstFile(t: Tree, d: Path, text: string, value: nat)
    requires d + ["zebra.pid"] in t && t[d + ["zebra.pid"]] == File(Some(text))
    requires Ascii(text) && IntOf(text) == Some(value) && value > 0
    ensures DAEMONS[0] in DAEMONS && PidFile(t, d, DAEMONS[0]) == Some(value)
  {
    assert DAEMONS[0] + ".pid" == "zebra.pid";
  }

  lemma NoMetadata(r: Roots, p: Plan, node: string, text: string)
    requires node != MARKER_FILE
    ensures r.Node(p, node) + ["processes.json"] !in OnePidFile(r, p, node, text)
  {
    var t, e := OnePidFile(r, p, node, text), r.Node(p, node);
    OnePidFileChildren(r, p, node, text, "processes.json");
    ChildIsThere(t, e, "processes.json");
  }

  const SEVEN := "7"

  lemma SevenFile(t: Tree, d: Path)
    requires d + ["zebra.pid"] in t && t[d + ["zebra.pid"]] == File(Some(SEVEN))
    ensures PidFile(t, d, DAEMONS[0]) == Some(7)
  {
    NoSpaces(SEVEN);
    assert DigitsOf(SEVEN) == SEVEN && ValueOf(SEVEN) == 7;
    FirstFile(t, d, SEVEN, 7);
  }

  lemma OtherDaemons(r: Roots, p: Plan, node: string, k: nat)
    requires node != MARKER_FILE && 1 <= k < |DAEMONS|
    ensures PidFile(OnePidFile(r, p, node, SEVEN), r.Node(p, node), DAEMONS[k]).None?
  {
    var t, d, name := OnePidFile(r, p, node, SEVEN), r.Node(p, node), DAEMONS[k] + ".pid";
    assert name[0] == DAEMONS[k][0] && name[0] != 'z';
    assert name != MARKER_FILE && name != "zebra.pid";
    OnePidFileChildren(r, p, node, SEVEN, name);
    ChildIsThere(t, d, name);
  }

  lemma OneRecord(t: Tree, d: Path, decode: string -> Reading)
    requires d in t && t[d] == Directory && d + ["processes.json"] !in t && PidFile(t, d, DAEMONS[0]) == Some(7)
    requires forall k | 1 <= k < |DAEMONS| :: PidFile(t, d, DAEMONS[k]).None?
    ensures RecordsOf(t, d, decode) == [Record(DAEMONS[0], 7)]
  {
    assert EntriesOf(MetadataOf(t, d, decode)) == [];
    var one := [Record(DAEMONS[0], 7)];
    assert FromFiles(t, d, [], 1) == one;
    assert FromFiles(t, d, [], 2) == one;
    assert FromFiles(t, d, [], 3) == one;
  }

  lemma SevenRecord(r: Roots, p: Plan, node: string, decode: string -> Reading)
    requires node != MARKER_FILE
    ensures RecordsOf(OnePidFile(r, p, node, SEVEN), r.Node(p, node), decode) == [Record(DAEMONS[0], 7)]
  {
    var t, d := OnePidFile(r, p, node, SEVEN), r.Node(p, node);
    NoMetadata(r, p, node, SEVEN);
    SevenFile(t, d);
    forall k | 1 <= k < |DAEMONS|
      ensures PidFile(t, d, DAEMONS[k]).None?
    {
      OtherDaemons(r, p, node, k);
    }
    OneRecord(t, d, decode);
  }

  lemma OneTarget(t: Tree, r: Roots, p: Plan, node: string, decode: string -> Reading, procs: Processes, record: Record)
    requires p.nodes == [node] && RecordsOf(t, r.Node(p, node), decode) == [record] && record.pid in procs.Alive()
    ensures Recorded(t, r, p, decode, procs) == [record.pid]
  {
    var records, alive := RecordsOf(t, r.Node(p, node), decode), procs.Alive();
    assert Existing(node, records, alive, 0) == [];
    assert Existing(node, records, alive, 1) == [Target(node, record.pid)];
    assert TargetsOf(t, r, p, decode, alive, 0) == [];
    assert TargetsOf(t, r, p, decode, alive, 1) == [Target(node, record.pid)];
  }

  /** Such a deployment passes all checks, and its one process is on record. */
  lemma SevenStoppable(r: Roots, p: Plan, node: string, decode: string -> Reading, procs: Processes)
    requires node != MARKER_FILE && p.nodes == [node] && Ascii(RuntimeMarker(p)) && Ascii(RuntimeNodeMarker(p, node))
    requires var t := OnePidFile(r, p, node, SEVEN); r.State(p, node) !in t && r.Config(p, node) !in t
    requires 7 in procs.Alive()
    ensures var t := OnePidFile(r, p, node, SEVEN);
            && Stoppable(t, r, p, decode) && !LegacyRuntime(t, r, p) && Recorded(t, r, p, decode, procs) == [7]
  {
    var t := OnePidFile(r, p, node, SEVEN);
    OnePidFileOk(r, p, node, SEVEN);
    SevenRecord(r, p, node, decode);
    NoMetadata(r, p, node, SEVEN);
    assert NodeReads(t, r.Node(p, node), decode);
    OneTarget(t, r, p, node, decode, procs, Record(DAEMONS[0], 7));
  }

  lemma OnePidFileClosed(r: Roots, p: Plan, node: string, text: string)
    requires r.runtime == []
    ensures ClosedAbove(OnePidFile(r, p, node, text))
  {
    var t := OnePidFile(r, p, node, text);
    var d, e := r.Deployment(p), r.Node(p, node);
    forall q, a | q in t && a != [] && a != q && Under(q, a)
      ensures a in t && t[a] == Directory
    {
      assert |a| < |q| <= 3;
      assert |a| == 1 ==> a == d;
      assert |a| == 2 ==> a == e;
      assert (e + [MARKER_FILE])[|e|] != (e + ["zebra.pid"])[|e|] && |d + [MARKER_FILE]| == |e|;
    }
  }

  /**
   A process on record whose number names no group: the stop ends well, all directories of the deployment
   are gone, and nobody has got a signal.
   */
  method StopPassingOver(runtime: Runtime, p: Plan, pid: nat) returns (error: Option<Failure>)
    requires ClosedAbove(runtime.tree) && runtime.faults == 0
             && Stoppable(runtime.tree, runtime.roots, p, runtime.decode)
    requires !LegacyRuntime(runtime.tree, runtime.roots, p)
    requires Recorded(runtime.tree, runtime.roots, p, runtime.decode, runtime.procs) == [pid]
    requires pid in runtime.procs.Alive() && runtime.procs.Members(pid) == {}
    modifies runtime
    ensures error == None && runtime.signals == old(runtime.signals)
    ensures AllGone(old(runtime.tree), runtime.tree, runtime.roots.Artifacts(p))
  {
    SilentlySkipped(runtime.procs, pid);
    error := runtime.Stop(p);
  }

  const LAB := Roots([], ["var", "run", "frr"], ["etc", "frr", "lab"])

  lemma LabApart(p: Plan, node: string, text: string)
    ensures LAB.State(p, node) !in OnePidFile(LAB, p, node, text)
            && LAB.Config(p, node) !in OnePidFile(LAB, p, node, text)
  {
    assert forall q | q in OnePidFile(LAB, p, node, text) :: |q| <= 3;
    assert |LAB.State(p, node)| == 4 && |LAB.Config(p, node)| == 4;
  }

  lemma LabReady(p: Plan, node: string, decode: string -> Reading, procs: Processes)
    requires node != MARKER_FILE && p.nodes == [node] && Ascii(RuntimeMarker(p)) && Ascii(RuntimeNodeMarker(p, node))
    requires 7 in procs.Alive()
    ensures var t := OnePidFile(LAB, p, node, SEVEN);
            && ClosedAbove(t) && Stoppable(t, LAB, p, decode) && !LegacyRuntime(t, LAB, p)
            && Recorded(t, LAB, p, decode, procs) == [7] && LAB.Deployment(p) in LAB.Artifacts(p)
  {
    LabApart(p, node, SEVEN);
    SevenStoppable(LAB, p, node, decode, procs);
    OnePidFileClosed(LAB, p, node, SEVEN);
  }

  function Stray(): (procs: Processes)
    ensures 7 in procs.Alive() && 7 in procs.permitted && procs.Members(7) == {}
  {
    Processes(map[3 := 3, 7 := 3], {3, 7})
  }

  /** For one, a process that exists, may be signalled, and is in a group of another number. */
  method LeaveRunning(p: Plan, node: string, decode: string -> Reading)
    returns (runtime: Runtime, error: Option<Failure>)
    requires node != MARKER_FILE && p.nodes == [node] && Ascii(RuntimeMarker(p)) && Ascii(RuntimeNodeMarker(p, node))
    ensures fresh(runtime) && 7 in runtime.procs.Alive() && 7 in runtime.procs.permitted
    ensures error == None && runtime.roots.Deployment(p) !in runtime.tree && runtime.signals == []
  {
    LabReady(p, node, decode, Stray());
    runtime := new Runtime(LAB, OnePidFile(LAB, p, node, SEVEN), 0, decode, Stray());
    error := StopPassingOver(runtime, p, 7);
  }
}
