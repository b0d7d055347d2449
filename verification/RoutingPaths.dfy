/** Names and markers of the directories that a deployment's routing daemons use. */
module RoutingPaths {
  import opened FileTree
  import opened Options
  import opened Texts

  /** The nodes that run daemons, in plan order. */
  datatype Plan = Plan(name: string, fingerprint: string, nodes: seq<string>)

  const MARKER_FILE := ".nslab-marker"

  function Line(key: string, value: string): (r: string) {
    key + "=" + value + "\n"
  }

  function RuntimeMarker(p: Plan): (r: string) {
    "nslab-managed-runtime-v1\nname=" + (p.name + ['\n'] + Line("fingerprint", p.fingerprint))
  }

  function RuntimeNodeMarker(p: Plan, node: string): (r: string) {
    "nslab-managed-runtime-node-v1\nname="
      + (p.name + ['\n'] + ("node=" + (node + ['\n'] + Line("fingerprint", p.fingerprint))))
  }

  function StateMarker(p: Plan, node: string): (r: string) {
    "nslab-managed-state-pathspace-v1\nname="
    + (p.name + ['\n']
      + ("node=" + (node + ['\n'] + (Line("pathspace", Pathspace(p, node)) + Line("fingerprint", p.fingerprint)))))
  }

  function ConfigMarker(p: Plan, node: string): (r: string) {
    "nslab-managed-pathspace-v1\nname="
      + (p.name + ['\n'] + ("node=" + (node + ['\n'] + Line("fingerprint", p.fingerprint))))
  }

  function Pathspace(p: Plan, node: string): (r: string) {
    "nslab-" + p.name + "-" + node
  }

  /** A marker of a node names its deployment and its node. */
  lemma MarkerTells(header: string, p: Plan, node: string, rest: string, p': Plan, node': string, rest': string)
    requires Lacks(p.name, '\n') && Lacks(p'.name, '\n') && Lacks(node, '\n') && Lacks(node', '\n')
    requires header + (p.name + ['\n'] + ("node=" + (node + ['\n'] + rest))) == header
             + (p'.name + ['\n'] + ("node=" + (node' + ['\n'] + rest')))
    ensures p.name == p'.name && node == node' && rest == rest'
  {
    SamePrefix(header, p.name + ['\n'] + ("node=" + (node + ['\n'] + rest)),
      p'.name + ['\n'] + ("node=" + (node' + ['\n'] + rest')));
    SplitOnce(p.name, "node=" + (node + ['\n'] + rest), p'.name, "node=" + (node' + ['\n'] + rest'), '\n');
    SamePrefix("node=", node + ['\n'] + rest, node' + ['\n'] + rest');
    SplitOnce(node, rest, node', rest', '\n');
  }

  lemma SamePrefix(header: string, s: string, t: string)
    requires header + s == header + t
    ensures s == t
  {
    assert (header + s)[|header|..] == s && (header + t)[|header|..] == t;
  }

  /** Where the directories of all deployments live. */
  datatype Roots = Roots(runtime: Path, state: Path, config: Path) {
    function Deployment(p: Plan): (r: Path) {
      runtime + [p.name]
    }

    function Node(p: Plan, node: string): (r: Path) {
      Deployment(p) + [node]
    }

    function State(p: Plan, node: string): (r: Path) {
      state + [Pathspace(p, node)]
    }

    function Config(p: Plan, node: string): (r: Path) {
      config + [Pathspace(p, node)]
    }

    /** Everything a stop may remove. */
    function Artifacts(p: Plan): (r: set<Path>) {
      {Deployment(p)} + (set n | n in p.nodes :: State(p, n)) + (set n | n in p.nodes :: Config(p, n))
    }
  }

  /** A directory with exactly this marker, which is read as ASCII text. */
  predicate Marked(t: Tree, d: Path, marker: string) {
    && d in t && t[d] == Directory && Ascii(marker)
    && d + [MARKER_FILE] in t && t[d + [MARKER_FILE]] == File(Some(marker))
  }

  // Which names share a path.

  predicate ValidPair(name: string, node: string) {
    ValidName(name) && ValidName(node)
  }

  predicate SamePath(name: string, node: string, name': string, node': string) {
    Pathspace(Plan(name, "", []), node) == Pathspace(Plan(name', "", []), node')
  }

  /** No other hyphen of the joined names cuts them into two valid names. */
  predicate OnlyCut(name: string, node: string) {
    var joined := name + "-" + node;
    forall h | 0 <= h < |joined| && joined[h] == '-' && h != |name| :: !ValidPair(joined[..h], joined[h + 1..])
  }

  lemma JoinedNames(name: string, node: string)
    ensures Pathspace(Plan(name, "", []), node) == "nslab-" + (name + "-" + node)
  {
    assert "nslab-" + name + "-" + node == "nslab-" + (name + "-" + node);
  }

  /** Pairs of one path are cuts of one text. */
  lemma SharedIsCut(name: string, node: string, name': string, node': string)
    requires SamePath(name, node, name', node')
    ensures name + "-" + node == name' + "-" + node'
    ensures |name'| == |name| ==> name' == name && node' == node
  {
    JoinedNames(name, node);
    JoinedNames(name', node');
    SamePrefix("nslab-", name + "-" + node, name' + "-" + node');
    CutBack(name + "-" + node, name', node');
    CutBack(name + "-" + node, name, node);
  }

  lemma CutIsShared(name: string, node: string, h: nat)
    requires var joined := name + "-" + node; h < |joined| && joined[h] == '-'
    ensures var joined := name + "-" + node; SamePath(name, node, joined[..h], joined[h + 1..])
  {
    var joined := name + "-" + node;
    JoinedNames(name, node);
    JoinedNames(joined[..h], joined[h + 1..]);
    assert joined == joined[..h] + "-" + joined[h + 1..];
  }

  /** A pair of valid names has its path to itself exactly if the joined names can be cut in one place only. */
  lemma PathIsOwnIff(name: string, node: string)
    requires ValidPair(name, node)
    ensures OnlyCut(name, node) <==>
            forall name', node' {:trigger ValidPair(name', node')} | ValidPair(name', node')
              && SamePath(name, node, name', node') ::
              name' == name && node' == node
  {
    if OnlyCut(name, node) {
      forall name', node' | ValidPair(name', node') && SamePath(name, node, name', node')
        ensures name' == name && node' == node
      {
        SharedIsCut(name, node, name', node');
        CutBack(name + "-" + node, name', node');
      }
    } else {
      var joined := name + "-" + node;
      var h: int :| 0 <= h < |joined| && joined[h] == '-' && h != |name| && ValidPair(joined[..h], joined[h + 1..]);
      CutIsShared(name, node, h);
      assert |joined[..h]| != |name|;
    }
  }

  lemma CutBack(joined: string, head: string, tail: string)
    requires joined == head + "-" + tail
    ensures |head| < |joined| && joined[|head|] == '-' && joined[..|head|] == head && joined[|head| + 1..] == tail
  {
  }

  /** Two deployments that share a path: hyphens in names make them collide. */
  lemma PathsCollide()
    ensures ValidPair("a-b", "c") && ValidPair("a", "b-c") && SamePath("a-b", "c", "a", "b-c")
    ensures !OnlyCut("a-b", "c")
  {
    var joined := "a-b" + "-" + "c";
    assert joined == "a-b-c" && joined[..1] == "a" && joined[1 + 1..] == "b-c" && joined[1] == '-';
    CutIsShared("a-b", "c", 1);
  }

  /** Markers keep apart what names do not: a directory with another pair's marker has not one's own. */
  lemma StateMarkersDiffer(t: Tree, d: Path, p: Plan, node: string, other: Plan, theirs: string)
    requires Lacks(p.name, '\n') && Lacks(other.name, '\n') && Lacks(node, '\n') && Lacks(theirs, '\n')
    requires Marked(t, d, StateMarker(p, node)) && Marked(t, d, StateMarker(other, theirs))
    ensures p.name == other.name && node == theirs
  {
    MarkerTells("nslab-managed-state-pathspace-v1\nname=",
                p, node, Line("pathspace", Pathspace(p, node)) + Line("fingerprint", p.fingerprint),
                other, theirs, Line("pathspace", Pathspace(other, theirs)) + Line("fingerprint", other.fingerprint));
  }

  lemma ConfigMarkersDiffer(t: Tree, d: Path, p: Plan, node: string, other: Plan, theirs: string)
    requires Lacks(p.name, '\n') && Lacks(other.name, '\n') && Lacks(node, '\n') && Lacks(theirs, '\n')
    requires Marked(t, d, ConfigMarker(p, node)) && Marked(t, d, ConfigMarker(other, theirs))
    ensures p.name == other.name && node == theirs && p.fingerprint == other.fingerprint
  {
    MarkerTells("nslab-managed-pathspace-v1\nname=", p, node, Line("fingerprint", p.fingerprint),
                other, theirs, Line("fingerprint", other.fingerprint));
    LinesDiffer("fingerprint" + "=", p.fingerprint, other.fingerprint);
  }

  lemma LinesDiffer(head: string, s: string, t: string)
    requires head + s + "\n" == head + t + "\n"
    ensures s == t
  {
    assert (head + s + "\n")[|head|..|head + s|] == s && (head + t + "\n")[|head|..|head + t|] == t;
  }
}
