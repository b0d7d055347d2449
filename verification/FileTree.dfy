/** A file tree as a table of paths. Links are not followed. */
module FileTree {
  import opened Options

  type Path = seq<string>

  /** A file whose text cannot be read has none. */
  datatype Entry = Directory | File(text: Option<string>) | Link

  type Tree = map<Path, Entry>

  predicate Under(p: Path, root: Path) {
    |root| <= |p| && p[..|root|] == root
  }

  function Children(t: Tree, d: Path): (r: set<string>) {
    set p | p in t && |p| == |d| + 1 && p[..|d|] == d :: p[|d|]
  }

  lemma ChildIsThere(t: Tree, d: Path, n: string)
    ensures n in Children(t, d) <==> d + [n] in t
  {
    if n in Children(t, d) {
      var p :| p in t && |p| == |d| + 1 && p[..|d|] == d && p[|d|] == n;
      assert p == d + [n];
    }
    if d + [n] in t {
      assert (d + [n])[..|d|] == d && (d + [n])[|d|] == n;
    }
  }
}
