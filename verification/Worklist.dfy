/** Worklists of the graph passes: sequences of nodes, each at most once. */
module Worklist {
  predicate Distinct(s: seq<nat>) {
    forall i, j | 0 <= i < j < |s| :: s[i] != s[j]
  }

  function Elements(s: seq<nat>): (r: set<nat>) {
    set n | n in s
  }

  lemma ElementsAppend(s: seq<nat>, n: nat)
    ensures Elements(s + [n]) == Elements(s) + {n}
  {
  }

  lemma SplitFirst<T>(s: seq<T>)
    requires s != []
    ensures s == [s[0]] + s[1..]
  {
  }

  lemma SplitLast<T>(s: seq<T>)
    requires s != []
    ensures s == s[..|s| - 1] + [s[|s| - 1]]
  {
  }

  lemma DistinctConcat(s: seq<nat>, t: seq<nat>)
    requires Distinct(s) && Distinct(t) && forall n | n in t :: n !in s
    ensures Distinct(s + t) && Elements(s + t) == Elements(s) + Elements(t)
  {
    forall i, j | 0 <= i < j < |s + t|
      ensures (s + t)[i] != (s + t)[j]
    {
      if i < |s| <= j { assert t[j - |s|] !in s && s[i] in s; }
    }
  }
}
