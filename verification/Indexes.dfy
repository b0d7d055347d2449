/** Interface indexes: handed out from one upwards in each namespace, and never twice. */
module Indexes {
  import opened Matcher
  import opened Topology

  type Namespaces = map<string, Inventory>

  predicate Has(namespaces: Namespaces, p: Port) {
    p.namespace in namespaces && p.interface in namespaces[p.namespace].interfaces
  }

  /** The index that a namespace hands out next. */
  function Next(next: map<string, nat>, s: string): (r: nat) {
    if s in next then next[s] else 1
  }

  ghost predicate IndexedAt(namespaces: Namespaces, indexes: map<Port, nat>, next: map<string, nat>, p: Port) {
    Has(namespaces, p) ==> p in indexes && 1 <= indexes[p] < Next(next, p.namespace)
  }

  ghost predicate Apart(namespaces: Namespaces, indexes: map<Port, nat>, p: Port, q: Port) {
    Has(namespaces, p) && Has(namespaces, q) && p.namespace == q.namespace && p in indexes && q in indexes
    && indexes[p] == indexes[q] ==>
      p == q
  }

  /** Every interface has a positive index that no other of its namespace has. */
  ghost predicate Indexed(namespaces: Namespaces, indexes: map<Port, nat>, next: map<string, nat>) {
    && (forall s {:trigger Next(next, s)} :: Next(next, s) >= 1)
    && (forall p {:trigger IndexedAt(namespaces, indexes, next, p)} :: IndexedAt(namespaces, indexes, next, p))
    && (forall p, q {:trigger Apart(namespaces, indexes, p, q)} :: Apart(namespaces, indexes, p, q))
  }

  /** No interface but those of `before` and the one at `p`. */
  ghost predicate AtMostMore(before: Namespaces, after: Namespaces, p: Port) {
    forall q {:trigger Has(after, q)} | Has(after, q) :: q == p || Has(before, q)
  }

  ghost predicate NoMore(before: Namespaces, after: Namespaces) {
    forall q {:trigger Has(after, q)} | Has(after, q) :: Has(before, q)
  }

  lemma FewerIndexed(before: Namespaces, after: Namespaces, indexes: map<Port, nat>, next: map<string, nat>)
    requires Indexed(before, indexes, next) && NoMore(before, after)
    ensures Indexed(after, indexes, next)
  {
    forall p
      ensures IndexedAt(after, indexes, next, p)
    {
      assert IndexedAt(before, indexes, next, p);
    }
    forall p, q
      ensures Apart(after, indexes, p, q)
    {
      assert Apart(before, indexes, p, q);
    }
  }

  /** One interface more, with the index that was next. */
  lemma OneMoreIndexed(before: Namespaces, after: Namespaces, indexes: map<Port, nat>, next: map<string, nat>, p: Port)
    requires Indexed(before, indexes, next) && AtMostMore(before, after, p)
    ensures var n := Next(next, p.namespace); Indexed(after, indexes[p := n], next[p.namespace := n + 1])
  {
    var n := Next(next, p.namespace);
    var indexes', next' := indexes[p := n], next[p.namespace := n + 1];
    forall s
      ensures Next(next', s) >= 1
    {
      assert Next(next, s) >= 1;
    }
    forall q
      ensures IndexedAt(after, indexes', next', q)
    {
      assert IndexedAt(before, indexes, next, q);
    }
    forall q, o
      ensures Apart(after, indexes', q, o)
    {
      assert Apart(before, indexes, q, o) && IndexedAt(before, indexes, next, q) && IndexedAt(before, indexes, next, o);
    }
  }

  /** The count of a namespace that is not there may be anything. */
  lemma Restarted(namespaces: Namespaces, indexes: map<Port, nat>, next: map<string, nat>, next': map<string, nat>,
                  s: string)
    requires Indexed(namespaces, indexes, next) && s !in namespaces && Next(next', s) >= 1
    requires forall t | t != s :: Next(next', t) == Next(next, t)
    ensures Indexed(namespaces, indexes, next')
  {
    forall p
      ensures IndexedAt(namespaces, indexes, next', p)
    {
      assert IndexedAt(namespaces, indexes, next, p);
    }
    forall t
      ensures Next(next', t) >= 1
    {
      assert Next(next, t) >= 1;
    }
    forall p, q
      ensures Apart(namespaces, indexes, p, q)
    {
    }
  }
}
