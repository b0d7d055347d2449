/** Values that a snapshot may hold, and their frozen and thawed forms. */
module Json {
  import opened Options

  datatype Key = Text(text: string) | NotText(id: int)

  /**
   In-memory values. A frozen mapping or array is the read-only kind; `Infinite` is any non-finite number,
   `Foreign` anything that JSON lacks. Mappings compare without regard to order.
   */
  datatype Value =
    | Null
    | Bool(flag: bool)
    | Int(number: int)
    | Float(measure: real)
    | Infinite
    | Str(text: string)
    | Mapping(frozen: bool, entries: map<Key, Value>)
    | Array(frozen: bool, items: seq<Value>)
    | Foreign

  /** All containers read-only, all keys texts, all numbers finite. */
  predicate Frozen(v: Value) {
    match v
    case Mapping(frozen, entries) => frozen && forall k | k in entries :: k.Text? && Frozen(entries[k])
    case Array(frozen, items) => frozen && forall i | 0 <= i < |items| :: Frozen(items[i])
    case _ => !v.Infinite? && !v.Foreign?
  }

  /** What can be frozen at all, whichever containers it is made of. */
  predicate Serializable(v: Value) {
    match v
    case Mapping(_, entries) => forall k | k in entries :: k.Text? && Serializable(entries[k])
    case Array(_, items) => forall i | 0 <= i < |items| :: Serializable(items[i])
    case _ => !v.Infinite? && !v.Foreign?
  }

  /** Equal but for the kinds of containers. */
  predicate SameData(v: Value, w: Value)
    decreases v
  {
    match v
    case Mapping(_, entries) => w.Mapping? && w.entries.Keys == entries.Keys && forall k | k in entries ::
        SameData(entries[k], w.entries[k])
    case Array(_, items) => w.Array? && |w.items| == |items| && forall i | 0 <= i < |items| ::
        SameData(items[i], w.items[i])
    case _ => w == v
  }

  /** The read-only copy; none where freezing raises an exception. */
  function Freeze(v: Value): (r: Option<Value>) {
    match v
    case Mapping(_, entries) =>
      if forall k | k in entries :: k.Text? && Freeze(entries[k]).Some? then
        Some(Mapping(true, map k | k in entries :: Freeze(entries[k]).value))
      else None
    case Array(_, items) =>
      if forall i | 0 <= i < |items| :: Freeze(items[i]).Some? then
        Some(Array(true, seq(|items|, i requires 0 <= i < |items| => Freeze(items[i]).value)))
      else None
    case _ => if v.Infinite? || v.Foreign? then None else Some(v)
  }

  /** The plain copy that is written out. */
  function Thaw(v: Value): (r: Value)
    requires Frozen(v)
  {
    match v
    case Mapping(_, entries) => Mapping(false, map k | k in entries :: Thaw(entries[k]))
    case Array(_, items) => Array(false, seq(|items|, i requires 0 <= i < |items| => Thaw(items[i])))
    case _ => v
  }

  /** Freezing succeeds exactly on JSON data, and then gives the same data in read-only containers throughout. */
  lemma {:induction false} FreezeIsFrozen(v: Value)
    ensures Freeze(v).Some? <==> Serializable(v)
    ensures Freeze(v).Some? ==> Frozen(Freeze(v).value) && SameData(v, Freeze(v).value)
  {
    if v.Mapping? {
      forall k | k in v.entries
        ensures Freeze(v.entries[k]).Some? <==> Serializable(v.entries[k])
        ensures Freeze(v.entries[k]).Some? ==>
                  Frozen(Freeze(v.entries[k]).value) && SameData(v.entries[k], Freeze(v.entries[k]).value)
      {
        FreezeIsFrozen(v.entries[k]);
      }
    } else if v.Array? {
      forall i | 0 <= i < |v.items|
        ensures Freeze(v.items[i]).Some? <==> Serializable(v.items[i])
        ensures Freeze(v.items[i]).Some? ==>
                  Frozen(Freeze(v.items[i]).value) && SameData(v.items[i], Freeze(v.items[i]).value)
      {
        FreezeIsFrozen(v.items[i]);
      }
    }
  }

  /** Frozen values with the same data are equal: the read-only form is canonical. */
  lemma {:induction false} FrozenIsCanonical(v: Value, w: Value)
    requires Frozen(v) && Frozen(w) && SameData(v, w)
    ensures v == w
    decreases v
  {
    if v.Mapping? {
      forall k | k in v.entries
        ensures v.entries[k] == w.entries[k]
      {
        FrozenIsCanonical(v.entries[k], w.entries[k]);
      }
      assert v.entries == w.entries;
    } else if v.Array? {
      forall i | 0 <= i < |v.items|
        ensures v.items[i] == w.items[i]
      {
        FrozenIsCanonical(v.items[i], w.items[i]);
      }
      assert v.items == w.items;
    }
  }

  lemma {:induction false} FrozenIsSerializable(v: Value)
    requires Frozen(v)
    ensures Serializable(v)
  {
    if v.Mapping? {
      forall k | k in v.entries ensures Serializable(v.entries[k]) { FrozenIsSerializable(v.entries[k]); }
    } else if v.Array? {
      forall i | 0 <= i < |v.items| ensures Serializable(v.items[i]) { FrozenIsSerializable(v.items[i]); }
    }
  }

  lemma {:induction false} SameBoth(u: Value, v: Value, w: Value)
    requires SameData(u, v) && SameData(u, w)
    ensures SameData(v, w)
    decreases u
  {
    if u.Mapping? {
      forall k | k in v.entries
        ensures SameData(v.entries[k], w.entries[k])
      {
        SameBoth(u.entries[k], v.entries[k], w.entries[k]);
      }
    } else if u.Array? {
      forall i | 0 <= i < |v.items|
        ensures SameData(v.items[i], w.items[i])
      {
        SameBoth(u.items[i], v.items[i], w.items[i]);
      }
    }
  }

  lemma {:induction false} SameBack(v: Value, w: Value)
    requires SameData(v, w)
    ensures SameData(w, v)
    decreases v
  {
    if v.Mapping? {
      forall k | k in v.entries ensures SameData(w.entries[k], v.entries[k]) { SameBack(v.entries[k], w.entries[k]); }
    } else if v.Array? {
      forall i | 0 <= i < |v.items| ensures SameData(w.items[i], v.items[i]) { SameBack(v.items[i], w.items[i]); }
    }
  }

  /** Freezing again changes nothing. */
  lemma FreezeOnce(v: Value)
    requires Frozen(v)
    ensures Freeze(v) == Some(v)
  {
    FrozenIsSerializable(v);
    FreezeIsFrozen(v);
    FrozenIsCanonical(v, Freeze(v).value);
  }

  /** Thawing a frozen value gives the same data in plain containers. */
  lemma {:induction false} ThawKeepsData(v: Value)
    requires Frozen(v)
    ensures SameData(v, Thaw(v)) && Serializable(Thaw(v))
  {
    if v.Mapping? {
      forall k | k in v.entries
        ensures SameData(v.entries[k], Thaw(v.entries[k])) && Serializable(Thaw(v.entries[k]))
      {
        ThawKeepsData(v.entries[k]);
      }
    } else if v.Array? {
      forall i | 0 <= i < |v.items|
        ensures SameData(v.items[i], Thaw(v.items[i])) && Serializable(Thaw(v.items[i]))
      {
        ThawKeepsData(v.items[i]);
      }
    }
  }

  /** Thaw, then freeze: back to where it began. */
  lemma FreezeUndoesThaw(v: Value)
    requires Frozen(v)
    ensures Freeze(Thaw(v)) == Some(v)
  {
    ThawKeepsData(v);
    FreezeIsFrozen(Thaw(v));
    var back := Freeze(Thaw(v)).value;
    SameBack(v, Thaw(v));
    SameBoth(Thaw(v), v, back);
    FrozenIsCanonical(v, back);
  }
}
