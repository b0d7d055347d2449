/** Validation of stored interface records, and why a snapshot that a deployment built always passes. */
module Validation {
  import opened Json
  import opened Matcher
  import opened Network
  import opened Options
  import opened Ownership
  import opened Topology

  /** The outcome: refused, or accepted with or without complete link identities. */
  datatype Verdict = Invalid | Valid(complete: bool)

  predicate ValidIndex(v: Value) {
    v == Null || (v.Int? && v.number > 0)
  }

  /**
   A record has the desired fields with the desired values, an index, for a veth perhaps a link identity, and no
   more.
   */
  predicate RecordOk(desired: Fields, stored: Option<Fields>, veth: bool) {
    && stored.Some?
    && desired.Keys + {IfindexSlot} <= stored.value.Keys <= desired.Keys + {IfindexSlot}
       + (if veth then {LinkIdSlot} else {})
    && (forall s | s in desired :: stored.value[s] == desired[s])
    && ValidIndex(stored.value[IfindexSlot])
  }

  ghost predicate ItemOk(records: Records, item: Item) {
    KeyOf(item) in records && RecordOk(Identity(item), records[KeyOf(item)], item.EndItem?)
  }

  /** Exactly the planned interfaces are recorded, each in order. */
  ghost predicate RecordsOk(plan: NetworkPlan, records: Records) {
    && (forall item {:trigger IsItem(plan, item)} | IsItem(plan, item) :: ItemOk(records, item))
    && (forall key {:trigger HasItem(plan, key)} | key in records :: HasItem(plan, key))
  }

  /** The recorded link identity of an end; none if there is no such field. */
  function IdOf(records: Records, e: End): (r: Option<Value>) {
    var key := KeyOf(EndItem(e));
    if key in records && records[key].Some? && LinkIdSlot in records[key].value
      then Some(records[key].value[LinkIdSlot]) else None
  }

  predicate IsId(v: Option<Value>) {
    v.Some? && v.value.Str? && v.value.text != ""
  }

  /** Both ends of each link have one identity, and no two links share it. */
  ghost predicate IdsConsistent(plan: NetworkPlan, records: Records) {
    && (forall k {:trigger plan.links[k]} | 0 <= k < |plan.links| :: PairOk(records, plan.links[k]))
    && (forall j, k | 0 <= j < k < |plan.links| ::
         IdOf(records, plan.links[j].left) != IdOf(records, plan.links[k].left))
  }

  predicate PairOk(records: Records, l: LinkPlan) {
    IsId(IdOf(records, l.left)) && IdOf(records, l.right) == IdOf(records, l.left)
  }

  /** What validation must answer. */
  ghost function VerdictOf(plan: NetworkPlan, records: Records, deployed: bool): (r: Verdict) {
    var ends := Ends(plan.links);
    if !RecordsOk(plan, records) then Invalid
    else if ends == [] then Valid(true)
    else if forall e | e in ends :: IdOf(records, e) == None then Valid(false)
    else if forall e | e in ends :: IdOf(records, e) == Some(Null) then if deployed then Invalid else Valid(false)
    else if IdsConsistent(plan, records) then Valid(true)
    else Invalid
  }

  lemma VethText(kind: Kind)
    ensures KindText(kind) == KindText(Veth) <==> kind == Veth
  {
    assert "veth"[1] == 'e' && "vxlan"[1] == 'x' && "vrf"[1] == 'r' && "vlan"[1] == 'l';
  }

  lemma RecordsByKey(plan: NetworkPlan, expected: map<string, Fields>, records: Records)
    requires IsOwnership(plan, Desired, expected) && records.Keys == expected.Keys
    requires forall key | key in expected :: KindSlot in expected[key]
    requires forall key | key in expected ::
               RecordOk(expected[key], records[key], expected[key][KindSlot] == Str(KindText(Veth)))
    ensures RecordsOk(plan, records)
  {
    forall item | IsItem(plan, item)
      ensures ItemOk(records, item)
    {
      VethText(KindOf(item));
    }
  }

  lemma BadRecord(plan: NetworkPlan, expected: map<string, Fields>, records: Records, key: string)
    requires IsOwnership(plan, Desired, expected) && key in expected && key in records && KindSlot in expected[key]
    requires !RecordOk(expected[key], records[key], expected[key][KindSlot] == Str(KindText(Veth)))
    ensures !RecordsOk(plan, records)
  {
    assert HasItem(plan, key);
    var item :| IsItem(plan, item) && KeyOf(item) == key;
    VethText(KindOf(item));
    assert !ItemOk(records, item);
  }

  lemma SameKeys(plan: NetworkPlan, expected: map<string, Fields>, records: Records)
    requires IsOwnership(plan, Desired, expected) && RecordsOk(plan, records)
    ensures records.Keys == expected.Keys
  {
    forall key: string
      ensures key in records <==> key in expected
    {
      if key in records || key in expected {
        assert HasItem(plan, key);
        var item :| IsItem(plan, item) && KeyOf(item) == key;
        assert ItemOk(records, item);
      }
    }
  }

  lemma DesiredHasKind(plan: NetworkPlan, expected: map<string, Fields>)
    requires IsOwnership(plan, Desired, expected)
    ensures forall key | key in expected :: KindSlot in expected[key]
  {
    forall key | key in expected
      ensures KindSlot in expected[key]
    {
      assert HasItem(plan, key);
      var item :| IsItem(plan, item) && KeyOf(item) == key;
    }
  }

  method CheckRecords(plan: NetworkPlan, records: Records) returns (ok: bool)
    requires WellFormed(plan) && PlainNames(plan)
    ensures ok <==> RecordsOk(plan, records)
  {
    var expected := ExpectedOwnership(plan);
    DesiredHasKind(plan, expected);
    if records.Keys != expected.Keys {
      if RecordsOk(plan, records) { SameKeys(plan, expected, records); }
      return false;
    }
    var todo := expected.Keys;
    while todo != {}
      invariant todo <= expected.Keys
      invariant forall key | key in expected && key !in todo ::
                  RecordOk(expected[key], records[key], expected[key][KindSlot] == Str(KindText(Veth)))
      decreases |todo|
    {
      var key :| key in todo;
      if !RecordOk(expected[key], records[key], expected[key][KindSlot] == Str(KindText(Veth))) {
        BadRecord(plan, expected, records, key);
        return false;
      }
      todo := todo - {key};
    }
    RecordsByKey(plan, expected, records);
    ok := true;
  }

  /** The check of the identities themselves, link by link. */
  method CheckIds(plan: NetworkPlan, records: Records) returns (ok: bool)
    ensures ok <==> IdsConsistent(plan, records)
  {
    var seen: set<string> := {};
    for k := 0 to |plan.links|
      invariant forall i | 0 <= i < k :: PairOk(records, plan.links[i])
      invariant forall i, j | 0 <= i < j < k :: IdOf(records, plan.links[i].left) != IdOf(records, plan.links[j].left)
      invariant forall i | 0 <= i < k ::
                  IsId(IdOf(records, plan.links[i].left)) && IdOf(records, plan.links[i].left).value.text in seen
      invariant forall t | t in seen :: exists i | 0 <= i < k :: IdOf(records, plan.links[i].left) == Some(Str(t))
    {
      var left, right := IdOf(records, plan.links[k].left), IdOf(records, plan.links[k].right);
      if !IsId(left) || !IsId(right) || left != right {
        return false;
      }
      if left.value.text in seen {
        return false;
      }
      assert IdOf(records, plan.links[k].left) == Some(Str(left.value.text));
      seen := seen + {left.value.text};
    }
    ok := true;
  }

  method ValidateInterfaces(plan: NetworkPlan, records: Records, deployed: bool) returns (v: Verdict)
    requires WellFormed(plan) && PlainNames(plan)
    ensures v == VerdictOf(plan, records, deployed)
  {
    var ok := CheckRecords(plan, records);
    if !ok {
      return Invalid;
    }
    var ends := Ends(plan.links);
    if ends == [] {
      return Valid(true);
    }
    if forall e | e in ends :: IdOf(records, e).None? {
      return Valid(false);
    }
    if exists e | e in ends :: IdOf(records, e).None? {
      MissingId(plan, records);
      return Invalid;
    }
    if forall e | e in ends :: IdOf(records, e) == Some(Null) {
      SomeEnd(plan);
      return if deployed then Invalid else Valid(false);
    }
    if exists e | e in ends :: IdOf(records, e) == Some(Null) {
      NullId(plan, records);
      return Invalid;
    }
    var consistent := CheckIds(plan, records);
    v := if consistent then Valid(true) else Invalid;
  }

  lemma SomeEnd(plan: NetworkPlan)
    requires Ends(plan.links) != []
    ensures exists e :: e in Ends(plan.links)
  {
    assert Ends(plan.links)[0] in Ends(plan.links);
  }

  /** Consistent identities leave no end without one. */
  lemma EndHasId(plan: NetworkPlan, records: Records, e: End)
    requires IdsConsistent(plan, records) && e in Ends(plan.links)
    ensures IsId(IdOf(records, e))
  {
    var k :| 0 <= k < 2 * |plan.links| && Ends(plan.links)[k] == e;
    assert PairOk(records, plan.links[k / 2]);
  }

  lemma MissingId(plan: NetworkPlan, records: Records)
    requires exists e | e in Ends(plan.links) :: IdOf(records, e).None?
    ensures !IdsConsistent(plan, records) && !forall e | e in Ends(plan.links) :: IdOf(records, e) == Some(Null)
  {
    var e :| e in Ends(plan.links) && IdOf(records, e).None?;
    if IdsConsistent(plan, records) { EndHasId(plan, records, e); }
  }

  lemma NullId(plan: NetworkPlan, records: Records)
    requires exists e | e in Ends(plan.links) :: IdOf(records, e) == Some(Null)
    ensures !IdsConsistent(plan, records)
  {
    var e :| e in Ends(plan.links) && IdOf(records, e) == Some(Null);
    if IdsConsistent(plan, records) { EndHasId(plan, records, e); }
  }

  // Snapshots that a deployment builds.

  function Stored(m: map<string, Fields>): (r: Records) {
    map key | key in m :: Some(m[key])
  }

  /** The indexes that an inventory gives are positive, as a kernel's are. */
  predicate ValidIndexes(source: Source) {
    source.FromLive? ==> forall p | p in source.index :: source.index[p] > 0
  }

  lemma BuiltRecordsOk(plan: NetworkPlan, source: Source, m: map<string, Fields>)
    requires IsOwnership(plan, source, m) && !source.Desired? && ValidIndexes(source)
    ensures RecordsOk(plan, Stored(m))
  {
    forall item | IsItem(plan, item)
      ensures ItemOk(Stored(m), item)
    {
      var desired, stored := Identity(item), RecordOf(source, item);
      DescribedAlike(item, IndexValue(source, PortOf(item)), IdValue(source, PortOf(item)));
    }
  }

  lemma BuiltId(plan: NetworkPlan, source: Source, m: map<string, Fields>, e: End)
    requires IsOwnership(plan, source, m) && !source.Desired? && e in Ends(plan.links)
    ensures IdOf(Stored(m), e) == Some(IdValue(source, e.port))
  {
    assert IsItem(plan, EndItem(e)) && PortOf(EndItem(e)) == e.port;
    DescribedAlike(EndItem(e), IndexValue(source, e.port), IdValue(source, e.port));
  }

  /**
   A snapshot recorded before anything is built passes while deploying or destroying, incomplete if there is any link;
   as a deployed one it would be refused.
   */
  lemma BlankPasses(plan: NetworkPlan, m: map<string, Fields>, deployed: bool)
    requires IsOwnership(plan, Blank, m)
    ensures VerdictOf(plan, Stored(m), deployed)
            == if plan.links == [] then Valid(true) else if deployed then Invalid else Valid(false)
  {
    BuiltRecordsOk(plan, Blank, m);
    forall e | e in Ends(plan.links)
      ensures IdOf(Stored(m), e) == Some(Null)
    {
      BuiltId(plan, Blank, m, e);
    }
    if plan.links != [] { SomeEnd(plan); }
  }

  /** What was recorded of a link's ends: the one id that both were seen with. */
  lemma LivePair(plan: NetworkPlan, source: Source, m: map<string, Fields>, k: nat)
    requires source.FromLive? && IsOwnership(plan, source, m) && k < |plan.links| && LinkAgrees(source.o, plan.links[k])
    ensures PairOk(Stored(m), plan.links[k]) && IdAt(source.o, plan.links[k].left.port).Some?
    ensures IdOf(Stored(m), plan.links[k].left) == Some(IdValue(source, plan.links[k].left.port))
  {
    LinkEnds(plan, k);
    BuiltId(plan, source, m, plan.links[k].left);
    BuiltId(plan, source, m, plan.links[k].right);
  }

  lemma IdTextsDiffer(a: nat, b: nat)
    requires a != b
    ensures Str(IdText(a)) != Str(IdText(b))
  {
    assert |IdText(a)| != |IdText(b)|;
  }

  lemma LiveConsistent(plan: NetworkPlan, source: Source, m: map<string, Fields>)
    requires source.FromLive? && IsOwnership(plan, source, m) && LinksAgree(plan, source.o)
    ensures IdsConsistent(plan, Stored(m))
  {
    forall k | 0 <= k < |plan.links|
      ensures PairOk(Stored(m), plan.links[k])
    {
      assert LinkAgrees(source.o, plan.links[k]);
      LivePair(plan, source, m, k);
    }
    forall j, k | 0 <= j < k < |plan.links|
      ensures IdOf(Stored(m), plan.links[j].left) != IdOf(Stored(m), plan.links[k].left)
    {
      assert LinkAgrees(source.o, plan.links[j]) && LinkAgrees(source.o, plan.links[k]);
      LivePair(plan, source, m, j);
      LivePair(plan, source, m, k);
      IdTextsDiffer(IdAt(source.o, plan.links[j].left.port).value, IdAt(source.o, plan.links[k].left.port).value);
    }
  }

  /** A snapshot recorded from an inventory whose links agree with the plan passes with complete identities. */
  lemma LivePasses(plan: NetworkPlan, o: Observed, index: map<Port, int>, m: map<string, Fields>, deployed: bool)
    requires IsOwnership(plan, FromLive(o, index), m) && LinksAgree(plan, o) && ValidIndexes(FromLive(o, index))
    ensures VerdictOf(plan, Stored(m), deployed) == Valid(true)
  {
    var source := FromLive(o, index);
    BuiltRecordsOk(plan, source, m);
    LiveConsistent(plan, source, m);
    if plan.links != [] {
      LinkEnds(plan, 0);
      assert LinkAgrees(o, plan.links[0]);
      LivePair(plan, source, m, 0);
    }
  }

  lemma LinkEnds(plan: NetworkPlan, k: nat)
    requires k < |plan.links|
    ensures plan.links[k].left in Ends(plan.links) && plan.links[k].right in Ends(plan.links)
  {
    assert Ends(plan.links)[2 * k] == plan.links[k].left && Ends(plan.links)[2 * k + 1] == plan.links[k].right;
  }

  /** What an accepted, complete snapshot lets its reader rely on. */
  lemma CompleteMeans(plan: NetworkPlan, records: Records, deployed: bool, j: nat, k: nat)
    requires VerdictOf(plan, records, deployed) == Valid(true) && j < k < |plan.links|
    ensures IsId(IdOf(records, plan.links[k].left))
            && IdOf(records, plan.links[k].right) == IdOf(records, plan.links[k].left)
    ensures IdOf(records, plan.links[j].left) != IdOf(records, plan.links[k].left)
  {
    SomeEnd(plan);
    assert PairOk(records, plan.links[k]);
  }
}
