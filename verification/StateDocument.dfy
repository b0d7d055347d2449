/** The durable snapshot as an object and as the JSON document that is written to disk. */
module StateDocument {
  import opened Json
  import opened Options
  import opened Texts

  /** A snapshot in memory. `manifest` and `interfaces` are frozen mappings, as its construction makes them. */
  datatype Snapshot = Snapshot(
    schema: int,
    name: string,
    fingerprint: string,
    manifest: Value,
    namespaces: map<string, string>,
    interfaces: Value,
    createdAt: string,
    status: string)

  predicate Constructed(s: Snapshot) {
    Frozen(s.manifest) && s.manifest.Mapping? && Frozen(s.interfaces) && s.interfaces.Mapping?
  }

  predicate ValidFingerprint(s: string) {
    |s| == 64 && forall i | 0 <= i < |s| :: Digit(s[i]) || 'a' <= s[i] <= 'f'
  }

  predicate ValidStatus(s: string) {
    s == "deploying" || s == DEFAULT_STATUS || s == "destroying"
  }

  /** The keys of a snapshot document; any other key is unknown. */
  datatype Field = Schema | Name | Fingerprint | Manifest | Namespaces | Interfaces | CreatedAt | Status
    | Unknown(key: Key)

  /** What a JSON file can hold at the top. */
  datatype Document = Object(fields: map<Field, Value>) | NotAnObject

  const DEFAULT_STATUS := "deployed"

  const REQUIRED := {Schema, Name, Fingerprint, Manifest, Namespaces, Interfaces, CreatedAt}

  function OfTexts(m: map<string, string>): (r: Value) {
    Mapping(false, map k | k in KeysOf(m) :: Str(m[k.text]))
  }

  function KeysOf(m: map<string, string>): (keys: set<Key>)
    ensures forall k | k in keys :: k.Text? && k.text in m
    ensures forall t | t in m :: Text(t) in keys
  {
    set t | t in m :: Text(t)
  }

  /** The document without its status, as it was written before there was one. */
  function WithoutStatus(s: Snapshot): (r: map<Field, Value>)
    requires Constructed(s)
  {
    map[
      Schema := Int(s.schema),
      Name := Str(s.name),
      Fingerprint := Str(s.fingerprint),
      Manifest := Thaw(s.manifest),
      Namespaces := OfTexts(s.namespaces),
      Interfaces := Thaw(s.interfaces),
      CreatedAt := Str(s.createdAt)]
  }

  function ToDict(s: Snapshot): (document: Document)
    requires Constructed(s)
  {
    Object(WithoutStatus(s)[Status := Str(s.status)])
  }

  /** A plain object of texts. */
  function TextsOf(v: Value): (r: Option<map<string, string>>) {
    if v.Mapping? && !v.frozen && forall k | k in v.entries :: k.Text? && v.entries[k].Str? then
      var texts := set k | k in v.entries && k.Text? :: k.text;
      assert forall t | t in texts :: Text(t) in v.entries;
      Some(map t | t in texts :: v.entries[Text(t)].text)
    else None
  }

  /** A plain object with text keys, in its frozen form; none if it is no JSON data. */
  function ObjectOf(v: Value): (r: Option<Value>) {
    if v.Mapping? && !v.frozen && forall k | k in v.entries :: k.Text? then Freeze(v) else None
  }

  predicate ScalarsValid(schema: Value, name: Value, fingerprint: Value, created: Value, status: Value) {
    && schema == Int(1) && name.Str? && ValidName(name.text) && fingerprint.Str? && ValidFingerprint(fingerprint.text)
    && created.Str? && created.text != "" && status.Str? && ValidStatus(status.text)
  }

  /** The checks on a state file; none where one of them fails. A document without status is a deployed one. */
  function FromDict(document: Document): (r: Option<Snapshot>)
    ensures r.Some? ==> Constructed(r.value)
  {
    if document.NotAnObject? || !(REQUIRED <= document.fields.Keys <= REQUIRED + {Status}) then None
    else
      var d := document.fields;
      var status := if Status in d then d[Status] else Str(DEFAULT_STATUS);
      if !ScalarsValid(d[Schema], d[Name], d[Fingerprint], d[CreatedAt], status) then None
      else
        var manifest, namespaces, interfaces := ObjectOf(d[Manifest]), TextsOf(d[Namespaces]), ObjectOf(d[Interfaces]);
        if manifest.None? || namespaces.None? || interfaces.None? then None
        else
          FreezeIsFrozen(d[Manifest]);
          FreezeIsFrozen(d[Interfaces]);
          Some(Snapshot(1, d[Name].text, d[Fingerprint].text, manifest.value, namespaces.value, interfaces.value,
            d[CreatedAt].text, status.text))
  }

  /** What the type of a snapshot does not say of its scalars. */
  predicate Acceptable(s: Snapshot) {
    s.schema == 1 && ValidName(s.name) && ValidFingerprint(s.fingerprint) && s.createdAt != "" && ValidStatus(s.status)
  }

  lemma TextsBack(m: map<string, string>)
    ensures TextsOf(OfTexts(m)) == Some(m)
  {
    var v := OfTexts(m);
    assert forall t | t in m :: Text(t) in v.entries && v.entries[Text(t)] == Str(m[t]);
    var back := TextsOf(v).value;
    forall t: string
      ensures t in back <==> t in m
      ensures t in m ==> back[t] == m[t]
    {
      assert t in m ==> Text(t) in v.entries;
    }
    assert back == m;
  }

  lemma ObjectBack(v: Value)
    requires Frozen(v) && v.Mapping?
    ensures ObjectOf(Thaw(v)) == Some(v)
  {
    FreezeUndoesThaw(v);
  }

  /** A document with the fields of `s`; its status may be missing if that of `s` is the default. */
  lemma ReadFields(d: map<Field, Value>, s: Snapshot)
    requires Constructed(s) && REQUIRED <= d.Keys <= REQUIRED + {Status}
    requires d[Schema] == Int(s.schema) && d[Name] == Str(s.name) && d[Fingerprint] == Str(s.fingerprint)
             && d[CreatedAt] == Str(s.createdAt)
    requires d[Manifest] == Thaw(s.manifest) && d[Namespaces] == OfTexts(s.namespaces)
             && d[Interfaces] == Thaw(s.interfaces)
    requires (if Status in d then d[Status] else Str(DEFAULT_STATUS)) == Str(s.status)
    ensures FromDict(Object(d)) == if Acceptable(s) then Some(s) else None
  {
    TextsBack(s.namespaces);
    ObjectBack(s.manifest);
    ObjectBack(s.interfaces);
  }

  /**
   Writing a snapshot and reading it back gives the same snapshot exactly if its scalars are acceptable; else
   reading refuses.
   */
  lemma RoundTrip(s: Snapshot)
    requires Constructed(s)
    ensures FromDict(ToDict(s)) == if Acceptable(s) then Some(s) else None
  {
    ReadFields(ToDict(s).fields, s);
  }

  /** A document from before there was a status reads as deployed. */
  lemma MissingStatus(s: Snapshot)
    requires Constructed(s) && s.status == DEFAULT_STATUS
    ensures FromDict(Object(WithoutStatus(s))) == if Acceptable(s) then Some(s) else None
  {
    ReadFields(WithoutStatus(s), s);
  }

  /** Whatever is read can be written, and reads as itself again. */
  lemma ReadIsStable(document: Document)
    requires FromDict(document).Some?
    ensures var s := FromDict(document).value;
            Constructed(s) && Acceptable(s) && FromDict(ToDict(s)) == Some(s)
  {
    RoundTrip(FromDict(document).value);
  }
}
