/** The processes that a node's files name: the metadata of the last start first, then the daemons' own pid files. */
module RoutingRecords {
  import opened FileTree
  import opened Json
  import opened Options
  import opened Texts

  const DAEMONS := ["zebra", "ospfd", "bgpd", "pimd"]

  /** Largest process number of the system. */
  const MAX_PID := 0x7fff_ffff

  datatype Record = Record(daemon: string, pid: nat)

  /**
   What the JSON reader makes of a text: a document, a refusal that is handled, or an exception that is
   not, such as that for a number of more than MAX_DIGITS digits.
   */
  datatype Reading = Document(value: Value) | Unreadable | Escapes

  function FieldOf(raw: Value, name: string): (r: Option<Value>)
    requires raw.Mapping?
  {
    if Text(name) in raw.entries then Some(raw.entries[Text(name)]) else None
  }

  /** An entry of the metadata: a known daemon with a positive number, truth values excluded. */
  function EntryOf(raw: Value): (r: Option<Record>)
    ensures r.Some? ==> r.value.daemon in DAEMONS && r.value.pid > 0
  {
    if !raw.Mapping? then None
    else
      var daemon, pid := FieldOf(raw, "daemon"), FieldOf(raw, "pid");
      if daemon.Some? && daemon.value.Str? && daemon.value.text in DAEMONS && pid.Some? && pid.value.Int?
        && pid.value.number > 0
      then Some(Record(daemon.value.text, pid.value.number))
      else None
  }

  function MetadataOf(t: Tree, d: Path, decode: string -> Reading): (r: Reading) {
    var f := d + ["processes.json"];
    if f in t && t[f].File? && t[f].text.Some? then decode(t[f].text.value) else Unreadable
  }

  /** The entries of the metadata, if it has any. */
  function EntriesOf(metadata: Reading): (r: seq<Value>) {
    if !metadata.Document? || !metadata.value.Mapping? then []
    else
      var processes := FieldOf(metadata.value, "processes");
      if processes.Some? && processes.value.Array? then processes.value.items else []
  }

  /** The positive number in a daemon's pid file, if there is one. */
  function PidFile(t: Tree, d: Path, daemon: string): (pid: Option<nat>)
    ensures pid.Some? ==> pid.value > 0
  {
    var f := d + [daemon + ".pid"];
    if f in t && t[f].File? && t[f].text.Some? && Ascii(t[f].text.value) then
      var value := IntOf(t[f].text.value);
      if value.Some? && value.value > 0 then Some(value.value) else None
    else None
  }

  predicate Has(records: seq<Record>, daemon: string) {
    exists i :: 0 <= i < |records| && records[i].daemon == daemon
  }

  function WithEntry(records: seq<Record>, entry: Option<Record>): (r: seq<Record>) {
    if entry.Some? && !Has(records, entry.value.daemon) then records + [entry.value] else records
  }

  function FileEntry(t: Tree, d: Path, daemon: string): (r: Option<Record>) {
    var pid := PidFile(t, d, daemon);
    if pid.Some? then Some(Record(daemon, pid.value)) else None
  }

  /** The records of the first `k` entries: the first of each daemon counts. */
  function FromEntries(entries: seq<Value>, k: nat): (r: seq<Record>)
    requires k <= |entries|
  {
    if k == 0 then [] else WithEntry(FromEntries(entries, k - 1), EntryOf(entries[k - 1]))
  }

  /** The pid files of the first `k` daemons add those that are not recorded yet. */
  function FromFiles(t: Tree, d: Path, records: seq<Record>, k: nat): (r: seq<Record>)
    requires k <= |DAEMONS|
  {
    if k == 0 then records else WithEntry(FromFiles(t, d, records, k - 1), FileEntry(t, d, DAEMONS[k - 1]))
  }

  /** All records of a node directory. */
  function RecordsOf(t: Tree, d: Path, decode: string -> Reading): (r: seq<Record>) {
    if d !in t || t[d] != Directory then []
    else
      var entries := EntriesOf(MetadataOf(t, d, decode));
      FromFiles(t, d, FromEntries(entries, |entries|), |DAEMONS|)
  }

  /** Reading the records ends in an exception. */
  predicate ReadingEscapes(t: Tree, d: Path, decode: string -> Reading) {
    d in t && t[d] == Directory && MetadataOf(t, d, decode).Escapes?
  }

  method ReadRecords(t: Tree, d: Path, decode: string -> Reading) returns (records: Option<seq<Record>>)
    ensures records.None? <==> ReadingEscapes(t, d, decode)
    ensures records.Some? ==> records.value == RecordsOf(t, d, decode)
  {
    if d !in t || t[d] != Directory {
      return Some([]);
    }
    var metadata := MetadataOf(t, d, decode);
    if metadata.Escapes? {
      return None;
    }
    var found: seq<Record> := [];
    var entries := EntriesOf(metadata);
    for k := 0 to |entries|
      invariant found == FromEntries(entries, k)
    {
      found := WithEntry(found, EntryOf(entries[k]));
    }
    for k := 0 to |DAEMONS|
      invariant found == FromFiles(t, d, FromEntries(entries, |entries|), k)
    {
      found := WithEntry(found, FileEntry(t, d, DAEMONS[k]));
    }
    records := Some(found);
  }

  // What the records are.

  /** The number that the first fitting entry gives a daemon. */
  function Listed(entries: seq<Value>, daemon: string): (r: Option<nat>) {
    if entries == [] then None
    else
      var entry := EntryOf(entries[0]);
      if entry.Some? && entry.value.daemon == daemon then Some(entry.value.pid) else Listed(entries[1..], daemon)
  }

  /** The number on record for a daemon: metadata goes before the pid file. */
  function PidOf(t: Tree, d: Path, entries: seq<Value>, daemon: string): (r: Option<nat>) {
    var listed := Listed(entries, daemon);
    if listed.Some? then listed else PidFile(t, d, daemon)
  }

  predicate OncePerDaemon(records: seq<Record>) {
    forall i, j | 0 <= i < j < |records| :: records[i].daemon != records[j].daemon
  }

  lemma WithEntryHas(records: seq<Record>, entry: Option<Record>, r: Record)
    requires OncePerDaemon(records)
    ensures OncePerDaemon(WithEntry(records, entry))
    ensures r in WithEntry(records, entry) <==> r in records || (entry == Some(r) && !Has(records, r.daemon))
  {
    var more := WithEntry(records, entry);
    if entry.Some? && !Has(records, entry.value.daemon) {
      assert more[|records|] == entry.value && more[..|records|] == records;
      forall i, j | 0 <= i < j < |more|
        ensures more[i].daemon != more[j].daemon
      {
        if j == |records| { assert more[i] == records[i]; }
      }
    }
  }

  lemma {:induction false} ListedNext(entries: seq<Value>, k: nat, daemon: string)
    requires k < |entries|
    ensures var entry := EntryOf(entries[k]);
            Listed(entries[..k + 1], daemon)
            == if Listed(entries[..k], daemon).None? && entry.Some? && entry.value.daemon == daemon
              then Some(entry.value.pid)
               else Listed(entries[..k], daemon)
  {
    if k > 0 {
      assert entries[..k + 1][1..] == entries[1..][..k] && entries[..k][1..] == entries[1..][..k - 1];
      ListedNext(entries[1..], k - 1, daemon);
    } else {
      assert entries[..1][1..] == [];
    }
  }

  lemma {:induction false} EntriesMean(entries: seq<Value>, k: nat, r: Record)
    requires k <= |entries|
    ensures OncePerDaemon(FromEntries(entries, k))
    ensures r in FromEntries(entries, k) <==> Listed(entries[..k], r.daemon) == Some(r.pid)
  {
    if k > 0 {
      EntriesMean(entries, k - 1, r);
      EntriesHave(entries, k - 1, r.daemon);
      WithEntryHas(FromEntries(entries, k - 1), EntryOf(entries[k - 1]), r);
      ListedNext(entries, k - 1, r.daemon);
    }
  }

  /** One entry more, on either side. */
  lemma EntryHas(entries: seq<Value>, k: nat, daemon: string)
    requires k < |entries| && (Has(FromEntries(entries, k), daemon) <==> Listed(entries[..k], daemon).Some?)
    ensures Has(WithEntry(FromEntries(entries, k), EntryOf(entries[k])), daemon) <==>
              Listed(entries[..k + 1], daemon).Some?
  {
    ListedNext(entries, k, daemon);
    HasMore(FromEntries(entries, k), EntryOf(entries[k]), daemon);
  }

  lemma {:induction false} EntriesHave(entries: seq<Value>, k: nat, daemon: string)
    requires k <= |entries|
    ensures Has(FromEntries(entries, k), daemon) <==> Listed(entries[..k], daemon).Some?
  {
    if k > 0 {
      EntriesHave(entries, k - 1, daemon);
      EntryHas(entries, k - 1, daemon);
    }
  }

  lemma HasMore(records: seq<Record>, entry: Option<Record>, daemon: string)
    ensures Has(WithEntry(records, entry), daemon)
            <==> Has(records, daemon) || (entry.Some? && entry.value.daemon == daemon)
  {
    var more := WithEntry(records, entry);
    if more != records {
      assert more[|records|] == entry.value;
      assert forall i | 0 <= i < |records| :: more[i] == records[i];
    }
  }

  lemma {:induction false} FilesMean(t: Tree, d: Path, records: seq<Record>, k: nat, r: Record)
    requires k <= |DAEMONS| && OncePerDaemon(records)
    ensures OncePerDaemon(FromFiles(t, d, records, k))
    ensures r in FromFiles(t, d, records, k) <==>
            r in records
              || (!Has(records, r.daemon) && r.daemon in DAEMONS[..k] && PidFile(t, d, r.daemon) == Some(r.pid))
    ensures Has(FromFiles(t, d, records, k), r.daemon) <==>
            Has(records, r.daemon) || (r.daemon in DAEMONS[..k] && PidFile(t, d, r.daemon).Some?)
  {
    if k > 0 {
      FilesMean(t, d, records, k - 1, r);
      var entry := FileEntry(t, d, DAEMONS[k - 1]);
      WithEntryHas(FromFiles(t, d, records, k - 1), entry, r);
      HasMore(FromFiles(t, d, records, k - 1), entry, r.daemon);
      assert DAEMONS[..k] == DAEMONS[..k - 1] + [DAEMONS[k - 1]];
    }
  }

  /** The records: for each known daemon with a number on record exactly one, and no other. */
  lemma RecordsMean(t: Tree, d: Path, decode: string -> Reading, r: Record)
    requires d in t && t[d] == Directory
    ensures OncePerDaemon(RecordsOf(t, d, decode))
    ensures r in RecordsOf(t, d, decode) <==>
            r.daemon in DAEMONS && PidOf(t, d, EntriesOf(MetadataOf(t, d, decode)), r.daemon) == Some(r.pid)
  {
    var entries := EntriesOf(MetadataOf(t, d, decode));
    assert entries[..|entries|] == entries && DAEMONS[..|DAEMONS|] == DAEMONS;
    EntriesMean(entries, |entries|, r);
    EntriesHave(entries, |entries|, r.daemon);
    ListedIsKnown(entries, r.daemon);
    FilesMean(t, d, FromEntries(entries, |entries|), |DAEMONS|, r);
  }

  lemma {:induction false} ListedIsKnown(entries: seq<Value>, daemon: string)
    ensures Listed(entries, daemon).Some? ==> daemon in DAEMONS
  {
    if entries != [] {
      ListedIsKnown(entries[1..], daemon);
    }
  }
}
