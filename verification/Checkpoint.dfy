/** The sweep checkpoint: an insertion-ordered dict of treatment records, and the ConfigMap it is
    rendered to and parsed back from. */
module Checkpoint {
  import opened Common

  datatype Json =
    | JNull
    | JBool(b: bool)
    | JNum(n: real)
    | JStr(s: string)
    | JList(items: seq<Json>)
    | JObj(fields: map<string, Json>)

  /** Python truthiness. */
  predicate Truthy(j: Json) {
    match j
    case JNull => false
    case JBool(b) => b
    case JNum(n) => n != 0.0
    case JStr(s) => s != ""
    case JList(items) => items != []
    case JObj(fields) => fields != map[]
  }

  /** `obj.get(key)`. */
  function Field(fields: map<string, Json>, key: string): Json {
    if key in fields then fields[key] else JNull
  }

  /** `json.dumps` and `json.loads`: the one assumption is that loading undoes dumping, and that an
      encoded document is not blank. */
  datatype Codec = Codec(dumps: Json -> string, loads: string -> Option<Json>)

  predicate Blank(s: string) { forall i :: 0 <= i < |s| ==> s[i] in {' ', '\t', '\n', '\r'} }

  ghost predicate Lawful(codec: Codec) {
    forall doc :: codec.loads(codec.dumps(doc)) == Some(doc) && !Blank(codec.dumps(doc))
  }

  const IN_FLIGHT := "in_flight"
  const COMPLETED := "completed"
  const PROGRESS_KEY := "progress.json"

  /** `fault` is JNull when no fault kind is recorded; read off a ConfigMap it may be any value. */
  datatype Record = Record(runId: string, completed: bool, succeeded: bool, deadLettered: bool, fault: Json)

  // ---- insertion-ordered dicts ---------------------------------------------------------------

  type Dict = seq<(string, Record)>

  ghost predicate Distinct(d: Dict) {
    forall i, j :: 0 <= i < j < |d| ==> d[i].0 != d[j].0
  }

  /** Every record sits under its own run id. */
  ghost predicate Keyed(d: Dict) {
    Distinct(d) && forall i :: 0 <= i < |d| ==> d[i].0 == d[i].1.runId
  }

  function IndexOf(d: Dict, key: string): (i: nat)
    ensures i <= |d|
    ensures i < |d| ==> d[i].0 == key
    ensures forall k :: 0 <= k < i ==> d[k].0 != key
  {
    if d == [] then 0 else if d[0].0 == key then 0 else 1 + IndexOf(d[1..], key)
  }

  function Get(d: Dict, key: string): Option<Record> {
    var i := IndexOf(d, key);
    if i < |d| then Some(d[i].1) else None
  }

  /** Assignment keeps the position of an existing key. */
  function Put(d: Dict, key: string, r: Record): Dict {
    var i := IndexOf(d, key);
    if i < |d| then d[i := (key, r)] else d + [(key, r)]
  }

  lemma PutGet(d: Dict, key: string, r: Record, other: string)
    requires Distinct(d)
    ensures Distinct(Put(d, key, r))
    ensures Get(Put(d, key, r), other) == if other == key then Some(r) else Get(d, other)
    ensures Keyed(d) && r.runId == key ==> Keyed(Put(d, key, r))
  {
    var e := Put(d, key, r);
    var i, j := IndexOf(e, other), IndexOf(d, other);
    if other == key {
      assert e[IndexOf(d, key)].0 == key;
    } else if j < |d| {
      assert e[j] == d[j];
    } else {
      assert i == |e|;
    }
  }

  function IsCompleted(d: Dict, runId: string): bool {
    Get(d, runId).Some? && Get(d, runId).value.completed
  }

  function WithInFlight(d: Dict, runId: string): Dict {
    if IsCompleted(d, runId) then d else Put(d, runId, Record(runId, false, false, false, JNull))
  }

  function WithCompleted(d: Dict, runId: string, succeeded: bool, deadLettered: bool, fault: Json): Dict {
    Put(d, runId, Record(runId, true, succeeded, deadLettered, fault))
  }

  class SweepCheckpoint {
    const sweepId: string
    var treatments: Dict

    constructor (sweepId: string, treatments: Dict)
      ensures this.sweepId == sweepId && this.treatments == treatments
    {
      this.sweepId, this.treatments := sweepId, treatments;
    }

    /** Never downgrades a completed record. */
    method RecordInFlight(runId: string)
      requires Distinct(treatments)
      modifies this
      ensures treatments == WithInFlight(old(treatments), runId)
      ensures forall id :: IsCompleted(old(treatments), id) ==> Get(treatments, id) == Get(old(treatments), id)
    {
      if IsCompleted(treatments, runId) {
        return;
      }
      treatments := Put(treatments, runId, Record(runId, false, false, false, JNull));
      forall id | IsCompleted(old(treatments), id) ensures Get(treatments, id) == Get(old(treatments), id) {
        PutGet(old(treatments), runId, Record(runId, false, false, false, JNull), id);
      }
    }

    method RecordCompleted(runId: string, succeeded: bool, deadLettered: bool, fault: Json)
      requires Distinct(treatments)
      modifies this
      ensures treatments == WithCompleted(old(treatments), runId, succeeded, deadLettered, fault)
      ensures IsCompleted(treatments, runId)
      ensures forall id :: id != runId ==> Get(treatments, id) == Get(old(treatments), id)
    {
      var r := Record(runId, true, succeeded, deadLettered, fault);
      treatments := Put(treatments, runId, r);
      forall id ensures Get(treatments, id) == if id == runId then Some(r) else Get(old(treatments), id) {
        PutGet(old(treatments), runId, r, id);
      }
    }
  }

  // ---- rendering and parsing -----------------------------------------------------------------

  function RecordJson(r: Record): Json {
    JObj(map["run_id" := JStr(r.runId), "state" := JStr(if r.completed then COMPLETED else IN_FLIGHT),
             "succeeded" := JBool(r.succeeded), "dead_lettered" := JBool(r.deadLettered), "fault_kind" := r.fault])
  }

  function ItemsOf(d: Dict): (r: seq<Json>)
    ensures |r| == |d| && forall i :: 0 <= i < |r| ==> r[i] == RecordJson(d[i].1)
  {
    seq(|d|, i requires 0 <= i < |d| => RecordJson(d[i].1))
  }

  function ToDocument(sweepId: string, d: Dict): Json {
    JObj(map["schema" := JNum(1.0), "sweep_id" := JStr(sweepId),
             "treatments" := JList(ItemsOf(d))])
  }

  function Manifest(codec: Codec, sweepId: string, d: Dict): Json {
    JObj(map["apiVersion" := JStr("v1"), "kind" := JStr("ConfigMap"),
             "data" := JObj(map[PROGRESS_KEY := JStr(codec.dumps(ToDocument(sweepId, d)))])])
  }

  /** The record an element of the "treatments" list stands for; malformed elements are skipped. */
  function RecordOf(raw: Json): Option<Record> {
    if !raw.JObj? then None
    else
      var rid, state := Field(raw.fields, "run_id"), Field(raw.fields, "state");
      if !rid.JStr? || (state != JStr(IN_FLIGHT) && state != JStr(COMPLETED)) then None
      else Some(Record(rid.s, state == JStr(COMPLETED), Truthy(Field(raw.fields, "succeeded")),
                       Truthy(Field(raw.fields, "dead_lettered")), Field(raw.fields, "fault_kind")))
  }

  function PutRaw(d: Dict, raw: Json): Dict {
    var r := RecordOf(raw);
    if r == None then d else Put(d, r.value.runId, r.value)
  }

  function FromItems(items: seq<Json>): Dict {
    if items == [] then [] else PutRaw(FromItems(items[..|items| - 1]), items[|items| - 1])
  }

  /** An error stands for the exception Python raises: a truthy number or `true` cannot be iterated. A
      string or a mapping can, but yields no mappings. */
  function FromDocument(fields: map<string, Json>): Result<Dict, string> {
    var t := Field(fields, "treatments");
    if !Truthy(t) then Ok([])
    else match t
      case JList(items) => Ok(FromItems(items))
      case JNum(_) => Err("TypeError")
      case JBool(_) => Err("TypeError")
      case _ => Ok([])
  }

  function Parse(codec: Codec, configmap: Json): Result<Dict, string> {
    if !configmap.JObj? then Ok([])
    else
      var data := Field(configmap.fields, "data");
      if !Truthy(data) then Ok([])
      else if !data.JObj? then Err("AttributeError")
      else
        var blob := Field(data.fields, PROGRESS_KEY);
        if !blob.JStr? || Blank(blob.s) then Ok([])
        else match codec.loads(blob.s)
          case Some(JObj(fields)) => FromDocument(fields)
          case _ => Ok([])
  }

  method FromItemsLoop(items: seq<Json>) returns (treatments: Dict)
    ensures treatments == FromItems(items)
  {
    treatments := [];
    for i := 0 to |items|
      invariant treatments == FromItems(items[..i])
    {
      var raw := items[i];
      assert items[..i + 1] == items[..i] + [raw];
      if !raw.JObj? {
        continue;
      }
      var rid, state := Field(raw.fields, "run_id"), Field(raw.fields, "state");
      if !rid.JStr? || (state != JStr(IN_FLIGHT) && state != JStr(COMPLETED)) {
        continue;
      }
      treatments := Put(treatments, rid.s,
        Record(rid.s, state == JStr(COMPLETED), Truthy(Field(raw.fields, "succeeded")),
               Truthy(Field(raw.fields, "dead_lettered")), Field(raw.fields, "fault_kind")));
    }
    assert items[..|items|] == items;
  }

  lemma RecordRoundTrip(r: Record)
    ensures RecordOf(RecordJson(r)) == Some(r)
  {
  }

  /** The six falsy values of a parsed document. */
  lemma FalsyValues(j: Json)
    ensures !Truthy(j) <==> j in {JNull, JBool(false), JNum(0.0), JStr(""), JList([]), JObj(map[])}
  {}

  /** Exactly which elements are kept, and as what: a string id and one of the two states. A flag counts if it is
      truthy, and the fault is taken as it stands. */
  lemma KeptIff(raw: Json)
    ensures RecordOf(raw).Some?
       <==> && raw.JObj? && Field(raw.fields, "run_id").JStr?
            && Field(raw.fields, "state") in {JStr("in_flight"), JStr("completed")}
    ensures RecordOf(raw).Some? ==>
              var r := RecordOf(raw).value;
              && JStr(r.runId) == Field(raw.fields, "run_id")
              && (r.completed <==> Field(raw.fields, "state") == JStr("completed"))
              && (r.succeeded <==> Truthy(Field(raw.fields, "succeeded")))
              && (r.deadLettered <==> Truthy(Field(raw.fields, "dead_lettered")))
              && r.fault == Field(raw.fields, "fault_kind")
  {
    assert "in_flight"[0] != "completed"[0];
  }

  /** Whatever is parsed is keyed by run id, even from a document that repeats ids. */
  lemma {:induction false} FromItemsKeyed(items: seq<Json>)
    ensures Keyed(FromItems(items))
  {
    if items != [] {
      var n := |items| - 1;
      FromItemsKeyed(items[..n]);
      var r := RecordOf(items[n]);
      if r.Some? {
        PutGet(FromItems(items[..n]), r.value.runId, r.value, r.value.runId);
      }
    }
  }

  lemma PutLast(d: Dict, entry: (string, Record))
    requires forall i :: 0 <= i < |d| ==> d[i].0 != entry.0
    ensures Put(d, entry.0, entry.1) == d + [entry]
  {}

  lemma {:induction false} ItemsRoundTrip(d: Dict)
    requires Keyed(d)
    ensures FromItems(ItemsOf(d)) == d
  {
    if d != [] {
      var n := |d| - 1;
      ItemsRoundTrip(d[..n]);
      assert ItemsOf(d)[..n] == ItemsOf(d[..n]);
      RecordRoundTrip(d[n].1);
      assert d[..n] + [d[n]] == d && forall i :: 0 <= i < n ==> d[..n][i] == d[i];
      PutLast(d[..n], d[n]);
    }
  }

  /** The manifest carries the encoded document under its data key. */
  lemma ManifestBlob(codec: Codec, sweepId: string, d: Dict)
    ensures var m := Manifest(codec, sweepId, d);
            && m.JObj? && Field(m.fields, "data").JObj? && Truthy(Field(m.fields, "data"))
            && Field(Field(m.fields, "data").fields, PROGRESS_KEY) == JStr(codec.dumps(ToDocument(sweepId, d)))
  {
    var data := map[PROGRESS_KEY := JStr(codec.dumps(ToDocument(sweepId, d)))];
    assert PROGRESS_KEY in data;
    assert Field(Manifest(codec, sweepId, d).fields, "data") == JObj(data);
  }

  lemma DocumentRoundTrip(sweepId: string, d: Dict)
    requires Keyed(d)
    ensures ToDocument(sweepId, d).JObj? && FromDocument(ToDocument(sweepId, d).fields) == Ok(d)
  {
    ItemsRoundTrip(d);
    assert Field(ToDocument(sweepId, d).fields, "treatments") == JList(ItemsOf(d));
  }

  /** Parsing the rendered ConfigMap gives back the checkpoint, order included. */
  lemma ParseInvertsManifest(codec: Codec, sweepId: string, d: Dict)
    requires Lawful(codec) && Keyed(d)
    ensures Parse(codec, Manifest(codec, sweepId, d)) == Ok(d)
  {
    var doc := ToDocument(sweepId, d);
    ManifestBlob(codec, sweepId, d);
    DocumentRoundTrip(sweepId, d);
    assert codec.loads(codec.dumps(doc)) == Some(doc) && !Blank(codec.dumps(doc));
  }

  /** "Never an error", as documented, holds except for two shapes of corrupt ConfigMap: a truthy "data"
      that is no mapping, and a decoded document whose "treatments" is a truthy number or `true`. */
  lemma ParseFailsExactlyOn(codec: Codec, configmap: Json)
    ensures Parse(codec, configmap).Err? <==>
      configmap.JObj? && Truthy(Field(configmap.fields, "data"))
      && (var data := Field(configmap.fields, "data");
          || !data.JObj?
          || (var blob := Field(data.fields, "progress.json");
              && blob.JStr? && !Blank(blob.s)
              && codec.loads(blob.s).Some? && codec.loads(blob.s).value.JObj?
              && var t := Field(codec.loads(blob.s).value.fields, "treatments");
                 t == JBool(true) || (t.JNum? && t.n != 0.0)))
  {
  }

  lemma ParsedIsKeyed(codec: Codec, configmap: Json)
    ensures Parse(codec, configmap).Ok? ==> Keyed(Parse(codec, configmap).value)
  {
    if configmap.JObj? && Field(configmap.fields, "data").JObj? {
      var blob := Field(Field(configmap.fields, "data").fields, PROGRESS_KEY);
      if blob.JStr? && codec.loads(blob.s).Some? && codec.loads(blob.s).value.JObj? {
        var t := Field(codec.loads(blob.s).value.fields, "treatments");
        if t.JList? {
          FromItemsKeyed(t.items);
        }
      }
    }
  }
}
