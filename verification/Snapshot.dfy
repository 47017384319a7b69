/** The snapshot envelope (internal/replicated/fsm.go, Snapshot, Persist and Restore). */
module Snapshot {
  import opened Base
  import opened Physical
  import opened Jobs
  import opened Tables

  datatype Dialect = SQLite | Postgres

  datatype Saved = Saved(definition: Definition, records: seq<Record>)

  /** Text columns are saved through COALESCE(column, '') and written back through nullable. */
  datatype Envelope = Envelope(
    index: nat, term: nat, applied: map<string, string>,
    collections: seq<Saved>,
    events: seq<Event>, audit: seq<AuditFact>, jobs: JobTable,
    webhooks: map<string, Webhook>, functions: map<string, Function>)

  // ----- writing a snapshot -----

  /** Persist compares the driver's value with int64(1): PostgreSQL returns a boolean, which differs. */
  function ReadFlag(d: Dialect, b: bool): bool { d.SQLite? && b }

  function SavedField(d: Dialect, f: Field): Field {
    f.(required := ReadFlag(d, f.required), unique := ReadFlag(d, f.unique))
  }

  function SavedFields(d: Dialect, fields: seq<Field>): (r: seq<Field>)
    ensures |r| == |fields|
  {
    seq(|fields|, i requires 0 <= i < |fields| => SavedField(d, fields[i]))
  }

  function SavedDefinition(d: Dialect, id: string, c: Collection): Definition {
    Definition(id, c.name, c.kind, SavedFields(d, c.fields), c.createdAt, c.updatedAt)
  }

  /** decodeField. */
  function Decode(c: Cell): Json {
    match c
    case Null => JNull
    case Flag(b) => JBool(b)
    case Num(n) => JNum(n)
    case Txt(s) => JStr(s)
    case JsonText(v) => v
    case Raw(doc) => JDoc(doc)
  }

  function CellOf(row: Row, id: string): Cell {
    if id in row.cells then row.cells[id] else Null
  }

  function DecodedValues(fields: seq<Field>, row: Row): map<string, Json> {
    map i | 0 <= i < |fields| && (forall j :: i < j < |fields| ==> fields[j].name != fields[i].name) ::
      fields[i].name := Decode(CellOf(row, fields[i].id))
  }

  /** A saved record: its state, with no consequence to emit and no idempotency key. */
  function SavedRecord(collection: string, id: string, fields: seq<Field>, row: Row): Record {
    Record(collection, id, row.version, row.created, row.updated, DecodedValues(fields, row),
           "", "", JNull, "", "", "", "", "", "", JNull)
  }

  function Saving(c: Option<string>): Option<string> { Nullable(Coalesce(c)) }

  function SavedEvent(e: Event): Event {
    e.(collection := Saving(e.collection), record := Saving(e.record), key := Saving(e.key))
  }

  function SavedAudit(a: AuditFact): AuditFact {
    a.(actor := Saving(a.actor), target := Saving(a.target), request := Saving(a.request), key := Saving(a.key))
  }

  function SavedJob(j: Job): Job {
    j.(key := Saving(j.key), lastError := Saving(j.lastError))
  }

  function SavedJobs(jobs: JobTable): JobTable {
    map id | id in jobs :: SavedJob(jobs[id])
  }

  /** A saved collection lists each of its records once. */
  ghost predicate SavesCollection(d: Dialect, t: Tables, id: string, s: Saved)
    requires id in t.collections && id in t.rows
  {
    && s.definition == SavedDefinition(d, id, t.collections[id])
    && (forall i, j :: 0 <= i < j < |s.records| ==> s.records[i].id != s.records[j].id)
    && (forall i :: 0 <= i < |s.records| ==>
          && s.records[i].id in t.rows[id]
          && s.records[i] == SavedRecord(id, s.records[i].id, t.collections[id].fields, t.rows[id][s.records[i].id]))
    && (forall r :: r in t.rows[id] ==> exists i :: 0 <= i < |s.records| && s.records[i].id == r)
  }

  /** What Persist writes for these tables; the order of collections and records is free. */
  ghost predicate Persists(d: Dialect, t: Tables, env: Envelope) {
    && (forall i, j :: 0 <= i < j < |env.collections| ==>
          env.collections[i].definition.id != env.collections[j].definition.id)
    && (forall i :: 0 <= i < |env.collections| ==>
          var id := env.collections[i].definition.id;
          id in t.collections && id in t.rows && SavesCollection(d, t, id, env.collections[i]))
    && (forall id :: id in t.collections ==> exists i :: 0 <= i < |env.collections| && env.collections[i].definition.id == id)
    && env.events == seq(|t.events|, i requires 0 <= i < |t.events| => SavedEvent(t.events[i]))
    && env.audit == seq(|t.audit|, i requires 0 <= i < |t.audit| => SavedAudit(t.audit[i]))
    && env.jobs == SavedJobs(t.jobs)
    && env.webhooks == t.webhooks && env.functions == t.functions
  }

  // ----- restoring one -----

  /** The records of one collection, in order. */
  function RestoreRecords(t: Tables, records: seq<Record>, n: nat): Result<Tables>
    requires n <= |records|
  {
    if n == 0 then Ok(t)
    else
      var t1 :- RestoreRecords(t, records, n - 1);
      PutRecord(t1, records[n - 1])
  }

  function RestoreCollection(t: Tables, s: Saved): Result<Tables> {
    var t1 :- ApplyCollection(t, s.definition);
    RestoreRecords(t1, s.records, |s.records|)
  }

  function RestoreCollections(t: Tables, saved: seq<Saved>, n: nat): Result<Tables>
    requires n <= |saved|
  {
    if n == 0 then Ok(t)
    else
      var t1 :- RestoreCollections(t, saved, n - 1);
      RestoreCollection(t1, saved[n - 1])
  }

  /** The tables with every collection deleted. */
  function Cleared(t: Tables): Tables {
    t.(collections := map[], names := map[], rows := map[], idem := map[])
  }

  /** Primary keys and dedup keys of the consequence rows do not repeat. */
  predicate InsertableConsequences(env: Envelope) {
    && (forall i, j :: 0 <= i < j < |env.events| ==>
          && env.events[i].sequence != env.events[j].sequence
          && (env.events[i].key.Some? ==> env.events[i].key != env.events[j].key))
    && (forall i, j :: 0 <= i < j < |env.audit| ==>
          && env.audit[i].id != env.audit[j].id
          && (env.audit[i].key.Some? ==> env.audit[i].key != env.audit[j].key))
    && (forall a, b :: a in env.jobs && b in env.jobs && a != b && env.jobs[a].key.Some? ==> env.jobs[a].key != env.jobs[b].key)
  }

  /** replaceConsensusTables. */
  function ReplaceConsequences(t: Tables, env: Envelope): Result<Tables> {
    if !InsertableConsequences(env) then Err(Broken)
    else Ok(t.(events := env.events, audit := env.audit, jobs := env.jobs, webhooks := env.webhooks, functions := env.functions))
  }

  /** The product tables a full restore commits. */
  function RestoreTables(t: Tables, env: Envelope): Result<Tables> {
    var t1 :- RestoreCollections(Cleared(t), env.collections, |env.collections|);
    ReplaceConsequences(t1, env)
  }
}
