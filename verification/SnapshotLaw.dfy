/** Exactly when a snapshot reproduces the tables it was taken from (internal/replicated/fsm.go,
    Persist and Restore). */
module SnapshotLaw {
  import opened Base
  import opened Physical
  import opened Jobs
  import opened Tables
  import opened Snapshot
  import opened Consequences
  import opened Fsm
  import opened Runs
  import opened Invariants

  // ----- what survives -----

  /** Restore replays records as inserts: they need version 1, and a column to be inserted into. */
  predicate RestorableCollection(c: Collection, table: Table) {
    && (forall r :: r in table ==> table[r].version == 1)
    && (table != map[] ==> c.fields != [])
  }

  predicate Restorable(t: Tables)
    requires t.rows.Keys == t.collections.Keys
  {
    forall id :: id in t.collections ==> RestorableCollection(t.collections[id], t.rows[id])
  }

  /** Persist reads constraint flags that only SQLite reports. */
  predicate FlagsSurvive(d: Dialect, t: Tables) {
    d.SQLite? || forall id, f :: id in t.collections && f in t.collections[id].fields ==> !f.required && !f.unique
  }

  /** An empty error message is stored as text and written back as NULL. */
  predicate ErrorsSurvive(jobs: JobTable) {
    forall i :: i in jobs ==> jobs[i].lastError != Some("")
  }

  predicate Portable(d: Dialect, t: Tables)
    requires t.rows.Keys == t.collections.Keys
  {
    Restorable(t) && t.idem == map[] && FlagsSurvive(d, t) && ErrorsSurvive(t.jobs)
  }

  /** A collection as the snapshot remembers it. */
  function Remembered(d: Dialect, c: Collection): Collection {
    c.(fields := SavedFields(d, c.fields))
  }

  /** The tables a restore commits, when it commits. */
  function Mirror(d: Dialect, t: Tables): Tables {
    t.(collections := map id | id in t.collections :: Remembered(d, t.collections[id]),
       idem := map[], jobs := SavedJobs(t.jobs))
  }

  lemma FlagsKept(d: Dialect, fields: seq<Field>)
    ensures SavedFields(d, fields) == fields <==> d.SQLite? || forall f :: f in fields ==> !f.required && !f.unique
  {
  }

  /** The mirror is the original exactly when flags, error messages and idempotency rows survive. */
  lemma MirrorIsOriginal(d: Dialect, t: Tables)
    requires JobsTidy(t.jobs)
    ensures Mirror(d, t) == t <==> t.idem == map[] && FlagsSurvive(d, t) && ErrorsSurvive(t.jobs)
  {
    JobsKept(t.jobs);
    CollectionsKept(d, t);
    hide FlagsSurvive, ErrorsSurvive, JobsTidy, Remembered, SavedJobs;
    var m := Mirror(d, t);
    if m.collections == t.collections && m.jobs == t.jobs && t.idem == map[] {
      assert m == t;
    }
  }

  lemma JobsKept(jobs: JobTable)
    requires JobsTidy(jobs)
    ensures SavedJobs(jobs) == jobs <==> ErrorsSurvive(jobs)
  {
  }

  lemma CollectionsKept(d: Dialect, t: Tables)
    ensures Mirror(d, t).collections == t.collections <==> FlagsSurvive(d, t)
  {
    var m := Mirror(d, t).collections;
    forall id | id in t.collections
      ensures m[id] == t.collections[id] <==>
        d.SQLite? || forall f :: f in t.collections[id].fields ==> !f.required && !f.unique
    {
      FlagsKept(d, t.collections[id].fields);
    }
    hide Remembered;
  }

  // ----- one collection's records -----

  lemma CellSurvives(kind: string, c: Cell)
    requires Accepts(kind, c)
    ensures Encode(kind, Decode(c)) == c
  {
  }

  lemma ValueSaved(fields: seq<Field>, row: Row, i: nat)
    requires i < |fields| && DistinctNames(fields) && RowFits(fields, row)
    ensures ValueOf(DecodedValues(fields, row), fields[i].name) == Decode(row.cells[fields[i].id])
  {
  }

  lemma CellRewritten(fields: seq<Field>, values: map<string, Json>, i: nat)
    requires i < |fields| && DistinctIds(fields)
    ensures fields[i].id in Cells(fields, values)
    ensures Cells(fields, values)[fields[i].id] == Encode(fields[i].kind, ValueOf(values, fields[i].name))
  {
  }

  lemma CellIds(fields: seq<Field>, values: map<string, Json>)
    requires DistinctIds(fields)
    ensures Cells(fields, values).Keys == Ids(fields)
  {
  }

  lemma CellBack(d: Dialect, fields: seq<Field>, row: Row, i: nat)
    requires i < |fields| && DistinctIds(fields) && DistinctNames(fields) && RowFits(fields, row)
    ensures var cells := Cells(SavedFields(d, fields), DecodedValues(fields, row));
      fields[i].id in cells && cells[fields[i].id] == row.cells[fields[i].id]
  {
    var saved := SavedFields(d, fields);
    assert forall k :: 0 <= k < |saved| ==> saved[k] == SavedField(d, fields[k]);
    assert fields[i] in fields;
    ValueSaved(fields, row, i);
    CellSurvives(fields[i].kind, row.cells[fields[i].id]);
    hide Cells, DecodedValues, SavedFields, Encode, Decode, ValueOf, Accepts;
    CellRewritten(saved, DecodedValues(fields, row), i);
  }

  lemma SavedDistinct(d: Dialect, fields: seq<Field>)
    requires DistinctIds(fields)
    ensures DistinctIds(SavedFields(d, fields))
  {
  }

  /** Decoding a stored row and encoding it again gives its cells back. */
  lemma RowSurvives(d: Dialect, fields: seq<Field>, row: Row)
    requires DistinctIds(fields) && DistinctNames(fields) && RowFits(fields, row) && row.cells.Keys == Ids(fields)
    ensures Cells(SavedFields(d, fields), DecodedValues(fields, row)) == row.cells
  {
    hide *;
    var saved, values := SavedFields(d, fields), DecodedValues(fields, row);
    SavedDistinct(d, fields);
    SavedIds(d, fields);
    CellIds(saved, values);
    forall id | id in Ids(fields)
      ensures Cells(saved, values)[id] == row.cells[id]
    {
      var i := Where(fields, id);
      CellBack(d, fields, row, i);
    }
    assert Cells(saved, values).Keys == row.cells.Keys;
  }

  lemma Where(fields: seq<Field>, id: string) returns (i: nat)
    requires id in Ids(fields)
    ensures i < |fields| && fields[i].id == id
  {
    i :| 0 <= i < |fields| && fields[i].id == id;
  }

  lemma SavedRowFits(d: Dialect, fields: seq<Field>, row: Row)
    requires RowFits(fields, row)
    ensures RowFits(SavedFields(d, fields), row)
  {
  }

  lemma SavedUniqueFits(d: Dialect, fields: seq<Field>, table: Table, part: Table)
    requires UniqueFits(fields, table)
    requires forall r :: r in part ==> r in table && part[r] == table[r]
    ensures UniqueFits(SavedFields(d, fields), part)
  {
  }

  /** Fewer rows under fewer constraints still fit. */
  lemma SubtableFits(d: Dialect, fields: seq<Field>, table: Table, part: Table)
    requires TableFits(fields, table)
    requires forall r :: r in part ==> r in table && part[r] == table[r]
    ensures TableFits(SavedFields(d, fields), part)
  {
    SavedIds(d, fields);
    SavedUniqueFits(d, fields, table, part);
    hide SavedFields, RowFits, UniqueFits, Ids;
    forall r | r in part
      ensures RowFits(SavedFields(d, fields), part[r])
    {
      SavedRowFits(d, fields, part[r]);
    }
  }

  lemma SavedIds(d: Dialect, fields: seq<Field>)
    ensures Ids(SavedFields(d, fields)) == Ids(fields)
  {
    var saved := SavedFields(d, fields);
    forall id
      ensures id in Ids(saved) <==> id in Ids(fields)
    {
      if id in Ids(fields) {
        var i :| 0 <= i < |fields| && fields[i].id == id;
        assert saved[i] in saved && saved[i].id == id;
      }
      if id in Ids(saved) {
        var i :| 0 <= i < |saved| && saved[i].id == id;
        assert fields[i] in fields;
      }
    }
  }

  function Listed(records: seq<Record>, n: nat): set<string>
    requires n <= |records|
  {
    set i | 0 <= i < n :: records[i].id
  }

  function Part(table: Table, ids: set<string>): Table {
    map r | r in table && r in ids :: table[r]
  }

  /** Saved records of one collection, read from its table. */
  ghost predicate SavedFrom(records: seq<Record>, id: string, c: Collection, table: Table) {
    && (forall i, j :: 0 <= i < j < |records| ==> records[i].id != records[j].id)
    && (forall i :: 0 <= i < |records| ==>
          records[i].id in table && records[i] == SavedRecord(id, records[i].id, c.fields, table[records[i].id]))
  }

  /** The store while a collection's records are being replayed. */
  function Filling(t: Tables, id: string, table: Table, records: seq<Record>, n: nat): Tables
    requires n <= |records|
  {
    t.(rows := t.rows[id := Part(table, Listed(records, n))])
  }

  ghost predicate Replayable(d: Dialect, t: Tables, id: string, c: Collection, table: Table) {
    && id in t.collections && t.collections[id] == Remembered(d, c)
    && id in t.rows && t.rows[id] == map[]
    && SoundCollection(id, c, table)
  }

  /** An insert without an idempotency key, into a table it fits. */
  lemma InsertOutcome(t: Tables, p: Record, next: Table)
    requires p.collection in t.collections && p.collection in t.rows && p.id !in t.rows[p.collection] && p.idempotencyKey == ""
    requires var fields := t.collections[p.collection].fields;
      && next == t.rows[p.collection][p.id := Row(p.version, p.createdAt, p.updatedAt, Cells(fields, p.values))]
      && TableFits(fields, next)
    ensures PutRecord(t, p).Ok? <==> p.version == 1 && t.collections[p.collection].fields != []
    ensures PutRecord(t, p).Ok? ==> PutRecord(t, p).value == t.(rows := t.rows[p.collection := next])
  {
  }

  lemma PartGrows(table: Table, records: seq<Record>, n: nat)
    requires n < |records| && records[n].id in table
    requires forall i, j :: 0 <= i < j < |records| ==> records[i].id != records[j].id
    ensures records[n].id !in Part(table, Listed(records, n))
    ensures Part(table, Listed(records, n + 1)) == Part(table, Listed(records, n))[records[n].id := table[records[n].id]]
  {
  }

  /** One replayed record: accepted exactly at version 1 with a column to fill. */
  lemma ReplayOne(d: Dialect, t: Tables, id: string, c: Collection, table: Table, records: seq<Record>, n: nat)
    requires Replayable(d, t, id, c, table) && SavedFrom(records, id, c, table) && n < |records|
    ensures var r := PutRecord(Filling(t, id, table, records, n), records[n]);
      && (r.Ok? <==> records[n].version == 1 && c.fields != [])
      && (r.Ok? ==> r.value == Filling(t, id, table, records, n + 1))
  {
    var p, before := records[n], Filling(t, id, table, records, n);
    var row, next := table[p.id], Part(table, Listed(records, n + 1));
    assert p == SavedRecord(id, p.id, c.fields, row);
    PartGrows(table, records, n);
    assert Cells(SavedFields(d, c.fields), p.values) == row.cells by {
      hide Cells, SavedFields, DecodedValues, RowFits, Ids;
      RowSurvives(d, c.fields, row);
    }
    assert TableFits(SavedFields(d, c.fields), next) by {
      assert forall r :: r in next ==> r in table && next[r] == table[r];
      hide TableFits, SavedFields;
      SubtableFits(d, c.fields, table, next);
    }
    hide TableFits, Cells, SavedFields, DecodedValues, SoundCollection, Part, Listed, PutRecord, SavedFrom;
    assert before.collections[id].fields == SavedFields(d, c.fields);
    assert row == Row(p.version, p.createdAt, p.updatedAt, row.cells);
    InsertOutcome(before, p, next);
    assert before.rows[id := next] == t.rows[id := next];
  }

  predicate AllInsertable(records: seq<Record>, n: nat, c: Collection)
    requires n <= |records|
  {
    forall i :: 0 <= i < n ==> records[i].version == 1 && c.fields != []
  }

  lemma {:induction false} ReplayRecords(d: Dialect, t: Tables, id: string, c: Collection, table: Table, records: seq<Record>, n: nat)
    requires Replayable(d, t, id, c, table) && SavedFrom(records, id, c, table) && n <= |records|
    ensures var r := RestoreRecords(t, records, n);
      && (r.Ok? <==> AllInsertable(records, n, c))
      && (r.Ok? ==> r.value == Filling(t, id, table, records, n))
  {
    hide PutRecord, Replayable, SavedFrom;
    if n == 0 {
      NothingFilled(d, t, id, c, table, records);
    } else {
      ReplayRecords(d, t, id, c, table, records, n - 1);
      hide Filling;
      ReplayOne(d, t, id, c, table, records, n - 1);
    }
  }

  lemma NothingFilled(d: Dialect, t: Tables, id: string, c: Collection, table: Table, records: seq<Record>)
    requires Replayable(d, t, id, c, table)
    ensures Filling(t, id, table, records, 0) == t
  {
  }

  // ----- the collections, one after the other -----

  /** The store once the collections with these ids have been replayed. */
  function Replayed(d: Dialect, t: Tables, u: Tables, ids: set<string>): Tables {
    u.(collections := map id | id in t.collections && id in ids :: Remembered(d, t.collections[id]),
       names := map n | n in t.names && t.names[n] in ids :: t.names[n],
       rows := map id | id in t.rows && id in ids :: t.rows[id],
       idem := map[])
  }

  lemma SavedWhole(d: Dialect, id: string, c: Collection, table: Table)
    requires SoundCollection(id, c, table)
    ensures var def := SavedDefinition(d, id, c);
      && WholeDefinition(def) && def.kind == "base" && Creatable(def.fields)
      && DistinctIds(def.fields) && DistinctNames(def.fields)
  {
  }

  lemma SavedNamesDistinct(d: Dialect, fields: seq<Field>)
    requires DistinctNames(fields)
    ensures DistinctNames(SavedFields(d, fields))
  {
  }

  lemma SavedFieldsInsertable(d: Dialect, t: Tables, u: Tables, ids: set<string>, id: string)
    requires Stored(t) && id in t.collections && id !in ids
    ensures FieldsInsertable(Replayed(d, t, u, ids), id, SavedFields(d, t.collections[id].fields))
  {
    hide Ids;
    var fields := t.collections[id].fields;
    SavedDistinct(d, fields);
    SavedNamesDistinct(d, fields);
    SavedIds(d, fields);
    var r := Replayed(d, t, u, ids);
    forall other | other in r.collections && other != id
      ensures Ids(r.collections[other].fields) !! Ids(SavedFields(d, fields))
    {
      SavedIds(d, t.collections[other].fields);
    }
  }

  /** Creating the next collection succeeds. */
  lemma CollectionReplayed(d: Dialect, t: Tables, u: Tables, ids: set<string>, id: string)
    requires Stored(t) && id in t.collections && id !in ids
    ensures var r := Replayed(d, t, u, ids); var def := SavedDefinition(d, id, t.collections[id]);
      ApplyCollection(r, def) == Ok(Created(r, def))
  {
    hide Stored, FieldsInsertable, WholeDefinition, Creatable, SoundCollection;
    StoredParts(t);
    SavedWhole(d, id, t.collections[id], t.rows[id]);
    SavedFieldsInsertable(d, t, u, ids, id);
    NameIsFree(d, t, u, ids, id);
  }

  lemma NameIsFree(d: Dialect, t: Tables, u: Tables, ids: set<string>, id: string)
    requires Indexed(t) && id in t.collections && id !in ids
    ensures t.collections[id].name !in Replayed(d, t, u, ids).names && id !in Replayed(d, t, u, ids).collections
  {
  }

  lemma CollectionsGrow(d: Dialect, t: Tables, u: Tables, ids: set<string>, id: string)
    requires id in t.collections
    ensures Replayed(d, t, u, ids).collections[id := Remembered(d, t.collections[id])] == Replayed(d, t, u, ids + {id}).collections
  {
  }

  lemma NamesGrow(d: Dialect, t: Tables, u: Tables, ids: set<string>, id: string)
    requires Indexed(t) && id in t.collections
    ensures Replayed(d, t, u, ids).names[t.collections[id].name := id] == Replayed(d, t, u, ids + {id}).names
  {
  }

  lemma RowsGrow(d: Dialect, t: Tables, u: Tables, ids: set<string>, id: string)
    requires id in t.rows
    ensures Replayed(d, t, u, ids).rows[id := map[]][id := t.rows[id]] == Replayed(d, t, u, ids + {id}).rows
  {
  }

  lemma ReplayedFrame(d: Dialect, t: Tables, u: Tables, ids: set<string>, more: set<string>)
    ensures var r, q := Replayed(d, t, u, ids), Replayed(d, t, u, more);
      q == r.(collections := q.collections, names := q.names, rows := q.rows)
  {
  }

  /** The new collection and its rows bring the store one collection further. */
  lemma ReplayedGrows(d: Dialect, t: Tables, u: Tables, ids: set<string>, id: string)
    requires Indexed(t) && id in t.collections && t.collections[id].kind == "base"
    ensures id in t.rows
    ensures var created := Created(Replayed(d, t, u, ids), SavedDefinition(d, id, t.collections[id]));
      && created.(rows := created.rows[id := t.rows[id]]) == Replayed(d, t, u, ids + {id})
      && id in created.collections && created.collections[id] == Remembered(d, t.collections[id])
  {
    hide Replayed, SavedFields;
    CollectionsGrow(d, t, u, ids, id);
    NamesGrow(d, t, u, ids, id);
    RowsGrow(d, t, u, ids, id);
    ReplayedFrame(d, t, u, ids, ids + {id});
  }

  lemma AllListed(d: Dialect, t: Tables, id: string, s: Saved)
    requires id in t.collections && id in t.rows && SavesCollection(d, t, id, s)
    ensures SavedFrom(s.records, id, t.collections[id], t.rows[id])
    ensures Part(t.rows[id], Listed(s.records, |s.records|)) == t.rows[id]
    ensures RestorableCollection(t.collections[id], t.rows[id]) <==> AllInsertable(s.records, |s.records|, t.collections[id])
  {
  }

  /** Replaying one more collection: it succeeds exactly when the collection is restorable. */
  lemma ReplayCollection(d: Dialect, t: Tables, u: Tables, ids: set<string>, id: string, s: Saved)
    requires Stored(t) && id in t.collections && id in t.rows && id !in ids && SavesCollection(d, t, id, s)
    ensures var r := RestoreCollection(Replayed(d, t, u, ids), s);
      && (r.Ok? <==> RestorableCollection(t.collections[id], t.rows[id]))
      && (r.Ok? ==> r.value == Replayed(d, t, u, ids + {id}))
  {
    hide Replayed, Stored, SoundCollection, Part, Listed, RestoreRecords, ApplyCollection, SavedFrom,
      Remembered, Created, RestorableCollection, Indexed, SavedDefinition, AllInsertable;
    StoredParts(t);
    var created := Created(Replayed(d, t, u, ids), SavedDefinition(d, id, t.collections[id]));
    CollectionReplayed(d, t, u, ids, id);
    BaseKind(id, t.collections[id], t.rows[id]);
    ReplayedGrows(d, t, u, ids, id);
    CreatedHolds(Replayed(d, t, u, ids), SavedDefinition(d, id, t.collections[id]));
    SavedName(d, id, t.collections[id]);
    AllListed(d, t, id, s);
    assert s.definition == SavedDefinition(d, id, t.collections[id]);
    assert RestoreCollection(Replayed(d, t, u, ids), s) == RestoreRecords(created, s.records, |s.records|);
    ReplayRecords(d, created, id, t.collections[id], t.rows[id], s.records, |s.records|);
    assert Filling(created, id, t.rows[id], s.records, |s.records|) == created.(rows := created.rows[id := t.rows[id]]);
  }

  lemma SavedName(d: Dialect, id: string, c: Collection)
    ensures SavedDefinition(d, id, c).id == id
  {
  }

  lemma CreatedHolds(t: Tables, d: Definition)
    ensures d.id in Created(t, d).collections && d.id in Created(t, d).rows && Created(t, d).rows[d.id] == map[]
  {
  }

  lemma BaseKind(id: string, c: Collection, table: Table)
    requires SoundCollection(id, c, table)
    ensures c.kind == "base"
  {
  }

  function SavedIdsOf(saved: seq<Saved>, n: nat): set<string>
    requires n <= |saved|
  {
    set i | 0 <= i < n :: saved[i].definition.id
  }

  /** Replaying the first n collections of a snapshot of these tables. */
  lemma {:induction false} ReplayCollections(d: Dialect, t: Tables, u: Tables, env: Envelope, n: nat)
    requires Stored(t) && Persists(d, t, env) && n <= |env.collections|
    ensures var r := RestoreCollections(Cleared(u), env.collections, n);
      && (r.Ok? <==> forall i :: 0 <= i < n ==> FirstRestorable(t, env.collections[i].definition.id))
      && (r.Ok? ==> r.value == Replayed(d, t, u, SavedIdsOf(env.collections, n)))
  {
    hide Stored, Persists, SavesCollection, RestoreCollection, Replayed, RestorableCollection;
    if n == 0 {
      NothingReplayed(d, t, u);
      assert SavedIdsOf(env.collections, 0) == {};
    } else {
      var ids, s := SavedIdsOf(env.collections, n - 1), env.collections[n - 1];
      ReplayCollections(d, t, u, env, n - 1);
      NextSaved(d, t, env, n - 1);
      assert SavedIdsOf(env.collections, n) == ids + {s.definition.id};
      ReplayCollection(d, t, u, ids, s.definition.id, s);
    }
  }

  predicate FirstRestorable(t: Tables, id: string) {
    id in t.collections && id in t.rows && RestorableCollection(t.collections[id], t.rows[id])
  }

  lemma NothingReplayed(d: Dialect, t: Tables, u: Tables)
    ensures Replayed(d, t, u, {}) == Cleared(u)
  {
  }

  lemma NextSaved(d: Dialect, t: Tables, env: Envelope, n: nat)
    requires Persists(d, t, env) && n < |env.collections|
    ensures var id := env.collections[n].definition.id;
      && id in t.collections && id in t.rows && SavesCollection(d, t, id, env.collections[n])
      && id !in SavedIdsOf(env.collections, n)
  {
  }

  lemma AllCollectionsSaved(d: Dialect, t: Tables, env: Envelope)
    requires Stored(t) && Persists(d, t, env)
    ensures SavedIdsOf(env.collections, |env.collections|) == t.collections.Keys
    ensures (forall i :: 0 <= i < |env.collections| ==> FirstRestorable(t, env.collections[i].definition.id)) <==> Restorable(t)
  {
  }

  // ----- the consequence tables -----

  lemma ConsequencesSurvive(d: Dialect, t: Tables, env: Envelope)
    requires Tidy(t) && Persists(d, t, env)
    ensures InsertableConsequences(env)
    ensures env.events == t.events && env.audit == t.audit
  {
  }

  lemma AllReplayed(d: Dialect, t: Tables, u: Tables)
    requires Indexed(t)
    ensures var r := Replayed(d, t, u, t.collections.Keys).(
              events := t.events, audit := t.audit, jobs := SavedJobs(t.jobs), webhooks := t.webhooks, functions := t.functions);
      r == Mirror(d, t)
  {
  }

  // ----- the theorem -----

  /** Restoring a snapshot of these tables succeeds exactly when they are restorable, and then yields
      their mirror, whatever the receiving store held. */
  lemma RestoreOutcome(d: Dialect, t: Tables, u: Tables, env: Envelope)
    requires Consistent(t) && Persists(d, t, env)
    ensures t.rows.Keys == t.collections.Keys
    ensures RestoreTables(u, env).Ok? <==> Restorable(t)
    ensures RestoreTables(u, env).Ok? ==> RestoreTables(u, env).value == Mirror(d, t)
  {
    hide Sound, Apart, Tidy, SavesCollection, RestoreCollections, Replayed, Mirror, FirstRestorable, Restorable,
      InsertableConsequences, SavedJobs;
    ReplayCollections(d, t, u, env, |env.collections|);
    AllCollectionsSaved(d, t, env);
    ConsequencesSurvive(d, t, env);
    AllReplayed(d, t, u);
  }

  /** The round trip. A snapshot restored anywhere reproduces the tables it was taken from exactly when
      they are portable: every record at version 1, a field in every collection with records, no record
      idempotency rows, no constraint flags under PostgreSQL, no job with an empty error message. */
  lemma SnapshotRoundTrip(d: Dialect, t: Tables, u: Tables, env: Envelope)
    requires Consistent(t) && Persists(d, t, env)
    ensures t.rows.Keys == t.collections.Keys
    ensures RestoreTables(u, env) == Ok(t) <==> Portable(d, t)
  {
    hide Stored, EventsTidy, AuditTidy, JobsTidy, Persists, RestoreTables, Mirror, Restorable, FlagsSurvive, ErrorsSurvive;
    RestoreOutcome(d, t, u, env);
    MirrorIsOriginal(d, t);
  }

  // ----- the snapshot of a running replica -----

  /** Snapshot and Persist, with no entry applied in between. */
  ghost predicate TakenFrom(d: Dialect, k: Replica, env: Envelope) {
    && env.index == k.index && env.term == k.term && env.applied == k.applied
    && Persists(d, k.db.tables, env)
  }

  /** A replica that has lived through any legal life and is not in the middle of a replay. */
  ghost predicate Sender(log: Log, life: seq<LifeEvent>) {
    Ordered(log) && NeverRecommitted(log) && LegalLife(log, life) && AtRest(Life(log, life).replica)
  }

  lemma SenderIsConsistent(log: Log, life: seq<LifeEvent>)
    requires Sender(log, life)
    ensures Consistent(Life(log, life).replica.db.tables)
  {
    hide Canon, Life, Consistent, LegalLife, NeverRecommitted, Ordered;
    RestartTransparency(log, life);
    var m :| Life(log, life).cursor <= m <= |log| && Agrees(log, Life(log, life).replica.db, Canon(log, m).db, Life(log, life).replica.db.index);
    CanonConsistent(log, m);
  }

  /** A replica restoring the snapshot of another that is ahead of it, whatever restarts and restores either
      went through. With portable tables it gets that replica's tables, index, term and op digests; with
      a record above version 1, or records without a field, nothing of it changes; otherwise it commits
      the mirror. */
  lemma RestoreReproducesReplica(log: Log, life: seq<LifeEvent>, d: Dialect, env: Envelope, r: Replica)
    requires Sender(log, life) && TakenFrom(d, Life(log, life).replica, env)
    requires env.index > r.persisted && forall id :: id in r.db.ops ==> id in env.applied
    ensures var k := Life(log, life).replica; var t := k.db.tables; var r1 := RestoreStep(r, env);
      && t.rows.Keys == t.collections.Keys
      && (Portable(d, t) ==> r1 == Replica(Durable(t, k.index, k.term, k.applied), k.applied, k.index, k.term, k.index, r.failed))
      && (!Restorable(t) ==> r1 == r)
      && (Restorable(t) && !Portable(d, t) ==> r1.db.tables == Mirror(d, t) != t)
  {
    hide Life, Sender, Consistent, Persists, RestoreTables, Portable, Restorable, Mirror;
    var k := Life(log, life).replica;
    SenderIsConsistent(log, life);
    assert Persists(d, k.db.tables, env);
    RestoreOutcome(d, k.db.tables, r.db.tables, env);
    SnapshotRoundTrip(d, k.db.tables, r.db.tables, env);
    PortableIsRestorable(d, k.db.tables);
    assert r.db.ops + env.applied == env.applied;
  }

  lemma PortableIsRestorable(d: Dialect, t: Tables)
    requires t.rows.Keys == t.collections.Keys
    ensures Portable(d, t) ==> Restorable(t)
  {
  }

  /** The portable snapshots of such replicas are ones restart transparency may install, on every receiver:
      the restored tables, index and term are the log's own, and the known operations are up to IDs of
      rejected entries. */
  lemma PortableSnapshotInstalls(log: Log, life: seq<LifeEvent>, d: Dialect, env: Envelope, receiver: Tables) returns (n: nat)
    requires Sender(log, life) && TakenFrom(d, Life(log, life).replica, env)
    ensures var t := Life(log, life).replica.db.tables;
      && t.rows.Keys == t.collections.Keys
      && n <= |log| && t == Canon(log, n).db.tables
      && (Portable(d, t) ==> RestoreTables(receiver, env).Ok? && SnapshotOf(log, n, env, receiver))
      && (SnapshotOf(log, n, env, receiver) ==> Portable(d, t) || RestoreTables(receiver, env).Err?)
  {
    hide Canon, Life, Consistent, Persists, RestoreTables, Portable, LegalLife, NeverRecommitted, Ordered, Knows;
    var t := Life(log, life).replica.db.tables;
    SenderIsConsistent(log, life);
    SnapshotRoundTrip(d, t, receiver, env);
    if Portable(d, t) {
      n := RestSnapshots(log, life, env, receiver);
    } else {
      RestartTransparency(log, life);
      n :| Life(log, life).cursor <= n <= |log| && Agrees(log, Life(log, life).replica.db, Canon(log, n).db, Life(log, life).replica.db.index);
    }
  }
}
