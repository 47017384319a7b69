/** What every committed operation keeps true of the tables. */
module Invariants {
  import opened Base
  import opened Physical
  import opened Jobs
  import opened Tables
  import opened Consequences
  import opened Fsm
  import opened Runs

  // ----- collections and records -----

  /** The indices agree: every collection has one physical table and one name, and idempotency rows
      reference collections. */
  predicate Indexed(t: Tables) {
    && t.rows.Keys == t.collections.Keys
    && (forall id :: id in t.collections ==> t.collections[id].name in t.names && t.names[t.collections[id].name] == id)
    && (forall n :: n in t.names ==> t.names[n] in t.collections && t.collections[t.names[n]].name == n)
    && (forall k :: k in t.idem ==> k.0 in t.collections)
  }

  /** A stored collection satisfies every constraint its definition and columns declare. */
  predicate SoundCollection(id: string, c: Collection, table: Table) {
    && id != "" && c.name != "" && c.kind == "base" && c.createdAt != UNSET && c.updatedAt != UNSET
    && Creatable(c.fields) && DistinctNames(c.fields)
    && (forall f :: f in c.fields ==> f.id != "")
    && TableFits(c.fields, table)
    && (forall r :: r in table ==> table[r].version >= 1)
  }

  predicate Sound(t: Tables)
    requires Indexed(t)
  {
    forall id :: id in t.collections ==> SoundCollection(id, t.collections[id], t.rows[id])
  }

  /** Field IDs are unique across collections. */
  predicate Apart(t: Tables) {
    forall a, b :: a in t.collections && b in t.collections && a != b ==>
      Ids(t.collections[a].fields) !! Ids(t.collections[b].fields)
  }

  predicate Stored(t: Tables) {
    Indexed(t) && Sound(t) && Apart(t)
  }

  predicate SameStorage(t: Tables, t1: Tables) {
    t1.collections == t.collections && t1.names == t.names && t1.rows == t.rows && t1.idem == t.idem
  }

  /** Replacing one collection's rows by sound ones keeps everything sound. */
  lemma RowsReplaced(t: Tables, t1: Tables, id: string, table: Table)
    requires Stored(t) && id in t.collections && SoundCollection(id, t.collections[id], table)
    requires t1.collections == t.collections && t1.names == t.names && t1.rows == t.rows[id := table]
    requires forall k :: k in t1.idem ==> k.0 in t.collections
    ensures Stored(t1)
  {
    hide SoundCollection, Ids;
  }

  /** One collection written: the others keep what made them sound. */
  lemma OthersStaySound(t: Tables, t1: Tables, id: string)
    requires Indexed(t) && Sound(t) && Indexed(t1)
    requires id in t1.collections && SoundCollection(id, t1.collections[id], t1.rows[id])
    requires forall o :: o in t1.collections && o != id ==>
      o in t.collections && t1.collections[o] == t.collections[o] && t1.rows[o] == t.rows[o]
    ensures Sound(t1)
  {
  }

  lemma CreatedIndexed(t: Tables, t1: Tables, d: Definition, c: Collection)
    requires Indexed(t) && d.id !in t.collections && d.name !in t.names && c.name == d.name
    requires t1 == t.(collections := t.collections[d.id := c], names := t.names[d.name := d.id], rows := t.rows[d.id := map[]])
    ensures Indexed(t1)
  {
  }

  lemma UpdatedIndexed(t: Tables, t1: Tables, d: Definition, c: Collection, table: Table)
    requires Indexed(t) && d.id in t.collections && c.name == d.name == t.collections[d.id].name
    requires t1 == t.(collections := t.collections[d.id := c], rows := t.rows[d.id := table])
    ensures Indexed(t1)
  {
  }

  lemma CollectionWritten(t: Tables, t1: Tables, d: Definition)
    requires Stored(t) && Indexed(t1) && FieldsInsertable(t, d.id, d.fields)
    requires d.id in t1.collections && t1.collections[d.id].fields == d.fields
    requires SoundCollection(d.id, t1.collections[d.id], t1.rows[d.id])
    requires t1.collections.Keys == t.collections.Keys + {d.id}
    requires forall o :: o in t1.collections && o != d.id ==> t1.collections[o] == t.collections[o] && t1.rows[o] == t.rows[o]
    ensures Stored(t1)
  {
    hide SoundCollection, FieldsInsertable, Apart;
    NewDefinitionApart(t, t1, d);
    OthersStaySound(t, t1, d.id);
  }

  /** The collection an accepted redefinition leaves. */
  function Redefined(before: Collection, d: Definition): Collection {
    Collection(d.name, d.kind, d.fields, before.createdAt, d.updatedAt)
  }

  lemma UpdatedIs(t: Tables, d: Definition)
    requires Indexed(t) && d.name in t.names && ApplyCollection(t, d).Ok?
    ensures d.id in t.collections && d.id in t.rows && t.collections[d.id].name == d.name
    ensures WholeDefinition(d) && d.kind == "base" && FieldsInsertable(t, d.id, d.fields)
    ensures var before := t.collections[d.id]; var r := Rebuild(before.fields, d.fields, t.rows[d.id]);
      && r.Ok?
      && ApplyCollection(t, d).value == t.(collections := t.collections[d.id := Redefined(before, d)], rows := t.rows[d.id := r.value])
  {
    hide WholeDefinition, FieldsInsertable, Rebuild;
  }

  lemma RedefinedIsSound(t: Tables, d: Definition, before: Collection, table: Table)
    requires SoundCollection(d.id, before, table) && WholeDefinition(d) && d.kind == "base" && FieldsInsertable(t, d.id, d.fields)
    requires Rebuild(before.fields, d.fields, table).Ok?
    ensures SoundCollection(d.id, Redefined(before, d), Rebuild(before.fields, d.fields, table).value)
  {
    RebuildIsSound(before.fields, d.fields, table);
    hide TableFits, Creatable, Rebuild;
  }

  lemma CollectionUpdateKeepsStored(t: Tables, d: Definition)
    requires Stored(t) && d.name in t.names && ApplyCollection(t, d).Ok?
    ensures Stored(ApplyCollection(t, d).value)
  {
    hide Stored, Indexed, SoundCollection, ApplyCollection, FieldsInsertable, WholeDefinition, Rebuild;
    StoredParts(t);
    UpdatedIs(t, d);
    var t1, before := ApplyCollection(t, d).value, t.collections[d.id];
    RedefinedIsSound(t, d, before, t.rows[d.id]);
    UpdatedIndexed(t, t1, d, Redefined(before, d), t1.rows[d.id]);
    CollectionWritten(t, t1, d);
  }

  function Created(t: Tables, d: Definition): Tables {
    t.(collections := t.collections[d.id := Collection(d.name, d.kind, d.fields, d.createdAt, d.updatedAt)],
       names := t.names[d.name := d.id], rows := t.rows[d.id := map[]])
  }

  lemma CreatedIs(t: Tables, d: Definition)
    requires d.name !in t.names && ApplyCollection(t, d).Ok?
    ensures ApplyCollection(t, d).value == Created(t, d)
    ensures d.id !in t.collections && WholeDefinition(d) && d.kind == "base"
    ensures FieldsInsertable(t, d.id, d.fields) && Creatable(d.fields)
  {
  }

  lemma NewCollectionIsSound(t: Tables, d: Definition)
    requires WholeDefinition(d) && d.kind == "base" && FieldsInsertable(t, d.id, d.fields) && Creatable(d.fields)
    ensures SoundCollection(d.id, Collection(d.name, d.kind, d.fields, d.createdAt, d.updatedAt), map[])
  {
  }

  lemma CollectionCreateKeepsStored(t: Tables, d: Definition)
    requires Stored(t) && d.name !in t.names && ApplyCollection(t, d).Ok?
    ensures Stored(ApplyCollection(t, d).value)
  {
    hide WholeDefinition, Stored, Indexed, SoundCollection, ApplyCollection, FieldsInsertable, Creatable;
    CreatedIs(t, d);
    NewCollectionIsSound(t, d);
    StoredParts(t);
    CreatedIndexed(t, Created(t, d), d, Collection(d.name, d.kind, d.fields, d.createdAt, d.updatedAt));
    CollectionWritten(t, Created(t, d), d);
  }

  lemma CollectionPutKeepsStored(t: Tables, d: Definition)
    requires Stored(t) && ApplyCollection(t, d).Ok?
    ensures Stored(ApplyCollection(t, d).value)
  {
    hide ApplyCollection, Stored;
    if d.name in t.names { CollectionUpdateKeepsStored(t, d); } else { CollectionCreateKeepsStored(t, d); }
  }

  lemma StoredParts(t: Tables)
    requires Stored(t)
    ensures Indexed(t)
    ensures forall id :: id in t.collections ==> SoundCollection(id, t.collections[id], t.rows[id])
  {
  }

  lemma NewDefinitionApart(t: Tables, t1: Tables, d: Definition)
    requires Apart(t) && FieldsInsertable(t, d.id, d.fields)
    requires d.id in t1.collections && t1.collections[d.id].fields == d.fields
    requires t1.collections.Keys == t.collections.Keys + {d.id}
    requires forall id :: id in t.collections && id != d.id ==> t1.collections[id] == t.collections[id]
    ensures Apart(t1)
  {
  }

  lemma RebuildIsSound(before: seq<Field>, fields: seq<Field>, table: Table)
    requires Rebuild(before, fields, table).Ok? && forall r :: r in table ==> table[r].version >= 1
    ensures Creatable(fields) && TableFits(fields, Rebuild(before, fields, table).value)
    ensures var next := Rebuild(before, fields, table).value;
      next.Keys == table.Keys && forall r :: r in next ==> next[r].version == table[r].version >= 1
  {
  }

  lemma DeletedIndexed(t: Tables, name: string)
    requires Indexed(t)
    ensures Indexed(DeleteCollection(t, name))
  {
  }

  lemma DeletedShape(t: Tables, name: string)
    requires Indexed(t)
    ensures var t1 := DeleteCollection(t, name); forall id :: id in t1.collections ==>
      id in t.collections && t1.collections[id] == t.collections[id] && id in t1.rows && id in t.rows && t1.rows[id] == t.rows[id]
  {
  }

  lemma CollectionDeleteKeepsStored(t: Tables, name: string)
    requires Stored(t)
    ensures Stored(DeleteCollection(t, name))
  {
    hide SoundCollection, Ids, DeleteCollection, Indexed;
    DeletedIndexed(t, name);
    DeletedShape(t, name);
  }

  lemma RecordsKeepStored(t: Tables, p: Record)
    requires Stored(t)
    ensures PutRecord(t, p).Ok? ==> Stored(PutRecord(t, p).value)
    ensures DeleteRecord(t, p).Ok? ==> Stored(DeleteRecord(t, p).value)
  {
    if PutRecord(t, p).Ok? { PutKeepsStored(t, p); }
    if DeleteRecord(t, p).Ok? { DeleteKeepsStored(t, p); }
  }

  /** What an accepted put does to the row store. */
  lemma PutShape(t: Tables, p: Record)
    requires PutRecord(t, p).Ok?
    ensures var t1 := PutRecord(t, p).value; var c := p.collection;
      && c in t.collections && c in t.rows && c in t1.rows
      && t1.collections == t.collections && t1.names == t.names && t1.rows == t.rows[c := t1.rows[c]]
      && (forall k :: k in t1.idem ==> k in t.idem || k.0 == c)
      && TableFits(t.collections[c].fields, t1.rows[c])
      && p.id in t1.rows[c] && t1.rows[c] == t.rows[c][p.id := t1.rows[c][p.id]]
      && t1.rows[c][p.id].version == p.version
      && p.version == (if p.id in t.rows[c] then t.rows[c][p.id].version + 1 else 1)
  {
    hide TableFits, Cells;
  }

  lemma PutKeepsStored(t: Tables, p: Record)
    requires Stored(t) && PutRecord(t, p).Ok?
    ensures Stored(PutRecord(t, p).value)
  {
    var t1, c := PutRecord(t, p).value, p.collection;
    PutShape(t, p);
    StoredParts(t);
    hide PutRecord, TableFits, Creatable, DistinctNames, Stored, Indexed;
    assert SoundCollection(c, t.collections[c], t.rows[c]);
    assert SoundCollection(c, t.collections[c], t1.rows[c]);
    hide SoundCollection;
    IdemStays(t, t1, c);
    RowsReplaced(t, t1, c, t1.rows[c]);
  }

  lemma IdemStays(t: Tables, t1: Tables, c: string)
    requires Indexed(t) && c in t.collections && forall k :: k in t1.idem ==> k in t.idem || k.0 == c
    ensures forall k :: k in t1.idem ==> k.0 in t.collections
  {
  }

  lemma DeleteShape(t: Tables, p: Record)
    requires DeleteRecord(t, p).Ok?
    ensures var t1 := DeleteRecord(t, p).value; var c := p.collection;
      && c in t.rows && t1.collections == t.collections && t1.names == t.names
      && t1.rows == t.rows[c := t.rows[c] - {p.id}] && forall k :: k in t1.idem ==> k in t.idem
  {
    if p.id !in t.rows[p.collection] {
      assert t.rows[p.collection] - {p.id} == t.rows[p.collection];
      assert t.rows[p.collection := t.rows[p.collection]] == t.rows;
    }
  }

  lemma FewerRowsSound(id: string, c: Collection, table: Table, r: string)
    requires SoundCollection(id, c, table)
    ensures SoundCollection(id, c, table - {r})
  {
  }

  lemma DeleteKeepsStored(t: Tables, p: Record)
    requires Stored(t) && DeleteRecord(t, p).Ok?
    ensures Stored(DeleteRecord(t, p).value)
  {
    hide DeleteRecord, SoundCollection, Stored, Indexed;
    var c := p.collection;
    DeleteShape(t, p);
    StoredParts(t);
    RowsOfCollections(t);
    FewerRowsSound(c, t.collections[c], t.rows[c], p.id);
    IdemStays(t, DeleteRecord(t, p).value, c);
    RowsReplaced(t, DeleteRecord(t, p).value, c, t.rows[c] - {p.id});
  }

  lemma RowsOfCollections(t: Tables)
    requires Indexed(t)
    ensures t.rows.Keys == t.collections.Keys
  {
  }

  lemma StorageFollows(t: Tables, t1: Tables)
    requires Stored(t) && SameStorage(t, t1)
    ensures Stored(t1)
  {
  }

  // ----- consequences -----

  predicate Written(c: Option<string>) { c != Some("") }

  /** The columns of the consequence tables: keys never repeat, text columns hold NULL or text. */
  predicate EventsTidy(events: seq<Event>) {
    && (forall i, j :: 0 <= i < j < |events| ==> events[i].sequence != events[j].sequence && events[i].key != events[j].key)
    && (forall i :: 0 <= i < |events| ==>
          events[i].key.Some? && Written(events[i].key) && Written(events[i].collection) && Written(events[i].record))
  }

  predicate AuditTidy(facts: seq<AuditFact>) {
    && (forall i, j :: 0 <= i < j < |facts| ==> facts[i].id != facts[j].id && facts[i].key != facts[j].key)
    && (forall i :: 0 <= i < |facts| ==>
          && facts[i].key.Some? && Written(facts[i].key) && Written(facts[i].actor)
          && Written(facts[i].target) && Written(facts[i].request))
  }

  predicate JobsTidy(jobs: JobTable) {
    forall i :: i in jobs ==> jobs[i].key.Some? && Written(jobs[i].key) && i == Sha(jobs[i].key.value)
  }

  predicate Tidy(t: Tables) {
    EventsTidy(t.events) && AuditTidy(t.audit) && JobsTidy(t.jobs)
  }

  lemma {:induction false} MaxBounds(events: seq<Event>)
    ensures forall i :: 0 <= i < |events| ==> events[i].sequence <= MaxSequence(events)
  {
    if |events| > 0 {
      var rest := events[..|events| - 1];
      MaxBounds(rest);
      forall i | 0 <= i < |events|
        ensures events[i].sequence <= MaxSequence(events)
      {
        if i < |rest| { assert events[i] == rest[i]; }
      }
    }
  }

  lemma {:induction false} MaxAuditBounds(facts: seq<AuditFact>)
    ensures forall i :: 0 <= i < |facts| ==> facts[i].id <= MaxAuditId(facts)
  {
    if |facts| > 0 {
      var rest := facts[..|facts| - 1];
      MaxAuditBounds(rest);
      forall i | 0 <= i < |facts|
        ensures facts[i].id <= MaxAuditId(facts)
      {
        if i < |rest| { assert facts[i] == rest[i]; }
      }
    }
  }

  lemma EmitEventKeepsTidy(events: seq<Event>, e: Event)
    requires EventsTidy(events) && e.key.Some? && Written(e.key) && Written(e.collection) && Written(e.record)
    ensures EventsTidy(EmitEvent(events, e))
  {
    MaxBounds(events);
    hide MaxSequence;
  }

  lemma EmitAuditKeepsTidy(facts: seq<AuditFact>, a: AuditFact)
    requires AuditTidy(facts) && a.key.Some? && Written(a.key) && Written(a.actor) && Written(a.target) && Written(a.request)
    ensures AuditTidy(EmitAudit(facts, a))
  {
    MaxAuditBounds(facts);
    hide MaxAuditId;
  }

  lemma EnqueueKeepsTidy(jobs: JobTable, n: Notice, targets: set<string>)
    requires JobsTidy(jobs) && EnqueueTargets(jobs, n, targets).Ok?
    ensures JobsTidy(EnqueueTargets(jobs, n, targets).value)
  {
  }

  lemma EmitKeepsTidy(t: Tables, p: Record, op: string, ordinal: Option<nat>)
    requires Tidy(t) && Emit(t, p, op, ordinal).Ok?
    ensures Tidy(Emit(t, p, op, ordinal).value) && SameStorage(t, Emit(t, p, op, ordinal).value)
  {
    hide EventsTidy, AuditTidy, JobsTidy, EmitEvent, EmitAudit, EnqueueTargets, JobBase, ContainsTopic;
    if p.topic != "" {
      var name, base := t.collections[p.collection].name, JobBase(op, ordinal);
      KeysAreText(op, "event", ordinal);
      KeysAreText(op, "audit", ordinal);
      EmitEventKeepsTidy(t.events, EventOf(p, name, op, ordinal));
      if p.auditAction != "" { EmitAuditKeepsTidy(t.audit, AuditOf(p, op, ordinal)); }
      EnqueueKeepsTidy(t.jobs, WebhookNotice(p, name, base), MatchingWebhooks(t, p.topic));
      var hooked := EnqueueTargets(t.jobs, WebhookNotice(p, name, base), MatchingWebhooks(t, p.topic)).value;
      EnqueueKeepsTidy(hooked, FunctionNotice(p, name, base), MatchingFunctions(t, p.topic));
    }
  }

  lemma KeysAreText(op: string, kind: string, ordinal: Option<nat>)
    ensures SeqKey(op, kind, ordinal) != ""
  {
  }

  // ----- every operation -----

  predicate Consistent(t: Tables) { Stored(t) && Tidy(t) }

  lemma {:induction false} BatchKeepsConsistent(t: Tables, ps: seq<Record>, op: string, n: nat)
    requires Consistent(t) && n <= |ps| && ApplyBatch(t, ps, op, n).Ok?
    ensures Consistent(ApplyBatch(t, ps, op, n).value)
  {
    hide Stored, Tidy, PutRecord, Emit;
    if n > 0 {
      BatchOk(t, ps, op, n - 1);
      BatchKeepsConsistent(t, ps, op, n - 1);
      hide ApplyBatch;
      PutKeepsConsistent(ApplyBatch(t, ps, op, n - 1).value, ps[n - 1], op, Some(n - 1));
    }
  }

  lemma PutKeepsConsistent(t: Tables, p: Record, op: string, ordinal: Option<nat>)
    requires Consistent(t)
    ensures PutRecord(t, p).Ok? && Emit(PutRecord(t, p).value, p, op, ordinal).Ok? ==>
      Consistent(Emit(PutRecord(t, p).value, p, op, ordinal).value)
    ensures DeleteRecord(t, p).Ok? && Emit(DeleteRecord(t, p).value, p, op, ordinal).Ok? ==>
      Consistent(Emit(DeleteRecord(t, p).value, p, op, ordinal).value)
  {
    RecordsKeepStored(t, p);
    RecordsLeaveJournals(t, p);
    hide PutRecord, DeleteRecord, Emit, Stored, EventsTidy, AuditTidy, JobsTidy;
    if PutRecord(t, p).Ok? && Emit(PutRecord(t, p).value, p, op, ordinal).Ok? {
      EmitKeepsTidy(PutRecord(t, p).value, p, op, ordinal);
      StorageFollows(PutRecord(t, p).value, Emit(PutRecord(t, p).value, p, op, ordinal).value);
    }
    if DeleteRecord(t, p).Ok? && Emit(DeleteRecord(t, p).value, p, op, ordinal).Ok? {
      EmitKeepsTidy(DeleteRecord(t, p).value, p, op, ordinal);
      StorageFollows(DeleteRecord(t, p).value, Emit(DeleteRecord(t, p).value, p, op, ordinal).value);
    }
  }

  lemma AutomationLeavesStorage(t: Tables, c: Command)
    requires !OnJobs(c) && !OnRecords(c) && !c.CollectionPut? && !c.CollectionDelete? && Define(t, c).Ok?
    ensures SameStorage(t, Define(t, c).value)
  {
    hide ApplyCollection, DeleteCollection, PutWebhook, PutFunction;
    if c.WebhookPut? { WebhookLeavesStorage(t, c.id, c.webhook); }
    if c.FunctionPut? { FunctionLeavesStorage(t, c.id, c.function_); }
  }

  lemma WebhookLeavesStorage(t: Tables, id: string, w: Webhook)
    ensures PutWebhook(t, id, w).Ok? ==> SameStorage(t, PutWebhook(t, id, w).value)
  {
    var r := PutWebhook(t, id, w);
    assert r.Ok? ==> r.value == t.(webhooks := r.value.webhooks);
  }

  lemma FunctionLeavesStorage(t: Tables, id: string, f: Function)
    ensures PutFunction(t, id, f).Ok? ==> SameStorage(t, PutFunction(t, id, f).value)
  {
    var r := PutFunction(t, id, f);
    assert r.Ok? ==> r.value == t.(functions := r.value.functions);
  }

  lemma DefinitionsKeepConsistent(t: Tables, c: Command)
    requires Consistent(t) && !OnJobs(c) && !OnRecords(c) && Define(t, c).Ok?
    ensures Consistent(Define(t, c).value)
  {
    hide Stored, ApplyCollection, DeleteCollection, PutWebhook, PutFunction, EventsTidy, AuditTidy, JobsTidy;
    DefinitionsLeaveJournals(t, c);
    if c.CollectionPut? {
      CollectionPutKeepsStored(t, c.definition);
    } else if c.CollectionDelete? {
      CollectionDeleteKeepsStored(t, c.name);
    } else {
      AutomationLeavesStorage(t, c);
      StorageFollows(t, Define(t, c).value);
    }
  }

  lemma TransitKeepsTidy(jobs: JobTable, c: Command, now: Time)
    requires JobsTidy(jobs) && OnJobs(c) && TransitJobs(jobs, c, now).Ok?
    ensures JobsTidy(TransitJobs(jobs, c, now).value)
  {
  }

  /** Every accepted operation keeps the tables consistent. */
  lemma OperationKeepsConsistent(t: Tables, op: Operation)
    requires Consistent(t) && Materialize(t, op).Ok?
    ensures Consistent(Materialize(t, op).value)
  {
    hide Stored, EventsTidy, AuditTidy, JobsTidy, PutRecord, DeleteRecord, Emit, ApplyBatch, TransitJobs, Define;
    if OnRecords(op.command) {
      match op.command
      case RecordPut(p) => PutKeepsConsistent(t, p, op.id, None);
      case RecordDelete(p) => PutKeepsConsistent(t, p, op.id, None);
      case RecordBatchPut(ps) => BatchKeepsConsistent(t, ps, op.id, |ps|);
    } else if OnJobs(op.command) {
      TransitKeepsTidy(t.jobs, op.command, op.now);
      StorageFollows(t, Materialize(t, op).value);
    } else {
      DefinitionsKeepConsistent(t, op.command);
    }
  }

  /** The tables of the undisturbed replica are consistent after any log. */
  lemma {:induction false} CanonConsistent(log: Log, n: nat)
    requires Ordered(log) && n <= |log|
    ensures Consistent(Canon(log, n).db.tables)
  {
    hide Materialize, Stored, Tidy;
    if n == 0 {
      EmptyConsistent();
    } else {
      CanonConsistent(log, n - 1);
      if AcceptedAt(log, n - 1) {
        CanonFacts(log, n - 1);
        OperationKeepsConsistent(Canon(log, n - 1).db.tables, log[n - 1].body.op);
      } else {
        NotAcceptedIsNoop(log, n - 1);
      }
    }
  }

  lemma EmptyConsistent()
    ensures Consistent(EMPTY)
  {
  }
}
