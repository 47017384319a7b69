/** Exactly-once consequences over whole logs (internal/replicated/fsm.go, emitRecordConsequences,
    emitEvent, emitAudit and enqueueJobs). */
module Consequences {
  import opened Base
  import opened Physical
  import opened Jobs
  import opened Tables
  import opened Keys
  import opened Fsm
  import opened Runs

  // ----- what an operation owes -----

  /** A record payload with the ordinal its consequences are filed under. */
  datatype Due = Due(p: Record, ordinal: Option<nat>)

  function Payloads(op: Operation): seq<Due> {
    match op.command
    case RecordPut(p) => [Due(p, None)]
    case RecordDelete(p) => [Due(p, None)]
    case RecordBatchPut(ps) => seq(|ps|, i requires 0 <= i < |ps| => Due(ps[i], Some(i)))
    case _ => []
  }

  function NameOf(t: Tables, collection: string): string {
    if collection in t.collections then t.collections[collection].name else ""
  }

  /** One event for each of the first n payloads that names a topic. */
  function EventsDue(t: Tables, op: string, dues: seq<Due>, n: nat): seq<Event>
    requires n <= |dues|
  {
    if n == 0 then []
    else
      var d := dues[n - 1];
      EventsDue(t, op, dues, n - 1)
      + (if d.p.topic == "" then [] else [EventOf(d.p, NameOf(t, d.p.collection), op, d.ordinal)])
  }

  /** One audit fact for each of them that also names an action. */
  function AuditDue(op: string, dues: seq<Due>, n: nat): seq<AuditFact>
    requires n <= |dues|
  {
    if n == 0 then []
    else
      var d := dues[n - 1];
      AuditDue(op, dues, n - 1)
      + (if d.p.topic == "" || d.p.auditAction == "" then [] else [AuditOf(d.p, op, d.ordinal)])
  }

  function Numbered(events: seq<Event>): seq<Event> {
    seq(|events|, i requires 0 <= i < |events| => events[i].(sequence := i + 1))
  }

  function NumberedAudit(facts: seq<AuditFact>): seq<AuditFact> {
    seq(|facts|, i requires 0 <= i < |facts| => facts[i].(id := i + 1))
  }

  /** Everything owed by the accepted entries among the first n, in log order. */
  function AllEvents(log: Log, n: nat): seq<Event>
    requires n <= |log|
  {
    if n == 0 then []
    else if !AcceptedAt(log, n - 1) then AllEvents(log, n - 1)
    else
      var op := log[n - 1].body.op;
      AllEvents(log, n - 1) + EventsDue(Canon(log, n - 1).db.tables, op.id, Payloads(op), |Payloads(op)|)
  }

  function AllAudit(log: Log, n: nat): seq<AuditFact>
    requires n <= |log|
  {
    if n == 0 then []
    else if !AcceptedAt(log, n - 1) then AllAudit(log, n - 1)
    else
      var op := log[n - 1].body.op;
      AllAudit(log, n - 1) + AuditDue(op.id, Payloads(op), |Payloads(op)|)
  }

  // ----- the emitted rows are the owed ones -----

  ghost predicate KeyIn(key: Option<string>, kind: string, ids: set<string>) {
    exists id, ordinal :: id in ids && key == Some(SeqKey(id, kind, ordinal))
  }

  /** Every event so far was filed under one of these operations. */
  ghost predicate EventsFrom(events: seq<Event>, ids: set<string>) {
    forall i :: 0 <= i < |events| ==> KeyIn(events[i].key, "event", ids)
  }

  ghost predicate AuditFrom(facts: seq<AuditFact>, ids: set<string>) {
    forall i :: 0 <= i < |facts| ==> KeyIn(facts[i].key, "audit", ids)
  }

  lemma {:induction false} MaxOfNumbered(events: seq<Event>)
    ensures MaxSequence(Numbered(events)) == |events|
  {
    if events != [] {
      MaxOfNumbered(events[..|events| - 1]);
      assert Numbered(events)[..|events| - 1] == Numbered(events[..|events| - 1]);
    }
  }

  lemma {:induction false} MaxOfNumberedAudit(facts: seq<AuditFact>)
    ensures MaxAuditId(NumberedAudit(facts)) == |facts|
  {
    if facts != [] {
      MaxOfNumberedAudit(facts[..|facts| - 1]);
      assert NumberedAudit(facts)[..|facts| - 1] == NumberedAudit(facts[..|facts| - 1]);
    }
  }

  /** An event with a new key is appended with the next sequence number. */
  lemma NewEventAppends(owed: seq<Event>, e: Event)
    requires forall i :: 0 <= i < |owed| ==> owed[i].key != e.key
    ensures EmitEvent(Numbered(owed), e) == Numbered(owed + [e])
  {
    MaxOfNumbered(owed);
    var events := Numbered(owed);
    assert forall i :: 0 <= i < |events| ==> events[i].key == owed[i].key;
  }

  lemma NewAuditAppends(owed: seq<AuditFact>, a: AuditFact)
    requires forall i :: 0 <= i < |owed| ==> owed[i].key != a.key
    ensures EmitAudit(NumberedAudit(owed), a) == NumberedAudit(owed + [a])
  {
    MaxOfNumberedAudit(owed);
    var facts := NumberedAudit(owed);
    assert forall i :: 0 <= i < |facts| ==> facts[i].key == owed[i].key;
  }

  /** A key filed under one of the first n ordinals of an operation. */
  ghost predicate DueKey(key: Option<string>, kind: string, op: string, dues: seq<Due>, n: nat)
    requires n <= |dues|
  {
    exists k :: 0 <= k < n && key == Some(SeqKey(op, kind, dues[k].ordinal))
  }

  lemma DueKeyGrows(key: Option<string>, kind: string, op: string, dues: seq<Due>, n: nat)
    requires n < |dues|
    ensures DueKey(key, kind, op, dues, n) ==> DueKey(key, kind, op, dues, n + 1)
    ensures key == Some(SeqKey(op, kind, dues[n].ordinal)) ==> DueKey(key, kind, op, dues, n + 1)
  {
  }

  lemma {:induction false} EventsDueKeys(t: Tables, op: string, dues: seq<Due>, n: nat)
    requires n <= |dues|
    ensures forall i :: 0 <= i < |EventsDue(t, op, dues, n)| ==> DueKey(EventsDue(t, op, dues, n)[i].key, "event", op, dues, n)
  {
    hide SeqKey, NameOf, DueKey;
    if n > 0 {
      EventsDueKeys(t, op, dues, n - 1);
      var less, owed := EventsDue(t, op, dues, n - 1), EventsDue(t, op, dues, n);
      forall i | 0 <= i < |owed|
        ensures DueKey(owed[i].key, "event", op, dues, n)
      {
        DueKeyGrows(owed[i].key, "event", op, dues, n - 1);
        if i < |less| { assert owed[i] == less[i]; }
      }
    }
  }

  lemma {:induction false} AuditDueKeys(op: string, dues: seq<Due>, n: nat)
    requires n <= |dues|
    ensures forall i :: 0 <= i < |AuditDue(op, dues, n)| ==> DueKey(AuditDue(op, dues, n)[i].key, "audit", op, dues, n)
  {
    hide SeqKey, DueKey;
    if n > 0 {
      AuditDueKeys(op, dues, n - 1);
      var less, owed := AuditDue(op, dues, n - 1), AuditDue(op, dues, n);
      forall i | 0 <= i < |owed|
        ensures DueKey(owed[i].key, "audit", op, dues, n)
      {
        DueKeyGrows(owed[i].key, "audit", op, dues, n - 1);
        if i < |less| { assert owed[i] == less[i]; }
      }
    }
  }

  predicate DistinctOrdinals(dues: seq<Due>) {
    forall i, j :: 0 <= i < j < |dues| ==> dues[i].ordinal != dues[j].ordinal
  }

  lemma PayloadsHaveDistinctOrdinals(op: Operation)
    ensures DistinctOrdinals(Payloads(op))
  {
  }

  /** The next owed event's key is new: no earlier operation and no earlier ordinal has it. */
  lemma NextEventIsNew(earlier: seq<Event>, ids: set<string>, t: Tables, op: string, dues: seq<Due>, n: nat)
    requires EventsFrom(earlier, ids) && op !in ids && n < |dues| && DistinctOrdinals(dues)
    ensures var owed := earlier + EventsDue(t, op, dues, n);
      forall i :: 0 <= i < |owed| ==> owed[i].key != Some(SeqKey(op, "event", dues[n].ordinal))
  {
    hide SeqKey;
    var owed := earlier + EventsDue(t, op, dues, n);
    EventsDueKeys(t, op, dues, n);
    forall i | 0 <= i < |owed|
      ensures owed[i].key != Some(SeqKey(op, "event", dues[n].ordinal))
    {
      if owed[i].key == Some(SeqKey(op, "event", dues[n].ordinal)) {
        if i < |earlier| {
          assert KeyIn(earlier[i].key, "event", ids);
          var id, ordinal :| id in ids && earlier[i].key == Some(SeqKey(id, "event", ordinal));
          SeqKeyInjective("event", id, ordinal, op, dues[n].ordinal);
        } else {
          assert DueKey(owed[i].key, "event", op, dues, n);
          var k :| 0 <= k < n && owed[i].key == Some(SeqKey(op, "event", dues[k].ordinal));
          SeqKeyInjective("event", op, dues[k].ordinal, op, dues[n].ordinal);
        }
      }
    }
  }

  lemma NextAuditIsNew(earlier: seq<AuditFact>, ids: set<string>, op: string, dues: seq<Due>, n: nat)
    requires AuditFrom(earlier, ids) && op !in ids && n < |dues| && DistinctOrdinals(dues)
    ensures var owed := earlier + AuditDue(op, dues, n);
      forall i :: 0 <= i < |owed| ==> owed[i].key != Some(SeqKey(op, "audit", dues[n].ordinal))
  {
    hide SeqKey;
    var owed := earlier + AuditDue(op, dues, n);
    AuditDueKeys(op, dues, n);
    forall i | 0 <= i < |owed|
      ensures owed[i].key != Some(SeqKey(op, "audit", dues[n].ordinal))
    {
      if owed[i].key == Some(SeqKey(op, "audit", dues[n].ordinal)) {
        if i < |earlier| {
          assert KeyIn(earlier[i].key, "audit", ids);
          var id, ordinal :| id in ids && earlier[i].key == Some(SeqKey(id, "audit", ordinal));
          SeqKeyInjective("audit", id, ordinal, op, dues[n].ordinal);
        } else {
          assert DueKey(owed[i].key, "audit", op, dues, n);
          var k :| 0 <= k < n && owed[i].key == Some(SeqKey(op, "audit", dues[k].ordinal));
          SeqKeyInjective("audit", op, dues[k].ordinal, op, dues[n].ordinal);
        }
      }
    }
  }

  /** The tables differ only in rows, idempotency, events, audit and jobs. */
  predicate SameDefinitions(t: Tables, t1: Tables) {
    t1.collections == t.collections && t1.webhooks == t.webhooks && t1.functions == t.functions
  }

  /** The journals after the first n payloads of an operation, from tables that hold `events` and
      `facts` so far. */
  predicate Emitted(t: Tables, t1: Tables, events: seq<Event>, facts: seq<AuditFact>, op: string, dues: seq<Due>, n: nat)
    requires n <= |dues|
  {
    && SameDefinitions(t, t1)
    && t1.events == Numbered(events + EventsDue(t, op, dues, n))
    && t1.audit == NumberedAudit(facts + AuditDue(op, dues, n))
  }

  /** Emitting the next payload's consequences writes what it owes. */
  lemma EmitWritesDue(
    t: Tables, before: Tables, events: seq<Event>, facts: seq<AuditFact>, ids: set<string>, op: string, dues: seq<Due>, n: nat)
    requires n < |dues| && DistinctOrdinals(dues) && op !in ids
    requires EventsFrom(events, ids) && AuditFrom(facts, ids)
    requires Emitted(t, before, events, facts, op, dues, n)
    requires Emit(before, dues[n].p, op, dues[n].ordinal).Ok?
    ensures Emitted(t, Emit(before, dues[n].p, op, dues[n].ordinal).value, events, facts, op, dues, n + 1)
  {
    hide SeqKey, EmitEvent, EmitAudit, EnqueueJobs;
    var d := dues[n];
    var owed, owedFacts := events + EventsDue(t, op, dues, n), facts + AuditDue(op, dues, n);
    if d.p.topic == "" {
      assert EventsDue(t, op, dues, n + 1) == EventsDue(t, op, dues, n);
      assert AuditDue(op, dues, n + 1) == AuditDue(op, dues, n);
    } else {
      var e := EventOf(d.p, NameOf(t, d.p.collection), op, d.ordinal);
      NextEventIsNew(events, ids, t, op, dues, n);
      assert owed == events + EventsDue(t, op, dues, n);
      assert e.key == Some(SeqKey(op, "event", d.ordinal));
      NewEventAppends(owed, e);
      assert owed + [e] == events + EventsDue(t, op, dues, n + 1);
      if d.p.auditAction == "" {
        assert AuditDue(op, dues, n + 1) == AuditDue(op, dues, n);
      } else {
        var a := AuditOf(d.p, op, d.ordinal);
        NextAuditIsNew(facts, ids, op, dues, n);
        assert a.key == Some(SeqKey(op, "audit", d.ordinal));
        NewAuditAppends(owedFacts, a);
        assert owedFacts + [a] == facts + AuditDue(op, dues, n + 1);
      }
    }
  }

  /** Putting or deleting the record touches neither journals, jobs nor definitions. */
  lemma RecordsLeaveJournals(t: Tables, p: Record)
    ensures PutRecord(t, p).Ok? ==> var t1 := PutRecord(t, p).value;
      SameDefinitions(t, t1) && t1.events == t.events && t1.audit == t.audit && t1.jobs == t.jobs
    ensures DeleteRecord(t, p).Ok? ==> var t1 := DeleteRecord(t, p).value;
      SameDefinitions(t, t1) && t1.events == t.events && t1.audit == t.audit && t1.jobs == t.jobs
  {
    hide TableFits, Cells;
  }

  /** A journal state: what has been owed so far, and under which operations. */
  datatype Journal = Journal(events: seq<Event>, facts: seq<AuditFact>, ids: set<string>)

  ghost predicate Keeps(t: Tables, j: Journal) {
    && t.events == Numbered(j.events) && t.audit == NumberedAudit(j.facts)
    && EventsFrom(j.events, j.ids) && AuditFrom(j.facts, j.ids)
  }

  lemma BatchOk(t: Tables, ps: seq<Record>, op: string, n: nat)
    requires n < |ps| && ApplyBatch(t, ps, op, n + 1).Ok?
    ensures ApplyBatch(t, ps, op, n).Ok?
    ensures var mid := PutRecord(ApplyBatch(t, ps, op, n).value, ps[n]);
      mid.Ok? && ApplyBatch(t, ps, op, n + 1) == Emit(mid.value, ps[n], op, Some(n))
  {
    hide PutRecord, Emit;
  }

  lemma NothingEmitted(t: Tables, j: Journal, op: Operation)
    requires op.command.RecordBatchPut? && Keeps(t, j)
    ensures ApplyBatch(t, op.command.records, op.id, 0) == Ok(t)
    ensures Emitted(t, t, j.events, j.facts, op.id, Payloads(op), 0)
  {
  }

  lemma {:induction false} BatchEmits(t: Tables, j: Journal, op: Operation, n: nat)
    requires op.command.RecordBatchPut? && n <= |op.command.records| && op.id !in j.ids && Keeps(t, j)
    requires ApplyBatch(t, op.command.records, op.id, n).Ok?
    ensures Emitted(t, ApplyBatch(t, op.command.records, op.id, n).value, j.events, j.facts, op.id, Payloads(op), n)
  {
    hide ApplyBatch, PutRecord, Emit, EventsDue, AuditDue, EventsFrom, AuditFrom, Numbered, NumberedAudit, ApplyRecordPut;
    var ps, dues := op.command.records, Payloads(op);
    if n == 0 {
      NothingEmitted(t, j, op);
    } else {
      BatchOk(t, ps, op.id, n - 1);
      BatchEmits(t, j, op, n - 1);
      var before := ApplyBatch(t, ps, op.id, n - 1).value;
      RecordsLeaveJournals(before, ps[n - 1]);
      PayloadsHaveDistinctOrdinals(op);
      EmitWritesDue(t, PutRecord(before, ps[n - 1]).value, j.events, j.facts, j.ids, op.id, dues, n - 1);
    }
  }

  lemma SingleEmits(t: Tables, j: Journal, op: Operation, after: Tables)
    requires |Payloads(op)| == 1 && op.id !in j.ids && Keeps(t, j)
    requires SameDefinitions(t, after) && after.events == t.events && after.audit == t.audit
    requires Emit(after, Payloads(op)[0].p, op.id, Payloads(op)[0].ordinal).Ok?
    ensures var t1 := Emit(after, Payloads(op)[0].p, op.id, Payloads(op)[0].ordinal).value;
      Emitted(t, t1, j.events, j.facts, op.id, Payloads(op), 1)
  {
    hide Emit, EventsFrom, AuditFrom;
    assert j.events + [] == j.events && j.facts + [] == j.facts;
    EmitWritesDue(t, after, j.events, j.facts, j.ids, op.id, Payloads(op), 0);
  }

  lemma CollectionsLeaveConsequences(t: Tables, d: Definition, name: string)
    ensures ApplyCollection(t, d).Ok? ==> var t1 := ApplyCollection(t, d).value;
      t1.events == t.events && t1.audit == t.audit && t1.jobs == t.jobs && t1.webhooks == t.webhooks && t1.functions == t.functions
    ensures var t1 := DeleteCollection(t, name);
      t1.events == t.events && t1.audit == t.audit && t1.jobs == t.jobs && t1.webhooks == t.webhooks && t1.functions == t.functions
  {
  }

  predicate SameJournals(t: Tables, t1: Tables) {
    t1.events == t.events && t1.audit == t.audit
  }

  /** Definitions leave journals and jobs alone. */
  lemma DefinitionsLeaveJournals(t: Tables, c: Command)
    requires !OnJobs(c) && !OnRecords(c) && Define(t, c).Ok?
    ensures SameJournals(t, Define(t, c).value) && Define(t, c).value.jobs == t.jobs
  {
  }

  /** Operations that carry no record payload leave the journals alone. */
  lemma OthersLeaveJournals(t: Tables, op: Operation)
    requires !OnRecords(op.command) && Materialize(t, op).Ok?
    ensures SameJournals(t, Materialize(t, op).value)
  {
    hide Define, TransitJobs;
    if !OnJobs(op.command) { DefinitionsLeaveJournals(t, op.command); }
  }

  /** An accepted operation writes exactly the journal rows it owes. */
  lemma OperationEmits(t: Tables, j: Journal, op: Operation)
    requires op.id !in j.ids && Keeps(t, j) && Materialize(t, op).Ok?
    ensures var t1, dues := Materialize(t, op).value, Payloads(op);
      && t1.events == Numbered(j.events + EventsDue(t, op.id, dues, |dues|))
      && t1.audit == NumberedAudit(j.facts + AuditDue(op.id, dues, |dues|))
  {
    if !OnRecords(op.command) {
      OthersLeaveJournals(t, op);
      assert Payloads(op) == [];
      NothingDue(t, op);
      hide Materialize, Payloads, EventsFrom, AuditFrom;
      assert j.events + [] == j.events && j.facts + [] == j.facts;
    } else {
      hide PutRecord, DeleteRecord, Emit, ApplyBatch, EventsDue, AuditDue, EventsFrom, AuditFrom, Numbered, NumberedAudit;
      match op.command
      case RecordPut(p) =>
        RecordsLeaveJournals(t, p);
        SingleEmits(t, j, op, PutRecord(t, p).value);
      case RecordDelete(p) =>
        RecordsLeaveJournals(t, p);
        SingleEmits(t, j, op, DeleteRecord(t, p).value);
      case RecordBatchPut(ps) =>
        BatchEmits(t, j, op, |ps|);
    }
  }

  lemma NothingDue(t: Tables, op: Operation)
    requires Payloads(op) == []
    ensures EventsDue(t, op.id, Payloads(op), 0) == [] && AuditDue(op.id, Payloads(op), 0) == []
  {
  }

  lemma DueJoinsJournal(t: Tables, j: Journal, op: Operation)
    requires EventsFrom(j.events, j.ids) && AuditFrom(j.facts, j.ids)
    ensures var dues := Payloads(op);
      && EventsFrom(j.events + EventsDue(t, op.id, dues, |dues|), j.ids + {op.id})
      && AuditFrom(j.facts + AuditDue(op.id, dues, |dues|), j.ids + {op.id})
  {
    hide SeqKey, EventsDue, AuditDue;
    var dues := Payloads(op);
    EventsDueKeys(t, op.id, dues, |dues|);
    AuditDueKeys(op.id, dues, |dues|);
  }

  ghost function JournalOf(log: Log, n: nat): Journal
    requires n <= |log|
  {
    Journal(AllEvents(log, n), AllAudit(log, n), Canon(log, n).db.ops.Keys)
  }

  lemma JournalGrows(log: Log, n: nat)
    requires Ordered(log) && n < |log| && Keeps(Canon(log, n).db.tables, JournalOf(log, n)) && AcceptedAt(log, n)
    ensures Keeps(Canon(log, n + 1).db.tables, JournalOf(log, n + 1))
  {
    CanonFacts(log, n);
    var t, j, op := Canon(log, n).db.tables, JournalOf(log, n), log[n].body.op;
    assert Canon(log, n + 1).db == Durable(Materialize(t, op).value, log[n].index, log[n].term, Canon(log, n).db.ops[op.id := op.digest]);
    assert j.ids + {op.id} == JournalOf(log, n + 1).ids;
    hide Materialize, EventsDue, AuditDue, Payloads, Canon, AcceptedAt;
    OperationEmits(t, j, op);
    DueJoinsJournal(t, j, op);
  }

  lemma JournalUnmoved(log: Log, n: nat)
    requires Ordered(log) && n < |log| && Keeps(Canon(log, n).db.tables, JournalOf(log, n)) && !AcceptedAt(log, n)
    ensures Keeps(Canon(log, n + 1).db.tables, JournalOf(log, n + 1))
  {
  }

  lemma JournalStarts(log: Log)
    ensures Keeps(Canon(log, 0).db.tables, JournalOf(log, 0))
  {
  }

  lemma {:induction false} JournalLaw(log: Log, n: nat)
    requires Ordered(log) && n <= |log|
    ensures Keeps(Canon(log, n).db.tables, JournalOf(log, n))
  {
    hide *;
    if n == 0 {
      JournalStarts(log);
    } else {
      JournalLaw(log, n - 1);
      if AcceptedAt(log, n - 1) { JournalGrows(log, n - 1); } else { JournalUnmoved(log, n - 1); }
    }
  }

  /** Exactly-once consequences: after any log the event journal is one event per accepted payload with a
      topic, in log order, and the audit journal one fact per such payload with an audit action; the
      sequences are 1, 2, 3, … No insert was dropped by a dedup key. */
  lemma ExactlyOnceJournals(log: Log, n: nat)
    requires Ordered(log) && n <= |log|
    ensures Canon(log, n).db.tables.events == Numbered(AllEvents(log, n))
    ensures Canon(log, n).db.tables.audit == NumberedAudit(AllAudit(log, n))
    ensures forall i :: 0 <= i < |Canon(log, n).db.tables.events| ==> Canon(log, n).db.tables.events[i].sequence == i + 1
  {
    JournalLaw(log, n);
  }
}
