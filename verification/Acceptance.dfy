/** Which record operations a replica accepts: their consequences never refuse them (internal/replicated/fsm.go,
    applyRecordPut, applyRecordDelete and the batch loop of materialize). */
module Acceptance {
  import opened Base
  import opened Physical
  import opened Jobs
  import opened Tables
  import opened Fsm
  import opened Runs
  import opened Consequences
  import opened JobConsequences
  import opened Invariants
  import opened RecordContents

  /** The first n puts of a batch, without their consequences. */
  function PutAll(t: Tables, ps: seq<Record>, n: nat): Result<Tables>
    requires n <= |ps|
  {
    if n == 0 then Ok(t)
    else
      var t1 :- PutAll(t, ps, n - 1);
      PutRecord(t1, ps[n - 1])
  }

  /** What the operation does to the records, without consequences. */
  function RecordsAlone(t: Tables, command: Command): Result<Tables>
    requires OnRecords(command)
  {
    match command
    case RecordPut(p) => PutRecord(t, p)
    case RecordDelete(p) => DeleteRecord(t, p)
    case RecordBatchPut(ps) => PutAll(t, ps, |ps|)
  }

  /** Both fail for the same reason, or both succeed with the same records. */
  predicate Alike(a: Result<Tables>, b: Result<Tables>) {
    if a.Err? || b.Err? then a == b else SameStorage(a.value, b.value)
  }

  /** The same storage, whatever the journals, jobs and definitions of targets. */
  function Over(t: Tables, u: Tables): Tables {
    u.(collections := t.collections, names := t.names, rows := t.rows, idem := t.idem)
  }

  lemma PutOver(t: Tables, u: Tables, p: Record)
    ensures var r, s := PutRecord(t, p), PutRecord(Over(t, u), p); r.Ok? ==> s == Ok(Over(r.value, u))
    ensures PutRecord(t, p).Err? ==> PutRecord(Over(t, u), p) == PutRecord(t, p)
  {
    hide TableFits, Cells, Encode;
  }

  lemma PutAlike(t: Tables, u: Tables, p: Record)
    requires SameStorage(t, u)
    ensures Alike(PutRecord(t, p), PutRecord(u, p))
  {
    hide PutRecord;
    assert u == Over(t, u);
    PutOver(t, u, p);
  }

  lemma PutNeedsCollection(t: Tables, p: Record)
    requires PutRecord(t, p).Ok?
    ensures p.collection in PutRecord(t, p).value.collections
  {
    hide TableFits, Cells;
  }

  /** With its keys free a payload's consequences are written. */
  lemma EmitSucceeds(t: Tables, before: Tables, due: set<JobDue>, op: string, dues: seq<Due>, n: nat)
    requires n < |dues| && SameDefinitions(t, before) && DistinctKeys(due + JobsDue(t, op, dues, n + 1))
    requires Owes(before.jobs, due + JobsDue(t, op, dues, n))
    requires dues[n].p.collection in before.collections
    ensures Emit(before, dues[n].p, op, dues[n].ordinal).Ok?
  {
    hide EmitEvent, EmitAudit, Owes, ContainsTopic, JobOf, JobKey, JobBase, EnqueueTargets, DueOf, DistinctKeys;
    var d := dues[n];
    if d.p.topic != "" {
      var owed := due + JobsDue(t, op, dues, n);
      var name, base := NameOf(t, d.p.collection), JobBase(op, d.ordinal);
      var hooks, lambdas := WebhookNotice(d.p, name, base), FunctionNotice(d.p, name, base);
      var hookIds, lambdaIds := MatchingWebhooks(t, d.p.topic), MatchingFunctions(t, d.p.topic);
      var hooked := owed + DueOf(hooks, hookIds);
      assert hooked + DueOf(lambdas, lambdaIds) == due + JobsDue(t, op, dues, n + 1);
      FewerKeys(hooked, due + JobsDue(t, op, dues, n + 1));
      EnqueueAddsDue(before.jobs, owed, hooks, hookIds);
      EnqueueAddsDue(EnqueueTargets(before.jobs, hooks, hookIds).value, hooked, lambdas, lambdaIds);
    }
  }

  lemma {:induction false} JobsDueGrow(t: Tables, op: string, dues: seq<Due>, m: nat, n: nat)
    requires m <= n <= |dues|
    ensures JobsDue(t, op, dues, m) <= JobsDue(t, op, dues, n)
  {
    hide JobsDueFor;
    if m < n { JobsDueGrow(t, op, dues, m, n - 1); }
  }

  lemma {:induction false} BatchAlike(t: Tables, due: set<JobDue>, op: Operation, n: nat)
    requires op.command.RecordBatchPut? && n <= |op.command.records| && Owes(t.jobs, due)
    requires DistinctKeys(due + JobsDue(t, op.id, Payloads(op), |Payloads(op)|))
    ensures Alike(ApplyBatch(t, op.command.records, op.id, n), PutAll(t, op.command.records, n))
  {
    hide Owes, PutRecord, Emit, JobsDueFor, DistinctKeys, JobsDue;
    var ps, dues := op.command.records, Payloads(op);
    if n > 0 {
      BatchAlike(t, due, op, n - 1);
      if ApplyBatch(t, ps, op.id, n - 1).Ok? {
        var before, alone := ApplyBatch(t, ps, op.id, n - 1).value, PutAll(t, ps, n - 1).value;
        PutAlike(before, alone, ps[n - 1]);
        if PutRecord(before, ps[n - 1]).Ok? { NextEmits(t, due, op, n); }
      }
    }
  }

  lemma NextEmits(t: Tables, due: set<JobDue>, op: Operation, n: nat)
    requires op.command.RecordBatchPut? && 0 < n <= |op.command.records| && Owes(t.jobs, due)
    requires DistinctKeys(due + JobsDue(t, op.id, Payloads(op), |Payloads(op)|))
    requires ApplyBatch(t, op.command.records, op.id, n - 1).Ok?
    requires PutRecord(ApplyBatch(t, op.command.records, op.id, n - 1).value, op.command.records[n - 1]).Ok?
    ensures var mid := PutRecord(ApplyBatch(t, op.command.records, op.id, n - 1).value, op.command.records[n - 1]).value;
      Emit(mid, op.command.records[n - 1], op.id, Some(n - 1)).Ok? && SameStorage(mid, Emit(mid, op.command.records[n - 1], op.id, Some(n - 1)).value)
  {
    hide Owes, PutRecord, Emit, ApplyBatch, JobsDueFor, DistinctKeys, JobsDue;
    var ps, dues := op.command.records, Payloads(op);
    var before := ApplyBatch(t, ps, op.id, n - 1).value;
    var mid := PutRecord(before, ps[n - 1]).value;
    JobsDueGrow(t, op.id, dues, n - 1, |dues|);
    JobsDueGrow(t, op.id, dues, n, |dues|);
    FewerKeys(due + JobsDue(t, op.id, dues, n - 1), due + JobsDue(t, op.id, dues, |dues|));
    FewerKeys(due + JobsDue(t, op.id, dues, n), due + JobsDue(t, op.id, dues, |dues|));
    BatchAddsJobs(t, due, op, n - 1);
    RecordsLeaveJournals(before, ps[n - 1]);
    PutNeedsCollection(before, ps[n - 1]);
    EmitSucceeds(t, mid, due, op.id, dues, n - 1);
    EmitKeepsStorage(mid, ps[n - 1], op.id, Some(n - 1));
  }

  lemma SingleAlike(t: Tables, due: set<JobDue>, op: Operation, after: Tables)
    requires |Payloads(op)| == 1 && Owes(t.jobs, due) && DistinctKeys(due + JobsDue(t, op.id, Payloads(op), 1))
    requires SameDefinitions(t, after) && after.jobs == t.jobs && Payloads(op)[0].p.collection in after.collections
    ensures var r := Emit(after, Payloads(op)[0].p, op.id, Payloads(op)[0].ordinal); r.Ok? && SameStorage(after, r.value)
  {
    hide Owes, Emit, DistinctKeys, JobsDueFor;
    assert due + {} == due;
    EmitSucceeds(t, after, due, op.id, Payloads(op), 0);
    EmitKeepsStorage(after, Payloads(op)[0].p, op.id, Payloads(op)[0].ordinal);
  }

  lemma DeleteNeedsCollection(t: Tables, p: Record)
    requires Stored(t) && DeleteRecord(t, p).Ok?
    ensures p.collection in DeleteRecord(t, p).value.collections
  {
    hide Sound, Apart;
  }

  /** A record operation fails exactly when its change of the records does, and for the same reason; its
      consequences are always written. */
  lemma OperationAlike(t: Tables, due: set<JobDue>, op: Operation)
    requires Stored(t) && OnRecords(op.command) && Owes(t.jobs, due)
    requires DistinctKeys(due + JobsDue(t, op.id, Payloads(op), |Payloads(op)|))
    ensures Alike(Materialize(t, op), RecordsAlone(t, op.command))
  {
    hide PutRecord, DeleteRecord, Emit, ApplyBatch, PutAll, Owes, DistinctKeys, Stored, JobsDue;
    match op.command
    case RecordPut(p) =>
      if PutRecord(t, p).Ok? {
        RecordsLeaveJournals(t, p);
        PutNeedsCollection(t, p);
        SingleAlike(t, due, op, PutRecord(t, p).value);
      }
    case RecordDelete(p) =>
      if DeleteRecord(t, p).Ok? {
        RecordsLeaveJournals(t, p);
        DeleteNeedsCollection(t, p);
        SingleAlike(t, due, op, DeleteRecord(t, p).value);
      }
    case RecordBatchPut(ps) => BatchAlike(t, due, op, |ps|);
  }

  /** When target IDs are apart, a record entry that reaches its transaction is accepted exactly when its puts,
      one after the other, or its delete are, and otherwise fails as they do: events, audit facts and jobs never
      stand in its way. */
  lemma RecordsAcceptedExactly(log: Log, n: nat)
    requires Ordered(log) && n < |log| && DefinesApart(log) && ReachesAt(log, n) && OnRecords(log[n].body.op.command)
    ensures Alike(OutcomeAt(log, n), RecordsAlone(Canon(log, n).db.tables, log[n].body.op.command))
  {
    var t, op := Canon(log, n).db.tables, log[n].body.op;
    CanonFacts(log, n);
    CanonConsistent(log, n);
    ConsistentStores(t);
    hide Canon, Materialize, RecordsAlone, Owes, DistinctKeys, JobsDue, Payloads, AllJobs, DefinesApart, Consistent, DueFrom, TargetsApart;
    ExactlyOnceJobs(log, n);
    ApartKeysAreDistinct(log, n);
    TargetsStayApart(log, n);
    PayloadsHaveDistinctOrdinals(op);
    DuesAreDistinct(AllJobs(log, n), Canon(log, n).db.ops.Keys, t, op.id, Payloads(op), |Payloads(op)|);
    OperationAlike(t, AllJobs(log, n), op);
  }

  lemma ConsistentStores(t: Tables)
    requires Consistent(t)
    ensures Stored(t)
  {
  }
}
