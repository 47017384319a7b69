/** The version law of records over whole logs (internal/replicated/fsm.go, putRecord and
    deleteRecord): optimistic updates neither lose nor repeat a version. */
module Versions {
  import opened Base
  import opened Physical
  import opened Jobs
  import opened Tables
  import opened Consequences
  import opened Fsm
  import opened Runs
  import opened Invariants

  /** The current version of a record, zero when it is absent. */
  function Version(t: Tables, c: string, r: string): int {
    if c in t.rows && r in t.rows[c] then t.rows[c][r].version else 0
  }

  /** The versions an operation's first n payloads put under one record, in order. */
  function PutsUnder(ps: seq<Record>, n: nat, c: string, r: string): seq<int>
    requires n <= |ps|
  {
    if n == 0 then []
    else PutsUnder(ps, n - 1, c, r) + (if ps[n - 1].collection == c && ps[n - 1].id == r then [ps[n - 1].version] else [])
  }

  function PutsOf(command: Command, c: string, r: string): seq<int> {
    match command
    case RecordPut(p) => PutsUnder([p], 1, c, r)
    case RecordBatchPut(ps) => PutsUnder(ps, |ps|, c, r)
    case _ => []
  }

  /** The operation deletes the record, alone or with its collection. */
  predicate Deletes(t: Tables, command: Command, c: string, r: string) {
    match command
    case RecordDelete(p) => p.collection == c && p.id == r
    case CollectionDelete(name) => name in t.names && t.names[name] == c
    case _ => false
  }

  predicate DeletedAt(log: Log, p: nat, c: string, r: string)
    requires p < |log|
  {
    AcceptedAt(log, p) && Deletes(Canon(log, p).db.tables, log[p].body.op.command, c, r)
  }

  /** The versions accepted for a record since it was last deleted. */
  function History(log: Log, n: nat, c: string, r: string): seq<int>
    requires n <= |log|
  {
    if n == 0 then []
    else if DeletedAt(log, n - 1, c, r) then []
    else if AcceptedAt(log, n - 1) then History(log, n - 1, c, r) + PutsOf(log[n - 1].body.op.command, c, r)
    else History(log, n - 1, c, r)
  }

  /** 1, 2, …, n. */
  function UpTo(n: int): seq<int> {
    if n <= 0 then [] else UpTo(n - 1) + [n]
  }

  // ----- one operation -----

  lemma SameStorageSameVersion(t: Tables, t1: Tables, c: string, r: string)
    requires SameStorage(t, t1)
    ensures Version(t1, c, r) == Version(t, c, r)
  {
  }

  lemma PutMovesVersion(t: Tables, p: Record, c: string, r: string)
    requires Stored(t) && PutRecord(t, p).Ok?
    ensures Version(PutRecord(t, p).value, c, r) ==
      if p.collection == c && p.id == r then p.version else Version(t, c, r)
    ensures p.collection == c && p.id == r ==> p.version == Version(t, c, r) + 1
  {
    hide PutRecord, Stored, TableFits;
    PutShape(t, p);
  }

  lemma DeleteMovesVersion(t: Tables, p: Record, c: string, r: string)
    requires DeleteRecord(t, p).Ok?
    ensures Version(DeleteRecord(t, p).value, c, r) == if p.collection == c && p.id == r then 0 else Version(t, c, r)
  {
  }

  /** An accepted put moves one record to its next version. */
  lemma ApplyPutMovesVersion(t: Tables, p: Record, op: string, ordinal: Option<nat>, c: string, r: string)
    requires Consistent(t) && ApplyRecordPut(t, p, op, ordinal).Ok?
    ensures var t1 := ApplyRecordPut(t, p, op, ordinal).value;
      && Consistent(t1)
      && (if p.collection == c && p.id == r then Version(t1, c, r) == p.version == Version(t, c, r) + 1
          else Version(t1, c, r) == Version(t, c, r))
  {
    hide PutRecord, Emit, Stored, EventsTidy, AuditTidy, JobsTidy, Version;
    PutMovesVersion(t, p, c, r);
    PutKeepsConsistent(t, p, op, ordinal);
    var put := PutRecord(t, p).value;
    RecordsKeepTidy(t, p);
    EmitKeepsTidy(put, p, op, ordinal);
    SameStorageSameVersion(put, Emit(put, p, op, ordinal).value, c, r);
  }

  lemma RecordsKeepTidy(t: Tables, p: Record)
    requires Tidy(t)
    ensures PutRecord(t, p).Ok? ==> Tidy(PutRecord(t, p).value)
    ensures DeleteRecord(t, p).Ok? ==> Tidy(DeleteRecord(t, p).value)
  {
    hide PutRecord, DeleteRecord, EventsTidy, AuditTidy, JobsTidy;
    RecordsLeaveJournals(t, p);
  }

  /** Counting on from a version appends exactly the versions the batch put. */
  lemma {:induction false} BatchMovesVersion(t: Tables, ps: seq<Record>, op: string, n: nat, c: string, r: string)
    requires Consistent(t) && n <= |ps| && ApplyBatch(t, ps, op, n).Ok?
    ensures var t1 := ApplyBatch(t, ps, op, n).value;
      && Consistent(t1)
      && UpTo(Version(t1, c, r)) == UpTo(Version(t, c, r)) + PutsUnder(ps, n, c, r)
  {
    hide ApplyRecordPut, Consistent, Version, PutRecord, Emit;
    if n > 0 {
      BatchOk(t, ps, op, n - 1);
      BatchMovesVersion(t, ps, op, n - 1, c, r);
      var before := ApplyBatch(t, ps, op, n - 1).value;
      ApplyPutMovesVersion(before, ps[n - 1], op, Some(n - 1), c, r);
      VersionsArePositive(before, c, r);
    }
  }

  lemma VersionsArePositive(t: Tables, c: string, r: string)
    requires Consistent(t)
    ensures Version(t, c, r) >= 0
    ensures Version(t, c, r) == 0 <==> c !in t.rows || r !in t.rows[c]
  {
  }

  lemma RecordsMoveVersion(t: Tables, op: Operation, c: string, r: string)
    requires Consistent(t) && OnRecords(op.command) && Materialize(t, op).Ok?
    ensures var t1 := Materialize(t, op).value;
      if Deletes(t, op.command, c, r) then Version(t1, c, r) == 0
      else UpTo(Version(t1, c, r)) == UpTo(Version(t, c, r)) + PutsOf(op.command, c, r)
  {
    hide ApplyRecordPut, DeleteRecord, Emit, ApplyBatch, Consistent, Version;
    VersionsArePositive(t, c, r);
    match op.command
    case RecordPut(p) =>
      ApplyPutMovesVersion(t, p, op.id, None, c, r);
      assert PutsUnder([p], 0, c, r) == [];
    case RecordDelete(p) =>
      DeleteMovesVersion(t, p, c, r);
      ConsistentIsTidy(t);
      RecordsKeepTidy(t, p);
      var gone := DeleteRecord(t, p).value;
      EmitKeepsTidy(gone, p, op.id, None);
      SameStorageSameVersion(gone, Emit(gone, p, op.id, None).value, c, r);
    case RecordBatchPut(ps) =>
      BatchMovesVersion(t, ps, op.id, |ps|, c, r);
  }

  lemma ConsistentIsTidy(t: Tables)
    requires Consistent(t)
    ensures Tidy(t) && Stored(t) && Indexed(t)
  {
  }

  /** Defining a collection creates it empty or rebuilds it with every record's version. */
  lemma CollectionPutKeepsVersions(t: Tables, d: Definition, c: string, r: string)
    requires Indexed(t) && ApplyCollection(t, d).Ok?
    ensures Version(ApplyCollection(t, d).value, c, r) == Version(t, c, r)
  {
    hide TableFits, Creatable, FieldsInsertable, WholeDefinition, CopyRow;
    if d.name in t.names && c == d.id && c in t.rows && r in t.rows[c] {
      var before := t.collections[d.id];
      RebuildKeepsVersion(before.fields, d.fields, t.rows[d.id], r);
    }
  }

  lemma RebuildKeepsVersion(before: seq<Field>, fields: seq<Field>, table: Table, r: string)
    requires r in table && Rebuild(before, fields, table).Ok?
    ensures var next := Rebuild(before, fields, table).value; r in next && next[r].version == table[r].version
  {
  }

  lemma CollectionDeleteDropsVersions(t: Tables, name: string, c: string, r: string)
    ensures Version(DeleteCollection(t, name), c, r) ==
      if name in t.names && t.names[name] == c then 0 else Version(t, c, r)
  {
  }

  lemma AutomationKeepsRows(t: Tables, c: Command)
    requires !OnRecords(c) && !OnJobs(c) && !c.CollectionPut? && !c.CollectionDelete? && Define(t, c).Ok?
    ensures Define(t, c).value.rows == t.rows
  {
  }

  lemma OthersKeepRows(t: Tables, op: Operation)
    requires !OnRecords(op.command) && !op.command.CollectionPut? && !op.command.CollectionDelete? && Materialize(t, op).Ok?
    ensures Materialize(t, op).value.rows == t.rows
  {
    hide TransitJobs, Define, MutateRecords, OnJobs, OnRecords;
    if !OnJobs(op.command) { AutomationKeepsRows(t, op.command); }
  }

  lemma OthersMoveNoVersion(t: Tables, op: Operation, c: string, r: string)
    requires Indexed(t) && !OnRecords(op.command) && Materialize(t, op).Ok?
    ensures Version(Materialize(t, op).value, c, r) == if Deletes(t, op.command, c, r) then 0 else Version(t, c, r)
    ensures PutsOf(op.command, c, r) == []
  {
    hide ApplyCollection, DeleteCollection, TransitJobs, MutateRecords, PutWebhook, PutFunction, Indexed, PutsUnder;
    var command := op.command;
    if command.CollectionPut? {
      CollectionPutKeepsVersions(t, command.definition, c, r);
    } else if command.CollectionDelete? {
      CollectionDeleteDropsVersions(t, command.name, c, r);
    } else {
      OthersKeepRows(t, op);
    }
  }

  // ----- whole logs -----

  /** The record version law: since its last deletion a record's accepted puts carried exactly the
      versions 1, 2, …, up to the version it holds now. */
  lemma {:induction false} VersionLaw(log: Log, n: nat, c: string, r: string)
    requires Ordered(log) && n <= |log|
    ensures History(log, n, c, r) == UpTo(Version(Canon(log, n).db.tables, c, r))
  {
    hide Materialize, Consistent, Version, Deletes, PutsOf, OnRecords;
    if n == 0 {
      EmptyHasNoVersion(c, r);
    } else {
      VersionLaw(log, n - 1, c, r);
      var t := Canon(log, n - 1).db.tables;
      if AcceptedAt(log, n - 1) {
        CanonFacts(log, n - 1);
        CanonConsistent(log, n - 1);
        ConsistentIsTidy(t);
        var op := log[n - 1].body.op;
        if OnRecords(op.command) { RecordsMoveVersion(t, op, c, r); } else { OthersMoveNoVersion(t, op, c, r); }
      } else {
        NotAcceptedIsNoop(log, n - 1);
      }
    }
  }

  /** A batch takes effect wholly or not at all: accepted, it moves every record by exactly its own
      payloads; otherwise no table changes. */
  lemma BatchIsAtomic(log: Log, n: nat, c: string, r: string)
    requires Ordered(log) && n < |log| && log[n].body.Committed? && log[n].body.op.command.RecordBatchPut?
    ensures var ps := log[n].body.op.command.records; var t, t1 := Canon(log, n).db.tables, Canon(log, n + 1).db.tables;
      if AcceptedAt(log, n) then UpTo(Version(t1, c, r)) == UpTo(Version(t, c, r)) + PutsUnder(ps, |ps|, c, r)
      else t1 == t
  {
    hide Version, MutateRecords, Consistent;
    CanonFacts(log, n);
    if AcceptedAt(log, n) {
      CanonConsistent(log, n);
      RecordsMoveVersion(Canon(log, n).db.tables, log[n].body.op, c, r);
    } else {
      NotAcceptedIsNoop(log, n);
    }
  }

  lemma EmptyHasNoVersion(c: string, r: string)
    ensures Version(EMPTY, c, r) == 0
  {
  }

  lemma {:induction false} UpToHolds(n: int, k: int)
    ensures k in UpTo(n) <==> 1 <= k <= n
    ensures |UpTo(n)| == if n <= 0 then 0 else n
  {
    if n > 0 { UpToHolds(n - 1, k); }
  }

  /** Without a deletion the history only grows. */
  lemma {:induction false} HistoryGrows(log: Log, m: nat, n: nat, c: string, r: string, v: int)
    requires m <= n <= |log| && v in History(log, m, c, r)
    requires forall k :: m <= k < n ==> !DeletedAt(log, k, c, r)
    ensures v in History(log, n, c, r)
  {
    hide DeletedAt, AcceptedAt;
    if m < n {
      HistoryGrows(log, m, n - 1, c, r, v);
    }
  }

  /** Of two updates built on the same version of a record at most one is accepted: when both are, the
      record was deleted in between. */
  lemma OneUpdateWins(log: Log, p: nat, q: nat, c: string, r: string, v: int)
    requires Ordered(log) && p < q < |log| && AcceptedAt(log, p) && AcceptedAt(log, q)
    requires v in PutsOf(log[p].body.op.command, c, r) && v in PutsOf(log[q].body.op.command, c, r)
    ensures exists k :: p < k < q && DeletedAt(log, k, c, r)
  {
    hide Canon, Version, PutsOf, OutcomeAt, Deletes, UpTo;
    PutsDoNotDelete(log, p, c, r);
    PutsDoNotDelete(log, q, c, r);
    if forall k :: p < k < q ==> !DeletedAt(log, k, c, r) {
      VersionLaw(log, q + 1, c, r);
      NoVersionTwice(History(log, q, c, r), PutsOf(log[q].body.op.command, c, r), Version(Canon(log, q + 1).db.tables, c, r), v);
      HistoryGrows(log, p + 1, q, c, r, v);
    }
  }

  lemma NoVersionTwice(earlier: seq<int>, later: seq<int>, n: int, v: int)
    requires earlier + later == UpTo(n) && v in later
    ensures v !in earlier
  {
    var j := Index(later, v);
    assert (earlier + later)[|earlier| + j] == v;
    UpToAt(n, |earlier| + j);
    forall i | 0 <= i < |earlier|
      ensures earlier[i] != v
    {
      assert (earlier + later)[i] == earlier[i];
      UpToAt(n, i);
    }
  }

  lemma Index(s: seq<int>, v: int) returns (i: nat)
    requires v in s
    ensures i < |s| && s[i] == v
  {
    i :| 0 <= i < |s| && s[i] == v;
  }

  lemma {:induction false} UpToAt(n: int, i: nat)
    requires i < |UpTo(n)|
    ensures UpTo(n)[i] == i + 1
  {
    UpToHolds(n, 0);
    if n > 0 && i < n - 1 {
      UpToHolds(n - 1, 0);
      UpToAt(n - 1, i);
    }
  }

  lemma PutsDoNotDelete(log: Log, p: nat, c: string, r: string)
    requires p < |log| && log[p].body.Committed? && PutsOf(log[p].body.op.command, c, r) != []
    ensures !DeletedAt(log, p, c, r)
  {
  }

  /** A delete of a present record that reaches its transaction goes through only at the record's
      current version; at any other version it is rejected as stale. */
  lemma DeleteNeedsCurrentVersion(log: Log, n: nat)
    requires Ordered(log) && n < |log| && ReachesAt(log, n) && log[n].body.op.command.RecordDelete?
    ensures var p, t := log[n].body.op.command.record, Canon(log, n).db.tables;
      Version(t, p.collection, p.id) > 0 ==>
        && (AcceptedAt(log, n) ==> p.version == Version(t, p.collection, p.id))
        && (p.version != Version(t, p.collection, p.id) ==> RejectedAt(log, n) && OutcomeAt(log, n).fault == StalePrecondition)
        && (AcceptedAt(log, n) ==> Version(Canon(log, n + 1).db.tables, p.collection, p.id) == 0)
  {
    hide Canon, Version, Emit;
    var p, t := log[n].body.op.command.record, Canon(log, n).db.tables;
    if Version(t, p.collection, p.id) > 0 { DeleteOutcome(t, p); }
    if AcceptedAt(log, n) {
      assert DeletedAt(log, n, p.collection, p.id);
      VersionLaw(log, n + 1, p.collection, p.id);
      UpToHolds(Version(Canon(log, n + 1).db.tables, p.collection, p.id), 1);
      CanonConsistent(log, n + 1);
      VersionsArePositive(Canon(log, n + 1).db.tables, p.collection, p.id);
    }
  }

  lemma DeleteOutcome(t: Tables, p: Record)
    requires Version(t, p.collection, p.id) > 0
    ensures if p.version == Version(t, p.collection, p.id) then DeleteRecord(t, p).Ok?
            else DeleteRecord(t, p) == Err(StalePrecondition)
  {
  }
}
