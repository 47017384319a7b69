/** The replicated state machine: what one committed entry, a restart or a snapshot restore does to a
    replica (internal/replicated/fsm.go, FSM, NewFSM, Apply and Restore). */
module Fsm {
  import opened Base
  import opened Physical
  import opened Jobs
  import opened Tables
  import opened Snapshot

  /** A log entry: bytes that do not decode or digest, or an operation. */
  datatype Body = Unreadable | Committed(op: Operation)
  datatype Entry = Entry(index: nat, term: nat, body: Body)

  /** Durable state: the product tables and the rows of the meta table. */
  datatype Durable = Durable(tables: Tables, index: nat, term: nat, ops: map<string, string>)

  const BLANK := Durable(EMPTY, 0, 0, map[])

  /** A running replica: its durable state and the fields of FSM. */
  datatype Replica = Replica(
    db: Durable, applied: map<string, string>, index: nat, term: nat, persisted: nat, failed: bool)

  datatype Reply =
    | Acknowledged(index: nat, term: nat)
    | Rejected(fault: Fault)
    | Reused            // same operation ID, different digest
    | Fenced            // the replica is poisoned

  /** NewFSM. */
  function Boot(db: Durable): Replica {
    Replica(db, db.ops, db.index, db.term, db.index, false)
  }

  /** Apply: the replica after one delivered entry. */
  function Step(r: Replica, e: Entry): Replica {
    if e.body.Unreadable? then r.(failed := true)
    else if r.failed then r
    else
      var op := e.body.op;
      if op.id in r.applied then
        if r.applied[op.id] != op.digest then r
        else r.(index := e.index, term := e.term,
                db := if e.index > r.persisted then r.db.(index := e.index, term := e.term) else r.db)
      else if e.index <= r.persisted then
        r.(applied := r.applied[op.id := op.digest], index := e.index, term := e.term)
      else
        match Materialize(r.db.tables, op)
        case Ok(tables) =>
          r.(db := Durable(tables, e.index, e.term, r.db.ops[op.id := op.digest]),
             applied := r.applied[op.id := op.digest], index := e.index, term := e.term)
        case Err(fault) =>
          if fault.Semantic() then r else r.(failed := true)
  }

  /** What Apply returns. */
  function Answer(r: Replica, e: Entry): Reply {
    if e.body.Unreadable? then Rejected(Broken)
    else if r.failed then Fenced
    else
      var op := e.body.op;
      if op.id in r.applied then
        if r.applied[op.id] != op.digest then Reused else Acknowledged(e.index, e.term)
      else if e.index <= r.persisted then Acknowledged(e.index, e.term)
      else
        match Materialize(r.db.tables, op)
        case Ok(_) => Acknowledged(e.index, e.term)
        case Err(fault) => Rejected(fault)
  }

  /** Restore of a snapshot at or behind the index the replica booted with: only unknown operation IDs
      are learnt. */
  function Seed(r: Replica, known: map<string, string>): Replica {
    r.(applied := known + r.applied)
  }

  /** Restore. */
  function RestoreStep(r: Replica, env: Envelope): Replica {
    if env.index <= r.persisted then Seed(r, env.applied)
    else
      match RestoreTables(r.db.tables, env)
      case Err(_) => r
      case Ok(tables) =>
        Replica(Durable(tables, env.index, env.term, r.db.ops + env.applied), env.applied, env.index, env.term, env.index, r.failed)
  }

  // ----- the machine -----

  /** The jobs of other targets neither collide with stored jobs nor hold this target's key. */
  lemma NewJobsAvoid(jobs: JobTable, n: Notice, done: set<string>, id: string)
    requires id !in done
    requires EnqueueTargets(jobs, n, done).Ok?
    ensures forall i :: i in NewJobs(jobs, n, done) ==>
      NewJobs(jobs, n, done)[i].key != Some(JobKey(n.base, id)) && i != Sha(JobKey(n.base, id)) && i !in jobs
  {
    JobKeyInjective(n.base);
    hide KeyTaken;
    var added := NewJobs(jobs, n, done);
    forall i | i in added
      ensures added[i].key != Some(JobKey(n.base, id)) && i != Sha(JobKey(n.base, id)) && i !in jobs
    {
      var other :| other in done && !KeyTaken(jobs, JobKey(n.base, other)) && i == Sha(JobKey(n.base, other));
      assert !Collides(jobs, n, other);
    }
  }

  lemma KeyTakenBefore(jobs: JobTable, n: Notice, done: set<string>, id: string)
    requires id !in done
    requires EnqueueTargets(jobs, n, done).Ok?
    ensures KeyTaken(EnqueueTargets(jobs, n, done).value, JobKey(n.base, id)) <==> KeyTaken(jobs, JobKey(n.base, id))
    ensures Sha(JobKey(n.base, id)) in EnqueueTargets(jobs, n, done).value <==> Sha(JobKey(n.base, id)) in jobs
  {
    NewJobsAvoid(jobs, n, done, id);
    var table := EnqueueTargets(jobs, n, done).value;
    var added := NewJobs(jobs, n, done);
    hide NewJobs;
    if KeyTaken(jobs, JobKey(n.base, id)) {
      var i :| i in jobs && jobs[i].key == Some(JobKey(n.base, id));
      assert i !in added;
      assert table[i] == jobs[i];
    }
  }

  /** The row of one target in the set of new jobs. */
  lemma NewJobsAt(jobs: JobTable, n: Notice, targets: set<string>, id: string)
    ensures var key := JobKey(n.base, id);
      Sha(key) in NewJobs(jobs, n, targets) <==> id in targets && !KeyTaken(jobs, key)
    ensures var key := JobKey(n.base, id);
      id in targets && !KeyTaken(jobs, key) ==> NewJobs(jobs, n, targets)[Sha(key)] == JobOf(n, id)
  {
    hide KeyTaken, JobOf, JobKey;
    JobKeyInjective(n.base);
  }

  lemma NewJobsOnlyTargets(jobs: JobTable, n: Notice, targets: set<string>, i: Id)
    requires i in NewJobs(jobs, n, targets)
    ensures exists id :: id in targets && !KeyTaken(jobs, JobKey(n.base, id)) && i == Sha(JobKey(n.base, id))
  {
  }

  lemma NewJobsOneMore(jobs: JobTable, n: Notice, done: set<string>, id: string)
    ensures NewJobs(jobs, n, done + {id}) ==
      if KeyTaken(jobs, JobKey(n.base, id)) then NewJobs(jobs, n, done)
      else NewJobs(jobs, n, done)[Sha(JobKey(n.base, id)) := JobOf(n, id)]
  {
    var more, less := NewJobs(jobs, n, done + {id}), NewJobs(jobs, n, done);
    var expected := if KeyTaken(jobs, JobKey(n.base, id)) then less else less[Sha(JobKey(n.base, id)) := JobOf(n, id)];
    NewJobsAt(jobs, n, done + {id}, id);
    forall i
      ensures i in more <==> i in expected
      ensures i in more ==> more[i] == expected[i]
    {
      if i in more || i in less {
        if i in more { NewJobsOnlyTargets(jobs, n, done + {id}, i); } else { NewJobsOnlyTargets(jobs, n, done, i); }
        var x :| x in done + {id} && !KeyTaken(jobs, JobKey(n.base, x)) && i == Sha(JobKey(n.base, x));
        NewJobsAt(jobs, n, done + {id}, x);
        NewJobsAt(jobs, n, done, x);
        hide *;
      }
    }
    hide *;
    assert more == expected;
  }

  /** Enqueuing one more target at the end is enqueuing it with the others. */
  lemma EnqueueOneMore(jobs: JobTable, n: Notice, done: set<string>, id: string)
    requires id !in done
    requires EnqueueTargets(jobs, n, done).Ok?
    ensures EnqueueTargets(jobs, n, done + {id}) == EnqueueJob(EnqueueTargets(jobs, n, done).value, n, id)
  {
    KeyTakenBefore(jobs, n, done, id);
    NewJobsOneMore(jobs, n, done, id);
    hide KeyTaken, JobOf, NewJobs, JobKey;
    var key := JobKey(n.base, id);
    assert forall x :: x in done ==> !Collides(jobs, n, x);
    assert Collides(jobs, n, id) <==> !KeyTaken(jobs, key) && Sha(key) in jobs;
    var less := NewJobs(jobs, n, done);
    assert EnqueueTargets(jobs, n, done) == Ok(jobs + less);
    if !KeyTaken(jobs, key) && Sha(key) !in jobs {
      AddLast(jobs, less, Sha(key), JobOf(n, id));
    }
  }

  lemma AddLast(jobs: JobTable, more: JobTable, id: Id, job: Job)
    ensures jobs + more[id := job] == (jobs + more)[id := job]
  {
  }

  /** A failure for some targets is a failure for more. */
  lemma EnqueueFailureGrows(jobs: JobTable, n: Notice, some: set<string>, more: set<string>)
    requires some <= more && EnqueueTargets(jobs, n, some).Err?
    ensures EnqueueTargets(jobs, n, more) == Err(Broken)
  {
  }

  /** One target after the other, in whatever order the rows arrive. */
  method EnqueueEach(jobs: JobTable, n: Notice, targets: set<string>) returns (r: Result<JobTable>)
    ensures r == EnqueueTargets(jobs, n, targets)
  {
    hide JobOf, KeyTaken;
    r := Ok(jobs);
    var todo := targets;
    assert targets - todo == {};
    assert NewJobs(jobs, n, {}) == map[];
    assert jobs + map[] == jobs;
    while todo != {}
      invariant todo <= targets
      invariant r.Ok? && r == EnqueueTargets(jobs, n, targets - todo)
      decreases |todo|
    {
      var id :| id in todo;
      ghost var done := targets - todo;
      EnqueueOneMore(jobs, n, done, id);
      r := EnqueueJob(r.value, n, id);
      if r.Err? {
        EnqueueFailureGrows(jobs, n, done + {id}, targets);
        return;
      }
      todo := todo - {id};
      assert targets - todo == done + {id};
    }
    assert targets - todo == targets;
  }

  method EmitConsequences(tx: Tables, p: Record, op: string, ordinal: Option<nat>) returns (r: Result<Tables>)
    ensures r == Emit(tx, p, op, ordinal)
  {
    if p.topic == "" { return Ok(tx); }
    if p.collection !in tx.collections { return Err(Broken); }
    var name := tx.collections[p.collection].name;
    var base := JobBase(op, ordinal);
    var events := EmitEvent(tx.events, EventOf(p, name, op, ordinal));
    var audit := tx.audit;
    if p.auditAction != "" { audit := EmitAudit(audit, AuditOf(p, op, ordinal)); }
    var jobs := EnqueueEach(tx.jobs, WebhookNotice(p, name, base), MatchingWebhooks(tx, p.topic));
    if jobs.Err? { return Err(jobs.fault); }
    jobs := EnqueueEach(jobs.value, FunctionNotice(p, name, base), MatchingFunctions(tx, p.topic));
    if jobs.Err? { return Err(jobs.fault); }
    return Ok(tx.(events := events, audit := audit, jobs := jobs.value));
  }

  lemma {:induction false} BatchFailureStays(t: Tables, ps: seq<Record>, op: string, n: nat, m: nat)
    requires n <= m <= |ps| && ApplyBatch(t, ps, op, n).Err?
    ensures ApplyBatch(t, ps, op, m) == ApplyBatch(t, ps, op, n)
  {
    hide ApplyRecordPut;
    if n < m {
      BatchFailureStays(t, ps, op, n, m - 1);
    }
  }

  method PutEach(tx: Tables, ps: seq<Record>, op: string) returns (r: Result<Tables>)
    ensures r == ApplyBatch(tx, ps, op, |ps|)
  {
    r := Ok(tx);
    for i := 0 to |ps|
      invariant r.Ok? && r == ApplyBatch(tx, ps, op, i)
    {
      ghost var next := ApplyBatch(tx, ps, op, i + 1);
      r := PutRecord(r.value, ps[i]);
      if r.Ok? {
        r := EmitConsequences(r.value, ps[i], op, Some(i));
      }
      if r.Err? {
        BatchFailureStays(tx, ps, op, i + 1, |ps|);
        return;
      }
    }
  }

  lemma {:induction false} RecordsFailureStays(t: Tables, records: seq<Record>, n: nat, m: nat)
    requires n <= m <= |records| && RestoreRecords(t, records, n).Err?
    ensures RestoreRecords(t, records, m) == RestoreRecords(t, records, n)
  {
    hide PutRecord;
    if n < m {
      RecordsFailureStays(t, records, n, m - 1);
    }
  }

  lemma {:induction false} CollectionsFailureStays(t: Tables, saved: seq<Saved>, n: nat, m: nat)
    requires n <= m <= |saved| && RestoreCollections(t, saved, n).Err?
    ensures RestoreCollections(t, saved, m) == RestoreCollections(t, saved, n)
  {
    hide RestoreCollection;
    if n < m {
      CollectionsFailureStays(t, saved, n, m - 1);
    }
  }

  method RestoreEachRecord(tx: Tables, records: seq<Record>) returns (r: Result<Tables>)
    ensures r == RestoreRecords(tx, records, |records|)
  {
    hide PutRecord;
    r := Ok(tx);
    for i := 0 to |records|
      invariant r.Ok? && r == RestoreRecords(tx, records, i)
    {
      r := PutRecord(r.value, records[i]);
      if r.Err? {
        RecordsFailureStays(tx, records, i + 1, |records|);
        return;
      }
    }
  }

  method RestoreEachCollection(tx: Tables, saved: seq<Saved>) returns (r: Result<Tables>)
    ensures r == RestoreCollections(tx, saved, |saved|)
  {
    hide ApplyCollection, RestoreRecords;
    r := Ok(tx);
    for i := 0 to |saved|
      invariant r.Ok? && r == RestoreCollections(tx, saved, i)
    {
      r := ApplyCollection(r.value, saved[i].definition);
      if r.Ok? {
        r := RestoreEachRecord(r.value, saved[i].records);
      }
      if r.Err? {
        CollectionsFailureStays(tx, saved, i + 1, |saved|);
        return;
      }
    }
  }

  class FSM {
    var db: Durable
    var applied: map<string, string>
    var index: nat
    var term: nat
    var persistedIndex: nat
    var failed: bool

    function State(): Replica
      reads this
    {
      Replica(db, applied, index, term, persistedIndex, failed)
    }

    /** NewFSM: a start, or a restart over what the last process left durable. */
    constructor (stored: Durable)
      ensures State() == Boot(stored)
    {
      db := stored;
      applied := stored.ops;
      index, term := stored.index, stored.term;
      persistedIndex := stored.index;
      failed := false;
    }

    /** The transaction of one operation: `tx` is discarded unless every statement succeeds. */
    method Transact(op: Operation) returns (tx: Result<Tables>)
      ensures tx == Materialize(db.tables, op)
    {
      match op.command
      case RecordPut(p) =>
        tx := PutRecord(db.tables, p);
        if tx.Ok? { tx := EmitConsequences(tx.value, p, op.id, None); }
      case RecordDelete(p) =>
        tx := DeleteRecord(db.tables, p);
        if tx.Ok? { tx := EmitConsequences(tx.value, p, op.id, None); }
      case RecordBatchPut(ps) =>
        tx := PutEach(db.tables, ps, op.id);
      case _ =>
        tx := Materialize(db.tables, op);
    }

    /** Apply: the replica takes exactly the step of the specification, and replies with its answer. */
    method Apply(e: Entry) returns (reply: Reply)
      modifies this
      ensures State() == Step(old(State()), e)
      ensures reply == Answer(old(State()), e)
    {
      if e.body.Unreadable? {
        failed := true;
        return Rejected(Broken);
      }
      if failed { return Fenced; }
      var op := e.body.op;
      if op.id in applied {
        if applied[op.id] != op.digest { return Reused; }
        index, term := e.index, e.term;
        if e.index > persistedIndex {
          db := db.(index := e.index);
          db := db.(term := e.term);
        }
        return Acknowledged(e.index, e.term);
      }
      if e.index <= persistedIndex {
        applied := applied[op.id := op.digest];
        index, term := e.index, e.term;
        return Acknowledged(e.index, e.term);
      }
      var tx := Transact(op);
      if tx.Err? {
        if !tx.fault.Semantic() { failed := true; }
        return Rejected(tx.fault);
      }
      db := Durable(tx.value, e.index, e.term, db.ops[op.id := op.digest]);
      applied := applied[op.id := op.digest];
      index, term := e.index, e.term;
      return Acknowledged(e.index, e.term);
    }

    /** The loop that learns the operation IDs the retained log no longer replays. */
    method LearnUnknown(known: map<string, string>)
      modifies this`applied
      ensures applied == known + old(applied)
    {
      var todo := known.Keys;
      while todo != {}
        invariant todo <= known.Keys
        invariant applied == (map k | k in known && k !in todo :: known[k]) + old(applied)
        decreases |todo|
      {
        var k :| k in todo;
        todo := todo - {k};
        if k !in applied { applied := applied[k := known[k]]; }
      }
      assert (map k | k in known && k !in todo :: known[k]) == known;
    }

    /** Restore: deletes every collection, replays the saved ones, replaces the consequence tables, and
        commits all of it or nothing. */
    method Restore(env: Envelope) returns (ok: bool)
      modifies this
      ensures State() == RestoreStep(old(State()), env)
      ensures ok <==> env.index <= old(persistedIndex) || RestoreTables(old(db).tables, env).Ok?
    {
      hide RestoreCollections, ReplaceConsequences;
      if env.index <= persistedIndex {
        LearnUnknown(env.applied);
        return true;
      }
      var tx := RestoreEachCollection(Cleared(db.tables), env.collections);
      if tx.Err? { return false; }
      tx := ReplaceConsequences(tx.value, env);
      if tx.Err? { return false; }
      db := Durable(tx.value, env.index, env.term, db.ops + env.applied);
      applied := env.applied;
      index, term := env.index, env.term;
      persistedIndex := env.index;
      return true;
    }
  }
}
