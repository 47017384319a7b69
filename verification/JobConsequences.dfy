/** One job per matching target (internal/replicated/fsm.go, enqueueJobs and enqueueJob), over whole
    logs, while the job lifecycle runs on. */
module JobConsequences {
  import opened Base
  import opened Physical
  import opened Text
  import opened Jobs
  import opened Tables
  import opened Keys
  import opened Fsm
  import opened Runs
  import opened Consequences

  /** A job owed, with its idempotency key. */
  datatype JobDue = JobDue(key: string, job: Job)

  function DueOf(n: Notice, targets: set<string>): set<JobDue> {
    set x | x in targets :: JobDue(JobKey(n.base, x), JobOf(n, x))
  }

  /** One job for each target enabled and matching the payload's topic. */
  function JobsDueFor(t: Tables, op: string, d: Due): set<JobDue> {
    if d.p.topic == "" then {}
    else
      var name, base := NameOf(t, d.p.collection), JobBase(op, d.ordinal);
      DueOf(WebhookNotice(d.p, name, base), MatchingWebhooks(t, d.p.topic))
      + DueOf(FunctionNotice(d.p, name, base), MatchingFunctions(t, d.p.topic))
  }

  function JobsDue(t: Tables, op: string, dues: seq<Due>, n: nat): set<JobDue>
    requires n <= |dues|
  {
    if n == 0 then {} else JobsDue(t, op, dues, n - 1) + JobsDueFor(t, op, dues[n - 1])
  }

  function AllJobs(log: Log, n: nat): set<JobDue>
    requires n <= |log|
  {
    if n == 0 then {}
    else if !AcceptedAt(log, n - 1) then AllJobs(log, n - 1)
    else
      var op := log[n - 1].body.op;
      AllJobs(log, n - 1) + JobsDue(Canon(log, n - 1).db.tables, op.id, Payloads(op), |Payloads(op)|)
  }

  /** What a job keeps through every lifecycle transition. */
  predicate SameJob(j: Job, k: Job) {
    && j.kind == k.kind && j.payload == k.payload && j.key == k.key
    && j.maxAttempts == k.maxAttempts && j.createdAt == k.createdAt
  }

  ghost predicate Owed(jobs: JobTable, s: JobDue) {
    Sha(s.key) in jobs && s.job.key == Some(s.key) && SameJob(jobs[Sha(s.key)], s.job)
  }

  ghost predicate ForOne(i: Id, due: set<JobDue>) {
    exists s :: s in due && i == Sha(s.key)
  }

  /** The job table holds a row for each job owed and no other. */
  ghost predicate Owes(jobs: JobTable, due: set<JobDue>) {
    && (forall s :: s in due ==> Owed(jobs, s))
    && (forall i :: i in jobs ==> ForOne(i, due))
  }

  /** No two owed jobs share a key. */
  predicate DistinctKeys(due: set<JobDue>) {
    forall s, u :: s in due && u in due && s.key == u.key ==> s == u
  }

  lemma FewerKeys(some: set<JobDue>, more: set<JobDue>)
    requires some <= more && DistinctKeys(more)
    ensures DistinctKeys(some)
  {
  }

  /** A key is taken exactly when an owed job has it, and then by the row that has its ID. */
  lemma TakenExactly(jobs: JobTable, due: set<JobDue>, key: string)
    requires Owes(jobs, due)
    ensures KeyTaken(jobs, key) <==> exists s :: s in due && s.key == key
    ensures Sha(key) in jobs ==> KeyTaken(jobs, key)
  {
    if i :| i in jobs && jobs[i].key == Some(key) {
      assert ForOne(i, due);
      var s :| s in due && i == Sha(s.key);
      assert Owed(jobs, s);
    }
    if s :| s in due && s.key == key {
      assert Owed(jobs, s);
    }
    if Sha(key) in jobs {
      assert ForOne(Sha(key), due);
      var s :| s in due && Sha(key) == Sha(s.key);
      assert Owed(jobs, s);
    }
  }

  /** Enqueuing for targets whose owed jobs share no key with others succeeds and adds exactly the jobs
      that are not there yet. */
  lemma EnqueueAddsDue(jobs: JobTable, due: set<JobDue>, n: Notice, targets: set<string>)
    requires Owes(jobs, due) && DistinctKeys(due + DueOf(n, targets))
    ensures EnqueueTargets(jobs, n, targets).Ok?
    ensures Owes(EnqueueTargets(jobs, n, targets).value, due + DueOf(n, targets))
  {
    hide JobOf, JobKey, KeyTaken, Owes, Owed, ForOne, NewJobs;
    JobKeyInjective(n.base);
    forall x | x in targets
      ensures !Collides(jobs, n, x)
    {
      TakenExactly(jobs, due, JobKey(n.base, x));
    }
    var added := NewJobs(jobs, n, targets);
    assert EnqueueTargets(jobs, n, targets) == Ok(jobs + added);
    forall s | s in due + DueOf(n, targets)
      ensures Owed(jobs + added, s)
    {
      EnqueuedIsOwed(jobs, due, n, targets, s);
    }
    forall i | i in jobs + added
      ensures ForOne(i, due + DueOf(n, targets))
    {
      RowsAreDue(jobs, due, n, targets, i);
    }
    OwesFromParts(jobs + added, due + DueOf(n, targets));
  }

  lemma OwesFromParts(jobs: JobTable, due: set<JobDue>)
    requires (forall s :: s in due ==> Owed(jobs, s)) && forall i :: i in jobs ==> ForOne(i, due)
    ensures Owes(jobs, due)
  {
  }

  lemma EnqueuedIsOwed(jobs: JobTable, due: set<JobDue>, n: Notice, targets: set<string>, s: JobDue)
    requires Owes(jobs, due) && DistinctKeys(due + DueOf(n, targets)) && s in due + DueOf(n, targets)
    ensures Owed(jobs + NewJobs(jobs, n, targets), s)
  {
    hide JobOf, JobKey, KeyTaken, SameJob, NewJobs;
    var added := NewJobs(jobs, n, targets);
    TakenExactly(jobs, due, s.key);
    if s in due {
      assert Owed(jobs, s);
      if Sha(s.key) in added {
        NewJobsOnlyTargets(jobs, n, targets, Sha(s.key));
      }
    } else {
      var x :| x in targets && s == JobDue(JobKey(n.base, x), JobOf(n, x));
      assert !KeyTaken(jobs, s.key);
      NewJobsAt(jobs, n, targets, x);
      JobOfKeeps(n, x);
    }
  }

  lemma RowsAreDue(jobs: JobTable, due: set<JobDue>, n: Notice, targets: set<string>, i: Id)
    requires Owes(jobs, due) && i in jobs + NewJobs(jobs, n, targets)
    ensures ForOne(i, due + DueOf(n, targets))
  {
    hide JobOf, JobKey, KeyTaken, Owed, NewJobs;
    if i in NewJobs(jobs, n, targets) {
      NewJobsOnlyTargets(jobs, n, targets, i);
      var x :| x in targets && i == Sha(JobKey(n.base, x));
      assert JobDue(JobKey(n.base, x), JobOf(n, x)) in due + DueOf(n, targets);
    } else {
      assert ForOne(i, due);
    }
  }

  lemma JobOfKeeps(n: Notice, x: string)
    ensures JobOf(n, x).key == Some(JobKey(n.base, x)) && SameJob(JobOf(n, x), JobOf(n, x))
  {
  }

  // ----- distinct operations, ordinals and targets -----

  /** Target IDs are free of colons and no webhook shares an ID with a function. */
  predicate TargetsApart(t: Tables) {
    && (forall x :: x in t.webhooks ==> ':' !in x)
    && (forall x :: x in t.functions ==> ':' !in x)
    && t.webhooks.Keys !! t.functions.Keys
  }

  /** Every owed key is the key of an operation in `ids` or of an ordinal of `op` below n. */
  ghost predicate KeyFrom(key: string, ids: set<string>) {
    exists id, ordinal, x :: id in ids && ':' !in x && key == JobKey(JobBase(id, ordinal), x)
  }

  ghost predicate KeyOfDue(key: string, op: string, dues: seq<Due>, n: nat)
    requires n <= |dues|
  {
    exists k, x :: 0 <= k < n && ':' !in x && key == JobKey(JobBase(op, dues[k].ordinal), x)
  }

  ghost predicate DueFrom(due: set<JobDue>, ids: set<string>) {
    forall s :: s in due ==> KeyFrom(s.key, ids)
  }

  lemma JobsDueForKeys(t: Tables, op: string, d: Due, s: JobDue) returns (x: string)
    requires TargetsApart(t) && s in JobsDueFor(t, op, d)
    ensures ':' !in x && s.key == JobKey(JobBase(op, d.ordinal), x)
  {
    hide JobOf, JobKey, JobBase, ContainsTopic;
    var name, base := NameOf(t, d.p.collection), JobBase(op, d.ordinal);
    if s in DueOf(WebhookNotice(d.p, name, base), MatchingWebhooks(t, d.p.topic)) {
      x :| x in MatchingWebhooks(t, d.p.topic) && s.key == JobKey(base, x);
    } else {
      x :| x in MatchingFunctions(t, d.p.topic) && s.key == JobKey(base, x);
    }
  }

  lemma {:induction false} JobsDueKeys(t: Tables, op: string, dues: seq<Due>, n: nat)
    requires TargetsApart(t) && n <= |dues|
    ensures forall s :: s in JobsDue(t, op, dues, n) ==> KeyOfDue(s.key, op, dues, n)
  {
    if n > 0 {
      JobsDueKeys(t, op, dues, n - 1);
      hide JobKey, JobBase, JobsDueFor, TargetsApart;
      forall s | s in JobsDue(t, op, dues, n)
        ensures KeyOfDue(s.key, op, dues, n)
      {
        if s in JobsDue(t, op, dues, n - 1) {
          assert KeyOfDue(s.key, op, dues, n - 1);
          var k, x :| 0 <= k < n - 1 && ':' !in x && s.key == JobKey(JobBase(op, dues[k].ordinal), x);
        } else {
          var x := JobsDueForKeys(t, op, dues[n - 1], s);
        }
      }
    }
  }

  /** The keys of the next payload's jobs are new. */
  lemma NextKeysAreNew(due: set<JobDue>, ids: set<string>, t: Tables, op: string, dues: seq<Due>, n: nat, x: string)
    requires DueFrom(due, ids) && op !in ids && n < |dues| && DistinctOrdinals(dues) && TargetsApart(t) && ':' !in x
    ensures forall s :: s in due + JobsDue(t, op, dues, n) ==> s.key != JobKey(JobBase(op, dues[n].ordinal), x)
  {
    JobsDueKeys(t, op, dues, n);
    hide JobKey, JobBase, JobsDue, TargetsApart;
    forall s | s in due + JobsDue(t, op, dues, n)
      ensures s.key != JobKey(JobBase(op, dues[n].ordinal), x)
    {
      if s.key == JobKey(JobBase(op, dues[n].ordinal), x) {
        if s in due {
          assert KeyFrom(s.key, ids);
          var id, ordinal, y :| id in ids && ':' !in y && s.key == JobKey(JobBase(id, ordinal), y);
          JobKeyIdentifies(id, ordinal, y, op, dues[n].ordinal, x);
        } else {
          assert KeyOfDue(s.key, op, dues, n);
          var k, y :| 0 <= k < n && ':' !in y && s.key == JobKey(JobBase(op, dues[k].ordinal), y);
          JobKeyIdentifies(op, dues[k].ordinal, y, op, dues[n].ordinal, x);
        }
      }
    }
  }

  /** Emitting the next payload's consequences adds exactly the jobs it owes. */
  lemma EmitAddsJobs(t: Tables, before: Tables, due: set<JobDue>, op: string, dues: seq<Due>, n: nat)
    requires n < |dues| && SameDefinitions(t, before) && DistinctKeys(due + JobsDue(t, op, dues, n + 1))
    requires Owes(before.jobs, due + JobsDue(t, op, dues, n))
    requires Emit(before, dues[n].p, op, dues[n].ordinal).Ok?
    ensures Owes(Emit(before, dues[n].p, op, dues[n].ordinal).value.jobs, due + JobsDue(t, op, dues, n + 1))
    ensures SameDefinitions(t, Emit(before, dues[n].p, op, dues[n].ordinal).value)
  {
    hide EmitEvent, EmitAudit, Owes, ContainsTopic, JobOf, JobKey, JobBase, EnqueueTargets, DueOf, DistinctKeys;
    var d := dues[n];
    var owed := due + JobsDue(t, op, dues, n);
    if d.p.topic == "" {
      assert owed == due + JobsDue(t, op, dues, n + 1);
      return;
    }
    var name, base := NameOf(t, d.p.collection), JobBase(op, d.ordinal);
    var hooks, lambdas := WebhookNotice(d.p, name, base), FunctionNotice(d.p, name, base);
    var hookIds, lambdaIds := MatchingWebhooks(t, d.p.topic), MatchingFunctions(t, d.p.topic);
    var hooked := owed + DueOf(hooks, hookIds);
    assert hooked + DueOf(lambdas, lambdaIds) == due + JobsDue(t, op, dues, n + 1);
    FewerKeys(hooked, due + JobsDue(t, op, dues, n + 1));
    EnqueueAddsDue(before.jobs, owed, hooks, hookIds);
    EnqueueAddsDue(EnqueueTargets(before.jobs, hooks, hookIds).value, hooked, lambdas, lambdaIds);
  }

  // ----- whole operations -----

  lemma {:induction false} BatchAddsJobs(t: Tables, due: set<JobDue>, op: Operation, n: nat)
    requires op.command.RecordBatchPut? && n <= |op.command.records| && Owes(t.jobs, due)
    requires DistinctKeys(due + JobsDue(t, op.id, Payloads(op), n))
    requires ApplyBatch(t, op.command.records, op.id, n).Ok?
    ensures var t1 := ApplyBatch(t, op.command.records, op.id, n).value;
      SameDefinitions(t, t1) && Owes(t1.jobs, due + JobsDue(t, op.id, Payloads(op), n))
  {
    hide Owes, PutRecord, Emit, ApplyRecordPut, JobsDueFor, DistinctKeys;
    var ps, dues := op.command.records, Payloads(op);
    if n == 0 {
      assert due + {} == due;
    } else {
      BatchOk(t, ps, op.id, n - 1);
      FewerKeys(due + JobsDue(t, op.id, dues, n - 1), due + JobsDue(t, op.id, dues, n));
      BatchAddsJobs(t, due, op, n - 1);
      var before := ApplyBatch(t, ps, op.id, n - 1).value;
      RecordsLeaveJournals(before, ps[n - 1]);
      EmitAddsJobs(t, PutRecord(before, ps[n - 1]).value, due, op.id, dues, n - 1);
    }
  }

  lemma SingleAddsJobs(t: Tables, due: set<JobDue>, op: Operation, after: Tables)
    requires |Payloads(op)| == 1 && Owes(t.jobs, due) && DistinctKeys(due + JobsDue(t, op.id, Payloads(op), 1))
    requires SameDefinitions(t, after) && after.jobs == t.jobs
    requires Emit(after, Payloads(op)[0].p, op.id, Payloads(op)[0].ordinal).Ok?
    ensures var t1 := Emit(after, Payloads(op)[0].p, op.id, Payloads(op)[0].ordinal).value;
      SameDefinitions(t, t1) && Owes(t1.jobs, due + JobsDue(t, op.id, Payloads(op), 1))
  {
    hide Owes, Emit, DistinctKeys, JobsDueFor;
    assert due + {} == due;
    EmitAddsJobs(t, after, due, op.id, Payloads(op), 0);
  }

  /** A lifecycle transition keeps every job's identity, origin and payload. */
  lemma TransitKeepsJobs(jobs: JobTable, c: Command, now: Time)
    requires OnJobs(c) && TransitJobs(jobs, c, now).Ok?
    ensures var next := TransitJobs(jobs, c, now).value;
      next.Keys == jobs.Keys && forall i :: i in jobs ==> SameJob(next[i], jobs[i])
  {
  }

  lemma OwesThroughTransit(jobs: JobTable, next: JobTable, due: set<JobDue>)
    requires Owes(jobs, due) && next.Keys == jobs.Keys && forall i :: i in jobs ==> SameJob(next[i], jobs[i])
    ensures Owes(next, due)
  {
  }

  /** An accepted operation adds exactly the jobs it owes. */
  lemma OperationAddsJobs(t: Tables, due: set<JobDue>, op: Operation)
    requires Owes(t.jobs, due) && DistinctKeys(due + JobsDue(t, op.id, Payloads(op), |Payloads(op)|))
    requires Materialize(t, op).Ok?
    ensures Owes(Materialize(t, op).value.jobs, due + JobsDue(t, op.id, Payloads(op), |Payloads(op)|))
  {
    hide PutRecord, DeleteRecord, Emit, ApplyBatch, Owes, TransitJobs, Define, DistinctKeys;
    if OnRecords(op.command) {
      match op.command
      case RecordPut(p) =>
        RecordsLeaveJournals(t, p);
        SingleAddsJobs(t, due, op, PutRecord(t, p).value);
      case RecordDelete(p) =>
        RecordsLeaveJournals(t, p);
        SingleAddsJobs(t, due, op, DeleteRecord(t, p).value);
      case RecordBatchPut(ps) =>
        BatchAddsJobs(t, due, op, |ps|);
    } else {
      assert due + {} == due;
      if OnJobs(op.command) {
        TransitKeepsJobs(t.jobs, op.command, op.now);
        OwesThroughTransit(t.jobs, TransitJobs(t.jobs, op.command, op.now).value, due);
      } else {
        DefinitionsLeaveJournals(t, op.command);
      }
    }
  }

  // ----- whole logs: the exact condition -----

  lemma {:induction false} EarlierJobsStayDue(log: Log, n: nat)
    requires n < |log|
    ensures AllJobs(log, n) <= AllJobs(log, n + 1)
  {
  }

  lemma JobsAddedOnce(log: Log, n: nat)
    requires Ordered(log) && n < |log| && Owes(Canon(log, n).db.tables.jobs, AllJobs(log, n)) && DistinctKeys(AllJobs(log, n + 1))
    ensures Owes(Canon(log, n + 1).db.tables.jobs, AllJobs(log, n + 1))
  {
    hide Materialize, JobsDue, Payloads, Owes, DistinctKeys;
    CanonFacts(log, n);
    if AcceptedAt(log, n) {
      OperationAddsJobs(Canon(log, n).db.tables, AllJobs(log, n), log[n].body.op);
    } else {
      NotAcceptedIsNoop(log, n);
    }
  }

  lemma {:induction false} JobsLaw(log: Log, n: nat)
    requires Ordered(log) && n <= |log| && DistinctKeys(AllJobs(log, n))
    ensures Owes(Canon(log, n).db.tables.jobs, AllJobs(log, n))
  {
    if n == 0 {
      JobsHoldAtStart(log);
    } else {
      hide *;
      EarlierJobsStayDue(log, n - 1);
      FewerKeys(AllJobs(log, n - 1), AllJobs(log, n));
      JobsLaw(log, n - 1);
      JobsAddedOnce(log, n - 1);
    }
  }

  lemma JobsHoldAtStart(log: Log)
    ensures Owes(Canon(log, 0).db.tables.jobs, AllJobs(log, 0))
  {
  }

  /** A job owed is a new job under its own key. */
  predicate NewDue(s: JobDue) {
    s.job == NewJob(s.job.kind, s.job.payload, Some(s.key), s.job.createdAt)
  }

  lemma {:induction false} DuesAreNew(t: Tables, op: string, dues: seq<Due>, n: nat)
    requires n <= |dues|
    ensures forall s :: s in JobsDue(t, op, dues, n) ==> NewDue(s)
  {
    hide ContainsTopic, JobKey, JobBase;
    if n > 0 { DuesAreNew(t, op, dues, n - 1); }
  }

  lemma {:induction false} AllDuesAreNew(log: Log, n: nat)
    requires n <= |log|
    ensures forall s :: s in AllJobs(log, n) ==> NewDue(s)
  {
    hide AcceptedAt, JobsDue, Payloads, Canon, NewDue;
    if n > 0 {
      AllDuesAreNew(log, n - 1);
      if AcceptedAt(log, n - 1) {
        AcceptedIsCommitted(log, n - 1);
        var op := log[n - 1].body.op;
        DuesAreNew(Canon(log, n - 1).db.tables, op.id, Payloads(op), |Payloads(op)|);
      }
    }
  }

  lemma AcceptedIsCommitted(log: Log, n: nat)
    requires n < |log| && AcceptedAt(log, n)
    ensures log[n].body.Committed?
  {
  }

  /** Two owed jobs of one key cannot both have the key's row. */
  lemma OwedKeysAreDistinct(jobs: JobTable, due: set<JobDue>)
    requires (forall s :: s in due ==> Owed(jobs, s)) && forall s :: s in due ==> NewDue(s)
    ensures DistinctKeys(due)
  {
    forall s, u | s in due && u in due && s.key == u.key
      ensures s == u
    {
      assert Owed(jobs, s) && Owed(jobs, u);
      assert NewDue(s) && NewDue(u);
    }
  }

  /** Exactly-once jobs, exactly: after any log every job owed, one per target enabled and matching at its
      entry, has its own row if and only if no two owed jobs share a key; and then there is no other
      row, whatever the lifecycle did to them since. */
  lemma OwedJobsExactly(log: Log, n: nat)
    requires Ordered(log) && n <= |log|
    ensures (forall s :: s in AllJobs(log, n) ==> Owed(Canon(log, n).db.tables.jobs, s)) <==> DistinctKeys(AllJobs(log, n))
    ensures DistinctKeys(AllJobs(log, n)) ==> Owes(Canon(log, n).db.tables.jobs, AllJobs(log, n))
  {
    hide Canon, AllJobs, Owed, DistinctKeys, NewDue;
    AllDuesAreNew(log, n);
    if DistinctKeys(AllJobs(log, n)) { JobsLaw(log, n); }
    if forall s :: s in AllJobs(log, n) ==> Owed(Canon(log, n).db.tables.jobs, s) {
      OwedKeysAreDistinct(Canon(log, n).db.tables.jobs, AllJobs(log, n));
    }
  }

  // ----- when keys are distinct -----

  lemma JobsJoin(t: Tables, due: set<JobDue>, ids: set<string>, op: Operation)
    requires DueFrom(due, ids) && TargetsApart(t)
    ensures DueFrom(due + JobsDue(t, op.id, Payloads(op), |Payloads(op)|), ids + {op.id})
  {
    hide JobKey, JobBase, JobsDue, TargetsApart;
    var dues := Payloads(op);
    JobsDueKeys(t, op.id, dues, |dues|);
    forall s | s in due + JobsDue(t, op.id, dues, |dues|)
      ensures KeyFrom(s.key, ids + {op.id})
    {
      if s in due {
        assert KeyFrom(s.key, ids);
        var id, ordinal, x :| id in ids && ':' !in x && s.key == JobKey(JobBase(id, ordinal), x);
        assert id in ids + {op.id};
      } else {
        assert KeyOfDue(s.key, op.id, dues, |dues|);
        var k, x :| 0 <= k < |dues| && ':' !in x && s.key == JobKey(JobBase(op.id, dues[k].ordinal), x);
        assert op.id in ids + {op.id};
      }
    }
  }

  // ----- whole logs -----

  function HookIds(log: Log): set<string> {
    set i | 0 <= i < |log| && log[i].body.Committed? && log[i].body.op.command.WebhookPut? :: log[i].body.op.command.id
  }

  function LambdaIds(log: Log): set<string> {
    set i | 0 <= i < |log| && log[i].body.Committed? && log[i].body.op.command.FunctionPut? :: log[i].body.op.command.id
  }

  /** No definition committed in this log has a colon in its ID or shares its ID with one of the other
      kind. */
  predicate DefinesApart(log: Log) {
    && (forall x :: x in HookIds(log) ==> ':' !in x)
    && (forall x :: x in LambdaIds(log) ==> ':' !in x)
    && HookIds(log) !! LambdaIds(log)
  }

  /** Only a definition entry adds a target, under the ID it carries. */
  predicate TargetsFrom(t: Tables, t1: Tables, c: Command) {
    && t1.webhooks.Keys <= t.webhooks.Keys + (if c.WebhookPut? then {c.id} else {})
    && t1.functions.Keys <= t.functions.Keys + (if c.FunctionPut? then {c.id} else {})
  }

  lemma WebhookTargets(t: Tables, id: string, w: Webhook)
    requires PutWebhook(t, id, w).Ok?
    ensures var t1 := PutWebhook(t, id, w).value; t1.webhooks.Keys <= t.webhooks.Keys + {id} && t1.functions == t.functions
  {
  }

  lemma FunctionTargets(t: Tables, id: string, f: Function)
    requires PutFunction(t, id, f).Ok?
    ensures var t1 := PutFunction(t, id, f).value; t1.functions.Keys <= t.functions.Keys + {id} && t1.webhooks == t.webhooks
  {
  }

  lemma AutomationTargets(t: Tables, c: Command)
    requires !OnRecords(c) && !OnJobs(c) && !c.CollectionPut? && !c.CollectionDelete? && Define(t, c).Ok?
    ensures TargetsFrom(t, Define(t, c).value, c)
  {
    hide ApplyCollection, DeleteCollection, PutWebhook, PutFunction;
    if c.WebhookPut? {
      WebhookTargets(t, c.id, c.webhook);
    } else if c.FunctionPut? {
      FunctionTargets(t, c.id, c.function_);
    }
  }

  lemma DefinitionTargets(t: Tables, c: Command)
    requires !OnRecords(c) && !OnJobs(c) && Define(t, c).Ok?
    ensures TargetsFrom(t, Define(t, c).value, c)
  {
    hide ApplyCollection, DeleteCollection, PutWebhook, PutFunction;
    if c.CollectionPut? {
      CollectionsLeaveConsequences(t, c.definition, "");
    } else if c.CollectionDelete? {
      CollectionsLeaveConsequences(t, Definition("", "", "", [], 0, 0), c.name);
    } else {
      AutomationTargets(t, c);
    }
  }

  lemma TargetsComeFromPuts(t: Tables, op: Operation)
    requires Materialize(t, op).Ok?
    ensures TargetsFrom(t, Materialize(t, op).value, op.command)
  {
    hide MutateRecords, TransitJobs, Define;
    if OnRecords(op.command) {
      RecordsKeepTargets(t, op);
    } else if !OnJobs(op.command) {
      DefinitionTargets(t, op.command);
    }
  }

  lemma EmitKeepsDefinitions(t: Tables, p: Record, op: string, ordinal: Option<nat>)
    requires Emit(t, p, op, ordinal).Ok?
    ensures SameDefinitions(t, Emit(t, p, op, ordinal).value)
  {
  }

  lemma {:induction false} BatchKeepsDefinitions(t: Tables, ps: seq<Record>, op: string, n: nat)
    requires n <= |ps| && ApplyBatch(t, ps, op, n).Ok?
    ensures SameDefinitions(t, ApplyBatch(t, ps, op, n).value)
  {
    hide PutRecord, Emit;
    if n > 0 {
      BatchOk(t, ps, op, n - 1);
      BatchKeepsDefinitions(t, ps, op, n - 1);
      var before := ApplyBatch(t, ps, op, n - 1).value;
      RecordsLeaveJournals(before, ps[n - 1]);
      EmitKeepsDefinitions(PutRecord(before, ps[n - 1]).value, ps[n - 1], op, Some(n - 1));
    }
  }

  lemma RecordsKeepTargets(t: Tables, op: Operation)
    requires OnRecords(op.command) && MutateRecords(t, op).Ok?
    ensures SameDefinitions(t, MutateRecords(t, op).value)
  {
    hide PutRecord, DeleteRecord, Emit, ApplyBatch;
    match op.command
    case RecordPut(p) =>
      RecordsLeaveJournals(t, p);
      EmitKeepsDefinitions(PutRecord(t, p).value, p, op.id, None);
    case RecordDelete(p) =>
      RecordsLeaveJournals(t, p);
      EmitKeepsDefinitions(DeleteRecord(t, p).value, p, op.id, None);
    case RecordBatchPut(ps) =>
      BatchKeepsDefinitions(t, ps, op.id, |ps|);
  }

  predicate TargetsWithin(log: Log, t: Tables) {
    t.webhooks.Keys <= HookIds(log) && t.functions.Keys <= LambdaIds(log)
  }

  lemma PutIsListed(log: Log, n: nat)
    requires n < |log| && log[n].body.Committed?
    ensures var c := log[n].body.op.command;
      (c.WebhookPut? ==> c.id in HookIds(log)) && (c.FunctionPut? ==> c.id in LambdaIds(log))
  {
  }

  lemma {:induction false} TargetsStayWithin(log: Log, n: nat)
    requires Ordered(log) && n <= |log|
    ensures TargetsWithin(log, Canon(log, n).db.tables)
  {
    hide Materialize, HookIds, LambdaIds;
    if n > 0 {
      TargetsStayWithin(log, n - 1);
      if AcceptedAt(log, n - 1) {
        CanonFacts(log, n - 1);
        TargetsComeFromPuts(Canon(log, n - 1).db.tables, log[n - 1].body.op);
        PutIsListed(log, n - 1);
      } else {
        NotAcceptedIsNoop(log, n - 1);
      }
    }
  }

  lemma TargetsStayApart(log: Log, n: nat)
    requires Ordered(log) && n <= |log| && DefinesApart(log)
    ensures TargetsApart(Canon(log, n).db.tables)
  {
    TargetsStayWithin(log, n);
    hide Canon, HookIds, LambdaIds;
  }

  /** One more payload's jobs share no key with earlier ones or with each other. */
  lemma NextDueIsDistinct(due: set<JobDue>, ids: set<string>, t: Tables, op: string, dues: seq<Due>, n: nat)
    requires DueFrom(due, ids) && op !in ids && n < |dues| && DistinctOrdinals(dues) && TargetsApart(t)
    requires DistinctKeys(due + JobsDue(t, op, dues, n))
    ensures DistinctKeys(due + JobsDue(t, op, dues, n + 1))
  {
    hide JobOf, JobKey, JobBase, JobsDueFor, DueFrom, TargetsApart, ContainsTopic;
    var earlier := due + JobsDue(t, op, dues, n);
    forall s, u | s in due + JobsDue(t, op, dues, n + 1) && u in due + JobsDue(t, op, dues, n + 1) && s.key == u.key
      ensures s == u
    {
      if s in JobsDueFor(t, op, dues[n]) {
        var x := JobsDueForKeys(t, op, dues[n], s);
        NextKeysAreNew(due, ids, t, op, dues, n, x);
        OneDuePerKey(t, op, dues[n], s, u);
      } else if u in JobsDueFor(t, op, dues[n]) {
        var x := JobsDueForKeys(t, op, dues[n], u);
        NextKeysAreNew(due, ids, t, op, dues, n, x);
      }
    }
  }

  lemma OneDuePerKey(t: Tables, op: string, d: Due, s: JobDue, u: JobDue)
    requires TargetsApart(t) && s.key == u.key
    ensures s in JobsDueFor(t, op, d) && u in JobsDueFor(t, op, d) ==> s == u
  {
    hide JobOf, JobKey, JobBase, ContainsTopic;
    JobKeyInjective(JobBase(op, d.ordinal));
  }

  lemma {:induction false} DuesAreDistinct(due: set<JobDue>, ids: set<string>, t: Tables, op: string, dues: seq<Due>, n: nat)
    requires DueFrom(due, ids) && op !in ids && n <= |dues| && DistinctOrdinals(dues) && TargetsApart(t) && DistinctKeys(due)
    ensures DistinctKeys(due + JobsDue(t, op, dues, n))
  {
    hide JobsDueFor, DueFrom, TargetsApart, DistinctKeys;
    if n == 0 {
      assert due + {} == due;
    } else {
      DuesAreDistinct(due, ids, t, op, dues, n - 1);
      NextDueIsDistinct(due, ids, t, op, dues, n - 1);
    }
  }

  lemma KeysStayDistinct(log: Log, n: nat)
    requires Ordered(log) && n < |log| && DefinesApart(log) && AcceptedAt(log, n)
    requires DistinctKeys(AllJobs(log, n)) && DueFrom(AllJobs(log, n), Canon(log, n).db.ops.Keys)
    ensures DistinctKeys(AllJobs(log, n + 1)) && DueFrom(AllJobs(log, n + 1), Canon(log, n + 1).db.ops.Keys)
  {
    CanonFacts(log, n);
    TargetsStayApart(log, n);
    var t, ids, op := Canon(log, n).db.tables, Canon(log, n).db.ops.Keys, log[n].body.op;
    assert Canon(log, n + 1).db == Durable(Materialize(t, op).value, log[n].index, log[n].term, Canon(log, n).db.ops[op.id := op.digest]);
    assert Canon(log, n + 1).db.ops.Keys == ids + {op.id};
    assert AllJobs(log, n + 1) == AllJobs(log, n) + JobsDue(t, op.id, Payloads(op), |Payloads(op)|);
    hide Canon, Materialize, JobsDue, Payloads, AcceptedAt, AllJobs, DueFrom, TargetsApart, DefinesApart, DistinctKeys;
    PayloadsHaveDistinctOrdinals(op);
    DuesAreDistinct(AllJobs(log, n), ids, t, op.id, Payloads(op), |Payloads(op)|);
    JobsJoin(t, AllJobs(log, n), ids, op);
  }

  lemma {:induction false} ApartKeysAreDistinct(log: Log, n: nat)
    requires Ordered(log) && n <= |log| && DefinesApart(log)
    ensures DistinctKeys(AllJobs(log, n)) && DueFrom(AllJobs(log, n), Canon(log, n).db.ops.Keys)
  {
    hide Canon, AcceptedAt, DueFrom, DistinctKeys, DefinesApart;
    if n == 0 {
      NothingDueAtStart(log);
    } else {
      ApartKeysAreDistinct(log, n - 1);
      if AcceptedAt(log, n - 1) { KeysStayDistinct(log, n - 1); } else { NotAcceptedIsNoop(log, n - 1); }
    }
  }

  lemma NothingDueAtStart(log: Log)
    ensures DistinctKeys(AllJobs(log, 0)) && DueFrom(AllJobs(log, 0), Canon(log, 0).db.ops.Keys)
  {
  }

  /** With target IDs free of colons and not shared between webhooks and functions, the job table always
      holds one row for each job owed and no other, and no two owed jobs share a key. */
  lemma ExactlyOnceJobs(log: Log, n: nat)
    requires Ordered(log) && n <= |log| && DefinesApart(log)
    ensures Owes(Canon(log, n).db.tables.jobs, AllJobs(log, n)) && DistinctKeys(AllJobs(log, n))
  {
    hide *;
    ApartKeysAreDistinct(log, n);
    JobsLaw(log, n);
  }

  /** The definitions a proposer makes: a fixed prefix for each kind, then a token without colons. */
  predicate ProposedIds(log: Log) {
    && (forall x :: x in HookIds(log) ==> HasPrefix(x, "wh_") && ':' !in x[3..])
    && (forall x :: x in LambdaIds(log) ==> HasPrefix(x, "fn_") && ':' !in x[3..])
  }

  /** Proposed definitions are apart, so their logs have exactly-once jobs. */
  lemma ProposedIdsAreApart(log: Log)
    requires ProposedIds(log)
    ensures DefinesApart(log)
  {
    hide HookIds, LambdaIds;
    forall x | HasPrefix(x, "wh_") || HasPrefix(x, "fn_")
      ensures ':' in x ==> ':' in x[3..]
      ensures !(HasPrefix(x, "wh_") && HasPrefix(x, "fn_"))
    {
      assert x == x[..3] + x[3..];
      assert x[..3] == "wh_" ==> x[..3][0] == 'w';
      assert x[..3] == "fn_" ==> x[..3][0] == 'f';
    }
  }

  /** Why the IDs must be apart: a function that shares a webhook's ID gets no job of its own. */
  lemma SharedTargetIdLosesAJob(jobs: JobTable, p: Record, name: string, base: string, x: string)
    requires !KeyTaken(jobs, JobKey(base, x)) && Sha(JobKey(base, x)) !in jobs
    ensures var hooked := EnqueueTargets(jobs, WebhookNotice(p, name, base), {x});
      && hooked.Ok? && Sha(JobKey(base, x)) in hooked.value
      && EnqueueTargets(hooked.value, FunctionNotice(p, name, base), {x}) == hooked
  {
    hide JobKey;
    var hooks, lambdas := WebhookNotice(p, name, base), FunctionNotice(p, name, base);
    NewJobsAt(jobs, hooks, {x}, x);
    var hooked := EnqueueTargets(jobs, hooks, {x}).value;
    assert hooked[Sha(JobKey(base, x))] == JobOf(hooks, x);
    assert KeyTaken(hooked, JobKey(base, x));
    assert NewJobs(hooked, lambdas, {x}) == map[];
    assert !Collides(hooked, lambdas, x);
    assert hooked + map[] == hooked;
  }

  /** A colon in a target ID loses a job: once the first operation's job for target x:job:y is there, the
      second operation, whose own ID ends in :job:x, enqueues nothing for its target y. */
  lemma ColonInTargetLosesAJob(jobs: JobTable, first: Record, second: Record, name: string, a: string, x: string, y: string)
    requires !KeyTaken(jobs, JobKey(JobBase(a, None), x + ":job:" + y)) && Sha(JobKey(JobBase(a, None), x + ":job:" + y)) !in jobs
    ensures var target := x + ":job:" + y; var other := a + ":job:" + x;
      var hooked := EnqueueTargets(jobs, WebhookNotice(first, name, JobBase(a, None)), {target});
      && JobKey(JobBase(a, None), target) == JobKey(JobBase(other, None), y)
      && hooked.Ok? && EnqueueTargets(hooked.value, WebhookNotice(second, name, JobBase(other, None)), {y}) == hooked
      && !Owed(hooked.value, JobDue(JobKey(JobBase(other, None), y), JobOf(WebhookNotice(second, name, JobBase(other, None)), y)))
  {
    var target, other := x + ":job:" + y, a + ":job:" + x;
    ColonInTargetCollides(a, x, y);
    assert |target| > |y|;
    hide JobKey, JobBase;
    var hooks := WebhookNotice(first, name, JobBase(a, None));
    NewJobsAt(jobs, hooks, {target}, target);
    var key := JobKey(JobBase(a, None), target);
    assert !Collides(jobs, hooks, target);
    var hooked := EnqueueTargets(jobs, hooks, {target}).value;
    assert hooked[Sha(key)] == JobOf(hooks, target);
    assert KeyTaken(hooked, key);
    var none := NewJobs(hooked, WebhookNotice(second, name, JobBase(other, None)), {y});
    assert none == map[];
    assert hooked + none == hooked;
  }
}
