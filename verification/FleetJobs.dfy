/** The job run law on the replicated log: every table the log produces obeys it, whatever other
    operations are interleaved (internal/replicated/fsm.go). */
module FleetJobs {
  import opened Base
  import opened Physical
  import opened Jobs
  import opened JobFates
  import opened Tables
  import opened Consequences
  import opened Fsm
  import opened Runs

  /** The job transition of an operation. */
  function StepOf(op: Operation): Timed
    requires OnJobs(op.command)
  {
    Timed(match op.command
          case JobClaim(id) => DoClaim(id)
          case JobComplete(id, ok, message) => DoComplete(id, ok, message)
          case JobReleaseStale => DoRelease
          case JobCancel(id) => DoCancel(id)
          case JobRetry(id) => DoRetry(id), op.now)
  }

  /** Nothing but new jobs. */
  predicate OnlyInserts(jobs: JobTable, next: JobTable) {
    && (forall i :: i in jobs ==> i in next && next[i] == jobs[i])
    && (forall i :: i in next && i !in jobs ==> Fresh(next[i]))
  }

  lemma TransitIsNext(t: Tables, op: Operation)
    requires OnJobs(op.command) && Materialize(t, op).Ok?
    ensures Materialize(t, op).value.jobs == Next(t.jobs, StepOf(op)) && Legal(StepOf(op))
  {
    hide MutateRecords, Define, Claim, Jobs.Complete, ReleaseStale, Cancel, Retry;
  }

  lemma EnqueueOnlyInserts(jobs: JobTable, n: Notice, targets: set<string>)
    requires EnqueueTargets(jobs, n, targets).Ok?
    ensures OnlyInserts(jobs, EnqueueTargets(jobs, n, targets).value)
  {
  }

  lemma InsertsCompose(a: JobTable, b: JobTable, c: JobTable)
    requires OnlyInserts(a, b) && OnlyInserts(b, c)
    ensures OnlyInserts(a, c)
  {
  }

  lemma InsertsNothing(a: JobTable)
    ensures OnlyInserts(a, a)
  {
  }

  lemma EmitOnlyInserts(t: Tables, p: Record, op: string, ordinal: Option<nat>)
    requires Emit(t, p, op, ordinal).Ok?
    ensures OnlyInserts(t.jobs, Emit(t, p, op, ordinal).value.jobs)
  {
    hide OnlyInserts, EnqueueTargets, EmitEvent, EmitAudit, MatchingWebhooks, MatchingFunctions;
    InsertsNothing(t.jobs);
    if p.topic != "" {
      var name, base := t.collections[p.collection].name, JobBase(op, ordinal);
      var hooks, lambdas := WebhookNotice(p, name, base), FunctionNotice(p, name, base);
      EnqueueOnlyInserts(t.jobs, hooks, MatchingWebhooks(t, p.topic));
      var hooked := EnqueueTargets(t.jobs, hooks, MatchingWebhooks(t, p.topic)).value;
      EnqueueOnlyInserts(hooked, lambdas, MatchingFunctions(t, p.topic));
      InsertsCompose(t.jobs, hooked, EnqueueTargets(hooked, lambdas, MatchingFunctions(t, p.topic)).value);
    }
  }

  lemma {:induction false} BatchOnlyInserts(t: Tables, ps: seq<Record>, op: string, n: nat)
    requires n <= |ps| && ApplyBatch(t, ps, op, n).Ok?
    ensures OnlyInserts(t.jobs, ApplyBatch(t, ps, op, n).value.jobs)
  {
    hide OnlyInserts, Emit, PutRecord;
    InsertsNothing(t.jobs);
    if n > 0 {
      BatchOk(t, ps, op, n - 1);
      BatchOnlyInserts(t, ps, op, n - 1);
      var before := ApplyBatch(t, ps, op, n - 1).value;
      RecordsLeaveJournals(before, ps[n - 1]);
      EmitOnlyInserts(PutRecord(before, ps[n - 1]).value, ps[n - 1], op, Some(n - 1));
      InsertsCompose(t.jobs, before.jobs, ApplyBatch(t, ps, op, n).value.jobs);
    }
  }

  /** Every operation that is not a job transition only inserts jobs. */
  lemma OthersOnlyInsert(t: Tables, op: Operation)
    requires !OnJobs(op.command) && Materialize(t, op).Ok?
    ensures OnlyInserts(t.jobs, Materialize(t, op).value.jobs)
  {
    hide OnlyInserts, Emit, PutRecord, DeleteRecord, ApplyBatch, Define;
    InsertsNothing(t.jobs);
    match op.command
    case RecordPut(p) =>
      RecordsLeaveJournals(t, p);
      EmitOnlyInserts(PutRecord(t, p).value, p, op.id, None);
    case RecordDelete(p) =>
      RecordsLeaveJournals(t, p);
      EmitOnlyInserts(DeleteRecord(t, p).value, p, op.id, None);
    case RecordBatchPut(ps) => BatchOnlyInserts(t, ps, op.id, |ps|);
    case _ => DefinitionsLeaveJournals(t, op.command);
  }

  // ----- whole logs -----

  function JobsAt(log: Log, n: nat): JobTable
    requires n <= |log|
  {
    Canon(log, n).db.tables.jobs
  }

  /** Lease releases of a job among the accepted entries, since its insertion or last retry. */
  function LeaseReleases(log: Log, n: nat, id: Id): nat
    requires n <= |log|
  {
    if n == 0 then 0
    else if !AcceptedAt(log, n - 1) then LeaseReleases(log, n - 1, id)
    else if OnJobs(log[n - 1].body.op.command) then
      Released(JobsAt(log, n - 1), StepOf(log[n - 1].body.op), id, LeaseReleases(log, n - 1, id))
    else if id in JobsAt(log, n - 1) then LeaseReleases(log, n - 1, id)
    else 0
  }

  /** An accepted entry is a job transition or only inserts jobs. */
  lemma JobsMove(log: Log, n: nat)
    requires Ordered(log) && n < |log|
    ensures AcceptedAt(log, n) ==> log[n].body.Committed?
    ensures !AcceptedAt(log, n) ==> JobsAt(log, n + 1) == JobsAt(log, n)
    ensures AcceptedAt(log, n) && OnJobs(log[n].body.op.command) ==>
      JobsAt(log, n + 1) == Next(JobsAt(log, n), StepOf(log[n].body.op)) && Legal(StepOf(log[n].body.op))
    ensures AcceptedAt(log, n) && !OnJobs(log[n].body.op.command) ==> OnlyInserts(JobsAt(log, n), JobsAt(log, n + 1))
  {
    hide Materialize, OnlyInserts, OnJobs, StepOf, Next;
    CanonFacts(log, n);
    if AcceptedAt(log, n) {
      var op := log[n].body.op;
      if OnJobs(op.command) {
        TransitIsNext(Canon(log, n).db.tables, op);
      } else {
        OthersOnlyInsert(Canon(log, n).db.tables, op);
      }
    } else {
      NotAcceptedIsNoop(log, n);
    }
  }

  lemma FreshIsLawful(jobs: JobTable, next: JobTable, id: Id, n: nat)
    requires OnlyInserts(jobs, next) && id in next && (id in jobs ==> Lawful(jobs[id], n))
    ensures Lawful(next[id], if id in jobs then n else 0)
  {
  }

  lemma NoJobsAtFirst(log: Log)
    ensures JobsAt(log, 0) == map[]
  {
  }

  /** The run law on the log: in every table it produces, a job's attempts stay within its maximum plus
      its lease releases, and it runs exactly while it holds a lease. */
  lemma {:induction false} FleetAttemptLaw(log: Log, n: nat, id: Id)
    requires Ordered(log) && n <= |log| && id in JobsAt(log, n)
    ensures Lawful(JobsAt(log, n)[id], LeaseReleases(log, n, id))
  {
    hide JobsAt, AcceptedAt, OnlyInserts, OnJobs, StepOf, Next, Lawful, Released;
    if n == 0 {
      NoJobsAtFirst(log);
      return;
    }
    JobsMove(log, n - 1);
    if id in JobsAt(log, n - 1) { FleetAttemptLaw(log, n - 1, id); }
    if AcceptedAt(log, n - 1) {
      var op := log[n - 1].body.op;
      if OnJobs(op.command) {
        LawStep(JobsAt(log, n - 1), StepOf(op), id, LeaseReleases(log, n - 1, id));
      } else {
        FreshIsLawful(JobsAt(log, n - 1), JobsAt(log, n), id, LeaseReleases(log, n - 1, id));
      }
    }
  }

  /** An accepted entry that claims an existing job. */
  predicate ClaimedAt(log: Log, p: nat, id: Id)
    requires p < |log|
  {
    AcceptedAt(log, p) && log[p].body.op.command == JobClaim(id) && id in JobsAt(log, p)
  }

  /** An accepted entry after which the job may be claimed again. */
  predicate FreedAt(log: Log, k: nat, id: Id, claimedAt: Time)
    requires k < |log|
  {
    AcceptedAt(log, k) && OnJobs(log[k].body.op.command) && Frees(StepOf(log[k].body.op), id, claimedAt)
  }

  lemma InsertsKeepLeases(jobs: JobTable, next: JobTable, id: Id, claimedAt: Time)
    requires OnlyInserts(jobs, next) && Leased(jobs, id, claimedAt)
    ensures Leased(next, id, claimedAt)
  {
  }

  lemma ClaimLeases(jobs: JobTable, id: Id, now: Time)
    requires id in jobs && Claim(jobs, id, now).Ok?
    ensures Leased(Next(jobs, Timed(DoClaim(id), now)), id, now)
  {
  }

  lemma ClaimAccepted(t: Tables, op: Operation, id: Id)
    requires op.command == JobClaim(id) && Materialize(t, op).Ok?
    ensures Claim(t.jobs, id, op.now).Ok? && OnJobs(op.command) && StepOf(op) == Timed(DoClaim(id), op.now)
  {
  }

  lemma ClaimedIsLeased(log: Log, p: nat, id: Id)
    requires Ordered(log) && p < |log| && ClaimedAt(log, p, id)
    ensures Leased(JobsAt(log, p + 1), id, log[p].body.op.now)
  {
    hide Materialize, OnJobs, StepOf, Leased, Canon, OnlyInserts, Next, Claim;
    var op := log[p].body.op;
    JobsMove(log, p);
    ClaimAccepted(Canon(log, p).db.tables, op, id);
    ClaimLeases(JobsAt(log, p), id, op.now);
  }

  lemma {:induction false} LeaseHoldsOnLog(log: Log, p: nat, id: Id, upTo: nat)
    requires Ordered(log) && p < upTo <= |log| && ClaimedAt(log, p, id)
    requires forall k :: p < k < upTo ==> !FreedAt(log, k, id, log[p].body.op.now)
    ensures Leased(JobsAt(log, upTo), id, log[p].body.op.now)
  {
    hide JobsAt, AcceptedAt, OnlyInserts, OnJobs, StepOf, Next, Leased, Frees, ClaimedAt;
    assert log[p].body.Committed? by { ClaimedIsCommitted(log, p, id); }
    if upTo == p + 1 {
      ClaimedIsLeased(log, p, id);
    } else {
      var k, at := upTo - 1, log[p].body.op.now;
      LeaseHoldsOnLog(log, p, id, k);
      JobsMove(log, k);
      assert !FreedAt(log, k, id, at);
      if AcceptedAt(log, k) {
        if OnJobs(log[k].body.op.command) {
          LeaseStep(JobsAt(log, k), StepOf(log[k].body.op), id, at);
        } else {
          InsertsKeepLeases(JobsAt(log, k), JobsAt(log, k + 1), id, at);
        }
      }
    }
  }

  lemma ClaimedIsCommitted(log: Log, p: nat, id: Id)
    requires p < |log| && ClaimedAt(log, p, id)
    ensures log[p].body.Committed? && AcceptedAt(log, p)
  {
  }

  /** Between two accepted claims of a job the log holds its completion, its cancellation, or a release
      strictly later than the first claim's lease. */
  lemma FleetClaimsAreSeparated(log: Log, p: nat, q: nat, id: Id)
    requires Ordered(log) && p < q < |log| && ClaimedAt(log, p, id) && ClaimedAt(log, q, id)
    ensures exists k :: p < k < q && FreedAt(log, k, id, log[p].body.op.now)
  {
    hide Materialize, OnJobs, StepOf, FreedAt, Canon;
    if forall k :: p < k < q ==> !FreedAt(log, k, id, log[p].body.op.now) {
      ClaimAccepted(Canon(log, q).db.tables, log[q].body.op, id);
      LeaseHoldsOnLog(log, p, id, q);
    }
  }

  // ----- one committed job operation -----

  /** A claim is rejected as stale for a job that is there but not pending or not due; every other job
      operation is accepted. */
  lemma JobOperationOutcome(t: Tables, op: Operation)
    requires OnJobs(op.command)
    ensures Materialize(t, op).Err? <==>
      (op.command.JobClaim? && op.command.job in t.jobs
       && (t.jobs[op.command.job].status != Pending || t.jobs[op.command.job].availableAt > op.now))
    ensures Materialize(t, op).Err? ==> Materialize(t, op) == Err(StalePrecondition)
  {
    hide MutateRecords, Define, Complete, ReleaseStale, Cancel, Retry;
  }

  /** What an accepted job operation makes of a row. */
  predicate MadeOf(j: Job, op: Operation, id: Id, k: Job)
    requires OnJobs(op.command)
  {
    match op.command
    case JobClaim(i) => if i == id then Makes(j, Timed(DoClaim(id), op.now), k) else k == j
    case JobComplete(i, ok, message) => if i == id then Makes(j, Timed(DoComplete(id, ok, message), op.now), k) else k == j
    case JobReleaseStale =>
      if j.status == Running && j.lease.Some? && j.lease.value < op.now then Makes(j, Timed(DoRelease, op.now), k) else k == j
    case JobCancel(i) => if i == id && j.status in {Pending, Running} then Makes(j, Timed(DoCancel(id), op.now), k) else k == j
    case JobRetry(i) => if i == id && j.status in {Dead, Cancelled} then Makes(j, Timed(DoRetry(id), op.now), k) else k == j
  }

  lemma TakenIsMade(jobs: JobTable, op: Operation, id: Id, k: Job)
    requires OnJobs(op.command) && id in jobs
    requires op.command.JobClaim? && op.command.job == id ==> jobs[id].status == Pending && jobs[id].availableAt <= op.now
    requires if Takes(jobs, StepOf(op), id) then Makes(jobs[id], StepOf(op), k) else k == jobs[id]
    ensures MadeOf(jobs[id], op, id, k)
  {
    hide Makes;
  }

  /** An accepted job operation: claiming, completing, cancelling and retrying touch their own job where they
      apply, a release every expired one, and nothing touches another. */
  lemma JobOperationMakes(t: Tables, op: Operation, id: Id)
    requires OnJobs(op.command) && Materialize(t, op).Ok? && id in t.jobs
    ensures id in Materialize(t, op).value.jobs && MadeOf(t.jobs[id], op, id, Materialize(t, op).value.jobs[id])
  {
    hide Materialize, Makes, MadeOf, Next, StepOf, Takes;
    JobOperationOutcome(t, op);
    TransitIsNext(t, op);
    StepTakes(t.jobs, StepOf(op), id);
    TakenIsMade(t.jobs, op, id, Materialize(t, op).value.jobs[id]);
  }
}
