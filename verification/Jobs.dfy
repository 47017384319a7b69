/** The durable job table: the replicated transitions of internal/replicated/fsm.go and the laws every
    run of them obeys. */
module Jobs {
  import opened Base
  import opened Physical

  datatype Status = Pending | Running | Succeeded | Cancelled | Dead

  /** A webhook delivery or function invocation. */
  datatype Delivery = Delivery(target: string, topic: string, collection: string, record: string, payload: Json, deliveryId: Id)

  datatype Job = Job(
    kind: string, payload: Delivery, status: Status, attempts: nat, maxAttempts: nat,
    availableAt: Time, lease: Option<Time>, key: Option<string>, lastError: Option<string>,
    createdAt: Time, updatedAt: Time)

  type JobTable = map<Id, Job>

  const DEFAULT_MAX_ATTEMPTS: nat := 5
  const LEASE_SECONDS := 30

  /** The row an enqueue inserts; unnamed columns take their schema defaults. */
  function NewJob(kind: string, payload: Delivery, key: Option<string>, at: Time): Job {
    Job(kind, payload, Pending, 0, DEFAULT_MAX_ATTEMPTS, at, None, key, None, at, at)
  }

  function Shift(n: nat): nat {
    if n == 0 then 1 else 2 * Shift(n - 1)
  }

  function Min(a: nat, b: nat): nat { if a < b then a else b }

  function Truncate(message: string): string {
    if |message| > 500 then message[..500] else message
  }

  // ----- replicated transitions -----

  function ClaimedJob(j: Job, now: Time): Job {
    j.(status := Running, attempts := j.attempts + 1, lease := Some(now + LEASE_SECONDS), updatedAt := now)
  }

  /** applyJobClaim. */
  function Claim(t: JobTable, id: Id, now: Time): Result<JobTable> {
    if id !in t then Ok(t)
    else if t[id].status != Pending || t[id].availableAt > now then Err(StalePrecondition)
    else Ok(t[id := ClaimedJob(t[id], now)])
  }

  /** applyJobComplete. */
  function Complete(t: JobTable, id: Id, ok: bool, message: string, now: Time): JobTable {
    if id !in t then t
    else
      var j := t[id];
      if ok then
        t[id := j.(status := Succeeded, lease := None, lastError := None, updatedAt := now)]
      else
        t[id := j.(
            status := if j.attempts >= j.maxAttempts then Dead else Pending,
            availableAt := now + Shift(Min(j.attempts, 8)),
            lease := None, lastError := Some(Truncate(message)), updatedAt := now)]
  }

  predicate Stale(j: Job, now: Time) {
    j.status == Running && j.lease.Some? && j.lease.value < now
  }

  function ReleasedJob(j: Job, now: Time): Job {
    if Stale(j, now) then j.(status := Pending, lease := None, updatedAt := now) else j
  }

  /** applyJobReleaseStale. */
  function ReleaseStale(t: JobTable, now: Time): JobTable {
    map id | id in t :: ReleasedJob(t[id], now)
  }

  /** applyJobCancel. */
  function Cancel(t: JobTable, id: Id, now: Time): JobTable {
    if id in t && (t[id].status == Pending || t[id].status == Running) then
      t[id := t[id].(status := Cancelled, lease := None, updatedAt := now)]
    else t
  }

  predicate Retryable(j: Job) { j.status == Dead || j.status == Cancelled }

  /** applyJobRetry. */
  function Retry(t: JobTable, id: Id, now: Time): JobTable {
    if id in t && Retryable(t[id]) then
      t[id := t[id].(status := Pending, attempts := 0, availableAt := now, lease := None, lastError := None, updatedAt := now)]
    else t
  }

  // ----- runs -----

  datatype JobStep =
    | DoEnqueue(id: Id, job: Job)
    | DoClaim(id: Id)
    | DoComplete(id: Id, ok: bool, message: string)
    | DoRelease
    | DoCancel(id: Id)
    | DoRetry(id: Id)

  datatype Timed = Timed(step: JobStep, now: Time)

  /** An inserted row is a new job with room for one attempt. */
  predicate Fresh(j: Job) {
    j.status == Pending && j.attempts == 0 && j.maxAttempts >= 1 && j.lease == None
  }

  predicate Legal(x: Timed) {
    x.step.DoEnqueue? ==> Fresh(x.step.job)
  }

  predicate LegalTrace(trace: seq<Timed>) {
    forall i :: 0 <= i < |trace| ==> Legal(trace[i])
  }

  /** One committed step; a rejected claim leaves the table as it was. */
  function Next(t: JobTable, x: Timed): JobTable {
    match x.step
    case DoEnqueue(id, job) => if id in t then t else t[id := job]
    case DoClaim(id) => var r := Claim(t, id, x.now); if r.Ok? then r.value else t
    case DoComplete(id, ok, message) => Complete(t, id, ok, message, x.now)
    case DoRelease => ReleaseStale(t, x.now)
    case DoCancel(id) => Cancel(t, id, x.now)
    case DoRetry(id) => Retry(t, id, x.now)
  }

  function Run(t: JobTable, trace: seq<Timed>): JobTable {
    if trace == [] then t else Next(Run(t, trace[..|trace| - 1]), trace[|trace| - 1])
  }

  lemma {:induction false} RunConcat(t: JobTable, a: seq<Timed>, b: seq<Timed>)
    ensures Run(t, a + b) == Run(Run(t, a), b)
  {
    if b == [] {
      assert a + b == a;
    } else {
      RunConcat(t, a, b[..|b| - 1]);
      assert (a + b)[..|a + b| - 1] == a + b[..|b| - 1];
    }
  }

  /** The lease releases of a job since its insertion or last retry, counted through one step. */
  function Released(t: JobTable, x: Timed, id: Id, n: nat): nat {
    if id !in t then 0
    else if x.step == DoRetry(id) && Retryable(t[id]) then 0
    else if x.step.DoRelease? && Stale(t[id], x.now) then n + 1
    else n
  }

  function Releases(trace: seq<Timed>, id: Id): nat {
    if trace == [] then 0
    else Released(Run(map[], trace[..|trace| - 1]), trace[|trace| - 1], id, Releases(trace[..|trace| - 1], id))
  }

  ghost predicate Lawful(j: Job, releases: nat) {
    && j.maxAttempts >= 1
    && j.attempts <= j.maxAttempts + releases
    && (j.status == Pending ==> j.attempts < j.maxAttempts + releases)
    && (j.status == Running <==> j.lease.Some?)
  }

  lemma LawStep(t: JobTable, x: Timed, id: Id, n: nat)
    requires Legal(x) && id in Next(t, x) && (id in t ==> Lawful(t[id], n))
    ensures Lawful(Next(t, x)[id], Released(t, x, id, n))
  {
  }

  /** Over every run from an empty table: attempts never exceed the maximum plus the lease releases
      since creation or the last retry, and a job runs exactly while it holds a lease. */
  lemma {:induction false} AttemptLaw(trace: seq<Timed>, id: Id)
    requires LegalTrace(trace)
    requires id in Run(map[], trace)
    ensures Lawful(Run(map[], trace)[id], Releases(trace, id))
  {
    var before, x := trace[..|trace| - 1], trace[|trace| - 1];
    assert Legal(x);
    if id in Run(map[], before) { AttemptLaw(before, id); }
    LawStep(Run(map[], before), x, id, Releases(before, id));
  }

  /** In every run a job is dead only with all its attempts used up. */
  lemma {:induction false} DeadLaw(trace: seq<Timed>, id: Id)
    requires LegalTrace(trace)
    requires id in Run(map[], trace)
    ensures var j := Run(map[], trace)[id]; j.maxAttempts >= 1 && (j.status == Dead ==> j.attempts >= j.maxAttempts)
  {
    var before, x := trace[..|trace| - 1], trace[|trace| - 1];
    assert Legal(x);
    if id in Run(map[], before) { DeadLaw(before, id); }
  }

  predicate ClaimsAt(trace: seq<Timed>, i: nat, id: Id)
    requires i < |trace|
  {
    && trace[i].step == DoClaim(id)
    && id in Run(map[], trace[..i])
    && Claim(Run(map[], trace[..i]), id, trace[i].now).Ok?
  }

  /** A step after which a claimed job may be claimed again. */
  predicate Frees(x: Timed, id: Id, claimedAt: Time) {
    || (x.step.DoComplete? && x.step.id == id)
    || x.step == DoCancel(id)
    || (x.step.DoRelease? && x.now > claimedAt + LEASE_SECONDS)
  }

  /** The job runs under the lease of a claim at that time. */
  predicate Leased(t: JobTable, id: Id, claimedAt: Time) {
    id in t && t[id].status == Running && t[id].lease == Some(claimedAt + LEASE_SECONDS)
  }

  lemma LeaseStep(t: JobTable, x: Timed, id: Id, claimedAt: Time)
    requires Leased(t, id, claimedAt) && !Frees(x, id, claimedAt)
    ensures Leased(Next(t, x), id, claimedAt)
  {
  }

  /** While nothing frees a claimed job it keeps running under the lease of its claim. */
  lemma {:induction false} LeaseHolds(trace: seq<Timed>, i: nat, id: Id, upTo: nat)
    requires i < upTo <= |trace| && ClaimsAt(trace, i, id)
    requires forall k :: i < k < upTo ==> !Frees(trace[k], id, trace[i].now)
    ensures Leased(Run(map[], trace[..upTo]), id, trace[i].now)
  {
    assert trace[..upTo][..upTo - 1] == trace[..upTo - 1];
    if upTo > i + 1 {
      LeaseHolds(trace, i, id, upTo - 1);
      LeaseStep(Run(map[], trace[..upTo - 1]), trace[upTo - 1], id, trace[i].now);
    }
  }

  /** Between two successful claims of a job there is a completion, a cancel, or a release strictly
      later than the first claim's lease. */
  lemma ClaimsAreSeparated(trace: seq<Timed>, i: nat, j: nat, id: Id)
    requires i < j < |trace|
    requires ClaimsAt(trace, i, id) && ClaimsAt(trace, j, id)
    ensures exists k :: i < k < j && Frees(trace[k], id, trace[i].now)
  {
    if forall k :: i < k < j ==> !Frees(trace[k], id, trace[i].now) {
      LeaseHolds(trace, i, id, j);
    }
  }

  /** A release with nothing running changes nothing, so the replicated worker may skip it. */
  lemma IdleReleaseIsNoop(t: JobTable, now: Time)
    requires forall id :: id in t ==> t[id].status != Running
    ensures ReleaseStale(t, now) == t
  {
  }
}
