/** The job worker and the job requests of internal/jobs/handler.go: a tick of the worker, standalone or
    through the replicated transitions, and the statements a standalone handler sends. */
module JobHandler {
  import opened Base
  import opened Physical
  import opened Jobs

  // ----- choosing a job -----

  /** The order of job IDs. */
  type Order = (Id, Id) -> bool

  ghost predicate TotalOrder(before: Order) {
    && (forall a, b :: before(a, b) ==> !before(b, a))
    && (forall a, b, c :: before(a, b) && before(b, c) ==> before(a, c))
    && (forall a, b :: a == b || before(a, b) || before(b, a))
  }

  predicate Eligible(t: JobTable, id: Id, now: Time) {
    id in t && t[id].status == Pending && t[id].availableAt <= now
  }

  /** ORDER BY available_at, id. */
  predicate Earlier(t: JobTable, before: Order, a: Id, b: Id)
    requires a in t && b in t
  {
    t[a].availableAt < t[b].availableAt || (t[a].availableAt == t[b].availableAt && before(a, b))
  }

  /** The row of the worker's query: the eligible job that comes first. */
  ghost predicate First(t: JobTable, before: Order, now: Time, id: Id) {
    Eligible(t, id, now) && forall other :: Eligible(t, other, now) && other != id ==> Earlier(t, before, id, other)
  }

  lemma FirstIsUnique(t: JobTable, before: Order, now: Time, a: Id, b: Id)
    requires TotalOrder(before) && First(t, before, now, a) && First(t, before, now, b)
    ensures a == b
  {
  }

  /** The first eligible job is of a kind this node can execute. */
  ghost predicate Claimable(t: JobTable, before: Order, now: Time, capable: set<string>, id: Id) {
    First(t, before, now, id) && t[id].kind in capable
  }

  /** A tick claims nothing exactly when nothing is eligible or the first eligible job is of a kind this
      node cannot execute; other eligible jobs make no difference. */
  lemma NothingClaimable(t: JobTable, before: Order, now: Time, capable: set<string>, first: Option<Id>)
    requires TotalOrder(before)
    requires first.Some? ==> First(t, before, now, first.value)
    requires first == None ==> forall id :: !Eligible(t, id, now)
    ensures (forall id :: !Claimable(t, before, now, capable, id)) <==> first == None || t[first.value].kind !in capable
  {
    if first.Some? {
      forall id | Claimable(t, before, now, capable, id)
        ensures id == first.value
      {
        FirstIsUnique(t, before, now, id, first.value);
      }
      if t[first.value].kind in capable { assert Claimable(t, before, now, capable, first.value); }
    }
  }

  /** A capable job is left behind an incapable one for as long as that one is first. */
  lemma CapableJobLeftBehind(before: Order, invocation: Job, delivery: Job, now: Time)
    requires TotalOrder(before) && invocation.status == Pending && delivery.status == Pending
    requires invocation.kind == "aws-lambda" && delivery.kind == "webhook"
    requires invocation.availableAt < delivery.availableAt <= now
    ensures var t := map[Random(0) := invocation, Random(1) := delivery];
      && Eligible(t, Random(1), now) && t[Random(1)].kind in {"webhook"}
      && forall id :: !Claimable(t, before, now, {"webhook"}, id)
  {
    var t := map[Random(0) := invocation, Random(1) := delivery];
    assert First(t, before, now, Random(0));
    NothingClaimable(t, before, now, {"webhook"}, Some(Random(0)));
  }
  // ----- standalone statements -----

  /** What finish knows when it writes: the attempts it has read, of a missing row zero of zero, and its
      clock. */
  datatype Reading = Reading(id: Id, attempts: nat, maxAttempts: nat, now: Time)

  function ReadOf(t: JobTable, id: Id, now: Time): Reading {
    if id in t then Reading(id, t[id].attempts, t[id].maxAttempts, now) else Reading(id, 0, 0, now)
  }

  function FailedJob(j: Job, r: Reading, message: string): Job {
    j.(status := if r.attempts >= r.maxAttempts then Dead else Pending,
       availableAt := r.now + Shift(Min(r.attempts, 8)),
       lease := None, lastError := Some(Truncate(message)), updatedAt := r.now)
  }

  /** The failing UPDATE of finish: whatever the row holds by now, the verdict is on what was read. */
  function AfterFailure(t: JobTable, r: Reading, message: string): JobTable {
    if r.id in t then t[r.id := FailedJob(t[r.id], r, message)] else t
  }

  /** Cancel and retry; a retry reads the clock for the availability and again for the update time. */
  function AfterAction(t: JobTable, retry: bool, id: Id, now: Time, later: Time): JobTable {
    if retry && id in t && Retryable(t[id]) then Retry(t, id, now)[id := Retry(t, id, now)[id].(updatedAt := later)]
    else if retry then t
    else Cancel(t, id, now)
  }

  ghost function AfterClaim(t: JobTable, before: Order, now: Time, capable: set<string>): JobTable {
    if id :| Claimable(t, before, now, capable, id) then t[id := ClaimedJob(t[id], now)] else t
  }

  predicate KeyKnown(t: JobTable, key: string) {
    key != "" && exists i :: i in t && t[i].key == Some(key)
  }

  function AfterSubmit(t: JobTable, kind: string, payload: Delivery, key: string, token: nat, now: Time): JobTable {
    if KeyKnown(t, key) || Random(token) in t then t
    else t[Random(token) := NewJob(kind, payload, Nullable(key), now)]
  }

  /** With nothing between its two statements a failing finish is the replicated completion. */
  lemma UndisturbedFailure(t: JobTable, id: Id, message: string, now: Time)
    ensures AfterFailure(t, ReadOf(t, id, now), message) == Complete(t, id, false, message, now)
  {
  }

  lemma RunShort(t: JobTable, trace: seq<Timed>)
    ensures |trace| == 1 ==> Run(t, trace) == Next(t, trace[0])
    ensures |trace| == 2 ==> Run(t, trace) == Next(Next(t, trace[0]), trace[1])
    ensures |trace| == 3 ==> Run(t, trace) == Next(Next(Next(t, trace[0]), trace[1]), trace[2])
  {
  }

  // ----- the handler -----

  /** What the rest of the cluster commits in the pauses of one replicated tick: before its release, before
      its selection, before its claim, and while the job executes. */
  datatype Others = Others(release: seq<Timed>, select: seq<Timed>, claim: seq<Timed>, execute: seq<Timed>)

  /** What is committed up to the selection; with nothing running no release is proposed. */
  ghost function UpToSelection(t: JobTable, o: Others, released: Time): seq<Timed> {
    if exists id :: id in t && t[id].status == Running then o.release + [Timed(DoRelease, released)] + o.select
    else [Timed(DoRelease, released)] + o.release + o.select
  }

  /** What is committed from the proposed claim on; a refused claim ends the tick. */
  function Proposals(id: Id, claimed: bool, failure: Option<string>, o: Others, claimedAt: Time, completed: Time): seq<Timed> {
    o.claim + [Timed(DoClaim(id), claimedAt)]
    + if claimed then o.execute + [Timed(DoComplete(id, failure == None, Coalesce(failure)), completed)] else []
  }

  /** jobs.Handler: each statement updates the table in place. */
  class Handler {
    var jobs: JobTable

    constructor ()
      ensures jobs == map[]
    {
      jobs := map[];
    }

    /** SELECT … WHERE status='pending' AND available_at<=? ORDER BY available_at,id LIMIT 1. */
    method NextEligible(now: Time, before: Order) returns (pick: Option<Id>)
      requires TotalOrder(before)
      ensures pick == None ==> forall id :: !Eligible(jobs, id, now)
      ensures pick.Some? ==> First(jobs, before, now, pick.value)
    {
      pick := None;
      var todo := jobs.Keys;
      while todo != {}
        invariant todo <= jobs.Keys
        invariant pick == None ==> forall id :: Eligible(jobs, id, now) ==> id in todo
        invariant pick.Some? ==> Eligible(jobs, pick.value, now)
        invariant pick.Some? ==> forall id :: Eligible(jobs, id, now) && id !in todo && id != pick.value ==>
          Earlier(jobs, before, pick.value, id)
        decreases |todo|
      {
        var id :| id in todo;
        todo := todo - {id};
        if Eligible(jobs, id, now) && (pick == None || Earlier(jobs, before, id, pick.value)) {
          pick := Some(id);
        }
      }
    }

    /** UPDATE … SET status='succeeded' … WHERE id=?. */
    method Succeed(id: Id, now: Time)
      modifies this
      ensures jobs == Complete(old(jobs), id, true, "", now)
    {
      if id in jobs {
        jobs := jobs[id := jobs[id].(status := Succeeded, lease := None, lastError := None, updatedAt := now)];
      }
    }

    /** SELECT attempts,max_attempts … WHERE id=?. */
    method ReadAttempts(id: Id, now: Time) returns (r: Reading)
      ensures r == ReadOf(jobs, id, now)
    {
      var attempts, max := 0, 0;
      if id in jobs { attempts, max := jobs[id].attempts, jobs[id].maxAttempts; }
      return Reading(id, attempts, max, now);
    }

    /** UPDATE … SET status=?,available_at=? … WHERE id=?. */
    method WriteFailure(r: Reading, failure: string)
      modifies this
      ensures jobs == AfterFailure(old(jobs), r, failure)
    {
      var status := Pending;
      if r.attempts >= r.maxAttempts { status := Dead; }
      var delay := Shift(Min(r.attempts, 8));
      var message := Truncate(failure);
      if r.id in jobs {
        jobs := jobs[r.id := jobs[r.id].(status := status, availableAt := r.now + delay, lease := None,
                     lastError := Some(message), updatedAt := r.now)];
      }
    }

    /** finish with nothing between its statements. */
    method Finish(id: Id, failure: Option<string>, now: Time)
      modifies this
      ensures jobs == Complete(old(jobs), id, failure == None, Coalesce(failure), now)
    {
      if failure == None {
        Succeed(id, now);
        return;
      }
      var r := ReadAttempts(id, now);
      UndisturbedFailure(jobs, id, failure.value, now);
      WriteFailure(r, failure.value);
    }

    /** runOneLocal with nothing in between: release, claim, execute, finish. The executor's outcome and
        the clock of the finish are inputs; `trace` lists the replicated steps that compute the same
        table. */
    method RunOneLocal(now: Time, before: Order, capable: set<string>, failure: Option<string>, later: Time) returns (trace: seq<Timed>)
      requires TotalOrder(before)
      modifies this
      ensures jobs == Run(old(jobs), trace) && LegalTrace(trace)
      ensures |trace| == 1 || |trace| == 3
      ensures trace[0] == Timed(DoRelease, now)
      ensures |trace| == 3 <==> exists id :: Claimable(ReleaseStale(old(jobs), now), before, now, capable, id)
      ensures |trace| == 3 ==> trace[1].step.DoClaim? && trace[1].now == now
      ensures |trace| == 3 ==> Claimable(ReleaseStale(old(jobs), now), before, now, capable, trace[1].step.id)
      ensures |trace| == 3 ==> trace[2] == Timed(DoComplete(trace[1].step.id, failure == None, Coalesce(failure)), later)
    {
      trace := [Timed(DoRelease, now)];
      ghost var start := jobs;
      ReleaseExpired(now);
      RunShort(start, trace);
      var claimed := ClaimNext(now, before, capable);
      if claimed == None {
        return;
      }
      Finish(claimed.value, failure, later);
      trace := trace + [Timed(DoClaim(claimed.value), now), Timed(DoComplete(claimed.value, failure == None, Coalesce(failure)), later)];
      RunShort(start, trace);
    }

    /** The claiming transaction: select, check the capability, lease. */
    method ClaimNext(now: Time, before: Order, capable: set<string>) returns (claimed: Option<Id>)
      requires TotalOrder(before)
      modifies this
      ensures claimed.Some? <==> exists id :: Claimable(old(jobs), before, now, capable, id)
      ensures claimed.Some? ==> Claimable(old(jobs), before, now, capable, claimed.value)
      ensures claimed.Some? ==> Claim(old(jobs), claimed.value, now) == Ok(jobs)
      ensures jobs == AfterClaim(old(jobs), before, now, capable)
      ensures claimed == None ==> jobs == old(jobs)
    {
      ghost var start := jobs;
      var pick := NextEligible(now, before);
      NothingClaimable(jobs, before, now, capable, pick);
      if pick == None || jobs[pick.value].kind !in capable {
        return None;
      }
      var id := pick.value;
      jobs := jobs[id := jobs[id].(status := Running, attempts := jobs[id].attempts + 1,
                   lease := Some(now + LEASE_SECONDS), updatedAt := now)];
      assert Claimable(start, before, now, capable, id);
      forall other | Claimable(start, before, now, capable, other)
        ensures other == id
      {
        FirstIsUnique(start, before, now, other, id);
      }
      return pick;
    }

    method ReleaseExpired(now: Time)
      modifies this
      ensures jobs == ReleaseStale(old(jobs), now)
    {
      jobs := map id | id in jobs :: if Stale(jobs[id], now)
        then jobs[id].(status := Pending, lease := None, updatedAt := now) else jobs[id];
    }

    /** hasRunning and the release it guards, with what the others commit up to the selection. */
    method ReleaseIfRunning(others: Others, released: Time)
      modifies this
      ensures jobs == Run(old(jobs), UpToSelection(old(jobs), others, released))
    {
      hide Run, ReleaseStale;
      ghost var start, release := jobs, [Timed(DoRelease, released)];
      ghost var trace := release + others.release;
      if exists id :: id in jobs && jobs[id].status == Running {
        CommittedRelease(start, others.release, released);
        jobs := Run(jobs, others.release);
        jobs := ReleaseStale(jobs, released);
        trace := others.release + release;
      } else {
        SkippedRelease(start, released);
        RunConcat(start, release, others.release);
        jobs := Run(jobs, others.release);
      }
      RunConcat(start, trace, others.select);
      jobs := Run(jobs, others.select);
    }

    /** runOneReplicated: the same selection, but each transition is proposed, carries the timestamp it is
        committed with, and meets whatever the others have committed by then. */
    method RunOneReplicated(now: Time, before: Order, capable: set<string>, failure: Option<string>,
        others: Others, released: Time, claimedAt: Time, completed: Time) returns (picked: Option<Id>, claimed: bool)
      requires TotalOrder(before)
      modifies this
      ensures var seen := Run(old(jobs), UpToSelection(old(jobs), others, released));
        && (picked == None <==> forall id :: !Claimable(seen, before, now, capable, id))
        && (picked.Some? ==> Claimable(seen, before, now, capable, picked.value))
      ensures var proposed := UpToSelection(old(jobs), others, released) + others.claim;
        claimed <==> picked.Some? && Claim(Run(old(jobs), proposed), picked.value, claimedAt).Ok?
      ensures jobs == Run(old(jobs), UpToSelection(old(jobs), others, released)
        + if picked == None then [] else Proposals(picked.value, claimed, failure, others, claimedAt, completed))
    {
      hide UpToSelection, TotalOrder, Earlier;
      ghost var start, trace := jobs, UpToSelection(jobs, others, released);
      claimed := false;
      ReleaseIfRunning(others, released);
      picked := NextEligible(now, before);
      NothingClaimable(jobs, before, now, capable, picked);
      if picked == None || jobs[picked.value].kind !in capable {
        picked := None;
        assert trace + [] == trace;
        return;
      }
      claimed := ClaimAndComplete(picked.value, failure, others, claimedAt, completed);
      RunConcat(start, trace, Proposals(picked.value, claimed, failure, others, claimedAt, completed));
      RunConcat(start, trace, others.claim);
    }

    /** The two proposals about the selected job. */
    method ClaimAndComplete(id: Id, failure: Option<string>, others: Others, claimedAt: Time, completed: Time) returns (claimed: bool)
      modifies this
      ensures claimed <==> Claim(Run(old(jobs), others.claim), id, claimedAt).Ok?
      ensures jobs == Run(old(jobs), Proposals(id, claimed, failure, others, claimedAt, completed))
    {
      ghost var start, trace := jobs, others.claim;
      jobs := Run(jobs, others.claim);
      var claim := Claim(jobs, id, claimedAt);
      claimed := claim.Ok?;
      Committed(start, trace, [Timed(DoClaim(id), claimedAt)]);
      trace := trace + [Timed(DoClaim(id), claimedAt)];
      if !claimed {
        assert trace + [] == trace;
        return;
      }
      ghost var complete := [Timed(DoComplete(id, failure == None, Coalesce(failure)), completed)];
      Committed(start, trace, others.execute);
      Committed(start, trace + others.execute, complete);
      jobs := Run(claim.value, others.execute);
      jobs := Complete(jobs, id, failure == None, Coalesce(failure), completed);
      assert trace + others.execute + complete == trace + (others.execute + complete);
    }

    /** action: cancel and retry. */
    method Action(retry: bool, id: Id, now: Time, later: Time)
      modifies this
      ensures jobs == AfterAction(old(jobs), retry, id, now, later)
      ensures !retry || now == later ==> jobs == Next(old(jobs), Timed(if retry then DoRetry(id) else DoCancel(id), now))
    {
      if retry {
        if id in jobs && jobs[id].status in {Dead, Cancelled} {
          jobs := jobs[id := jobs[id].(status := Pending, attempts := 0, availableAt := now,
                       lease := None, lastError := None, updatedAt := later)];
        }
      } else {
        if id in jobs && jobs[id].status in {Pending, Running} {
          jobs := jobs[id := jobs[id].(status := Cancelled, lease := None, updatedAt := now)];
        }
      }
    }

    /** Enqueue: at most one job per idempotency key, and a retried submission gets the job it made. */
    method Enqueue(kind: string, payload: Delivery, idempotency: string, now: Time, token: nat) returns (id: Id, created: bool)
      requires Random(token) !in jobs
      modifies this
      ensures jobs == AfterSubmit(old(jobs), kind, payload, idempotency, token, now)
      ensures created <==> !KeyKnown(old(jobs), idempotency)
      ensures created ==> id !in old(jobs)
      ensures created ==> jobs == Next(old(jobs), Timed(DoEnqueue(id, NewJob(kind, payload, Nullable(idempotency), now)), now))
      ensures !created ==> jobs == old(jobs) && id in jobs && jobs[id].key == Some(idempotency)
    {
      if idempotency != "" && exists i :: i in jobs && jobs[i].key == Some(idempotency) {
        id :| id in jobs && jobs[id].key == Some(idempotency);
        created := false;
      } else {
        id := Random(token);
        created := true;
        jobs := jobs[id := NewJob(kind, payload, Nullable(idempotency), now)];
      }
    }
  }

  lemma CommittedRelease(t: JobTable, trace: seq<Timed>, now: Time)
    ensures Run(t, trace + [Timed(DoRelease, now)]) == ReleaseStale(Run(t, trace), now)
  {
    Committed(t, trace, [Timed(DoRelease, now)]);
  }

  lemma SkippedRelease(t: JobTable, now: Time)
    requires forall id :: id in t ==> t[id].status != Running
    ensures Run(t, [Timed(DoRelease, now)]) == t
  {
    RunShort(t, [Timed(DoRelease, now)]);
    IdleReleaseIsNoop(t, now);
  }

  /** Committing more after a trace. */
  lemma Committed(t: JobTable, trace: seq<Timed>, more: seq<Timed>)
    ensures Run(t, trace + more) == Run(Run(t, trace), more)
    ensures |more| == 1 ==> Run(t, trace + more) == Next(Run(t, trace), more[0])
  {
    RunConcat(t, trace, more);
    RunShort(Run(t, trace), more);
  }
}
