/** Interleavings of standalone job statements (internal/jobs/handler.go): which of them the replicated
    transitions explain, and what all of them keep. */
module Standalone {
  import opened Base
  import opened Physical
  import opened Jobs
  import opened JobHandler

  /** The table, and what each failing finish that has not written yet has read. */
  datatype Local = Local(jobs: JobTable, open: map<nat, Reading>)

  const EMPTY := Local(map[], map[])

  /** One committed statement. A failing finish is two of them under one call number, and any others may
      come in between. */
  datatype Statement =
    | ReleaseDue(now: Time)
    | ClaimFirst(now: Time, capable: set<string>)
    | Succeed(id: Id, now: Time)
    | ReadFor(call: nat, id: Id, now: Time)
    | WriteFor(call: nat, message: string)
    | ActOn(retry: bool, id: Id, now: Time, later: Time)
    | Submit(kind: string, payload: Delivery, key: string, token: nat, now: Time)

  /** The state after the statement: what the handler's methods leave. */
  ghost function After(l: Local, before: Order, s: Statement): Local {
    match s
    case ReleaseDue(now) => l.(jobs := ReleaseStale(l.jobs, now))
    case ClaimFirst(now, capable) => l.(jobs := AfterClaim(l.jobs, before, now, capable))
    case Succeed(id, now) => l.(jobs := Complete(l.jobs, id, true, "", now))
    case ReadFor(call, id, now) => l.(open := l.open[call := ReadOf(l.jobs, id, now)])
    case WriteFor(call, message) =>
      if call in l.open then Local(AfterFailure(l.jobs, l.open[call], message), l.open - {call}) else l
    case ActOn(retry, id, now, later) => l.(jobs := AfterAction(l.jobs, retry, id, now, later))
    case Submit(kind, payload, key, token, now) => l.(jobs := AfterSubmit(l.jobs, kind, payload, key, token, now))
  }

  ghost function LocalRun(steps: seq<Statement>, before: Order): Local {
    if steps == [] then EMPTY else After(LocalRun(steps[..|steps| - 1], before), before, steps[|steps| - 1])
  }

  lemma OneMore(steps: seq<Statement>, before: Order, n: nat)
    requires n < |steps|
    ensures LocalRun(steps[..n + 1], before) == After(LocalRun(steps[..n], before), before, steps[n])
  {
    assert steps[..n + 1][..n] == steps[..n];
  }

  // ----- which statements the replicated transitions explain -----

  function Undate(j: Job): Job { j.(updatedAt := UNSET) }

  /** The table without its update times, which nothing reads. */
  function Undated(t: JobTable): JobTable {
    map id | id in t :: Undate(t[id])
  }

  /** The reading of the clock the statement's deadlines come from. */
  function Clock(l: Local, s: Statement): Time {
    if s.WriteFor? then (if s.call in l.open then l.open[s.call].now else UNSET) else s.now
  }

  /** The statement changes nothing, or does what one replicated transition of its time does. */
  ghost predicate Explained(t: JobTable, u: JobTable, now: Time) {
    Undated(u) == Undated(t) || exists x :: Legal(x) && x.now == now && Undated(u) == Undated(Next(t, x))
  }

  /** The write does what a completion at that moment would: its verdict and delay come out the same on the
      row as it is now, or the row is gone, or it looks like that already. */
  predicate Current(t: JobTable, r: Reading, message: string) {
    || r.id !in t
    || (var j := t[r.id];
        && (r.attempts >= r.maxAttempts <==> j.attempts >= j.maxAttempts)
        && Min(r.attempts, 8) == Min(j.attempts, 8))
    || Undate(FailedJob(t[r.id], r, message)) == Undate(t[r.id])
  }

  predicate Faithful(l: Local, s: Statement) {
    s.WriteFor? && s.call in l.open ==> Current(l.jobs, l.open[s.call], s.message)
  }

  /** A running job was available when it was claimed. */
  ghost predicate Timely(t: JobTable) {
    forall id :: id in t && t[id].status == Running ==> t[id].lease.Some? && t[id].availableAt + LEASE_SECONDS <= t[id].lease.value
  }

  lemma StaysTimely(l: Local, before: Order, s: Statement)
    requires Timely(l.jobs)
    ensures Timely(After(l, before, s).jobs)
  {
  }

  lemma {:induction false} RunsAreTimely(steps: seq<Statement>, before: Order)
    ensures Timely(LocalRun(steps, before).jobs)
  {
    if steps != [] {
      RunsAreTimely(steps[..|steps| - 1], before);
      StaysTimely(LocalRun(steps[..|steps| - 1], before), before, steps[|steps| - 1]);
    }
  }

  lemma ShiftGrows(a: nat, b: nat)
    requires a < b
    ensures Shift(a) < Shift(b)
  {
    if a + 1 < b { ShiftGrows(a, b - 1); }
  }

  lemma UndatedRow(t: JobTable, u: JobTable, id: Id)
    requires Undated(t) == Undated(u)
    ensures id in t <==> id in u
    ensures id in t ==> Undate(t[id]) == Undate(u[id])
  {
    assert id in t <==> id in Undated(t);
    assert id in u <==> id in Undated(u);
    if id in t {
      assert Undated(t)[id] == Undate(t[id]) && Undated(u)[id] == Undate(u[id]);
    }
  }

  lemma SameRows(t: JobTable, u: JobTable)
    requires t.Keys == u.Keys && forall id :: id in t ==> Undate(t[id]) == Undate(u[id])
    ensures Undated(t) == Undated(u)
  {
  }

  /** What a replicated transition can make of one row. */
  lemma NextRow(t: JobTable, x: Timed, id: Id)
    requires id in t && id in Next(t, x)
    ensures var j, k := t[id], Next(t, x)[id];
      || k == j
      || k.status == Running || k.status == Succeeded || k.status == Cancelled || k.lastError == None
      || k == ReleasedJob(j, x.now)
      || exists message :: k == FailedJob(j, Reading(id, j.attempts, j.maxAttempts, x.now), message)
  {
    hide Shift, Min, Truncate;
    if x.step.DoComplete? && !x.step.ok && x.step.id == id {
      var j := t[id];
      assert Next(t, x)[id] == FailedJob(j, Reading(id, j.attempts, j.maxAttempts, x.now), x.step.message);
    }
  }

  /** A write that is explained is current. */
  lemma ExplainedWrite(t: JobTable, r: Reading, message: string)
    requires Timely(t) && Explained(t, AfterFailure(t, r, message), r.now)
    ensures Current(t, r, message)
  {
    hide Next, Undated, Shift, Truncate;
    var u := AfterFailure(t, r, message);
    if r.id in t {
      if Undated(u) == Undated(t) {
        UndatedRow(t, u, r.id);
      } else {
        var x :| Legal(x) && x.now == r.now && Undated(u) == Undated(Next(t, x));
        UndatedRow(u, Next(t, x), r.id);
        NextRow(t, x, r.id);
        RowIsCurrent(t, r, message, Next(t, x)[r.id]);
      }
    }
  }

  lemma RowIsCurrent(t: JobTable, r: Reading, message: string, k: Job)
    requires Timely(t) && r.id in t && Undate(k) == Undate(FailedJob(t[r.id], r, message))
    requires var j := t[r.id];
      || k == j
      || k.status == Running || k.status == Succeeded || k.status == Cancelled || k.lastError == None
      || k == ReleasedJob(j, r.now)
      || exists m :: k == FailedJob(j, Reading(r.id, j.attempts, j.maxAttempts, r.now), m)
    ensures Current(t, r, message)
  {
    hide Shift, Truncate;
    var j := t[r.id];
    ShiftPositive(Min(r.attempts, 8));
    if exists m :: k == FailedJob(j, Reading(r.id, j.attempts, j.maxAttempts, r.now), m) {
      assert Shift(Min(r.attempts, 8)) == Shift(Min(j.attempts, 8));
      if Min(r.attempts, 8) < Min(j.attempts, 8) { ShiftGrows(Min(r.attempts, 8), Min(j.attempts, 8)); }
      if Min(j.attempts, 8) < Min(r.attempts, 8) { ShiftGrows(Min(j.attempts, 8), Min(r.attempts, 8)); }
    }
  }

  lemma ShiftPositive(n: nat)
    ensures Shift(n) >= 1
  {
  }

  /** A current write is the completion of its moment. */
  lemma CurrentWrite(t: JobTable, r: Reading, message: string)
    requires Current(t, r, message)
    ensures Explained(t, AfterFailure(t, r, message), r.now)
  {
    hide Shift, Min, Truncate;
    var u := AfterFailure(t, r, message);
    if r.id !in t {
      assert u == t;
    } else if Undate(FailedJob(t[r.id], r, message)) == Undate(t[r.id]) {
      SameRows(u, t);
    } else {
      var x := Timed(DoComplete(r.id, false, message), r.now);
      assert u == Next(t, x) && Legal(x);
    }
  }

  /** The transition that does what a statement other than a failing write does. */
  lemma OtherStatement(l: Local, before: Order, s: Statement)
    requires !s.WriteFor?
    ensures Explained(l.jobs, After(l, before, s).jobs, s.now)
  {
    hide Undated;
    var t, u := l.jobs, After(l, before, s).jobs;
    match s
    case ReleaseDue(now) => assert u == Next(t, Timed(DoRelease, now));
    case ClaimFirst(now, capable) =>
      if exists id :: Claimable(t, before, now, capable, id) {
        var id :| Claimable(t, before, now, capable, id) && u == t[id := ClaimedJob(t[id], now)];
        assert u == Next(t, Timed(DoClaim(id), now));
      }
    case Succeed(id, now) => assert u == Next(t, Timed(DoComplete(id, true, ""), now));
    case ReadFor(call, id, now) =>
    case ActOn(retry, id, now, later) => ActionIsExplained(t, retry, id, now, later);
    case Submit(kind, payload, key, token, now) =>
      var x := Timed(DoEnqueue(Random(token), NewJob(kind, payload, Nullable(key), now)), now);
      assert Legal(x) && (u == t || u == Next(t, x));
  }

  lemma ActionIsExplained(t: JobTable, retry: bool, id: Id, now: Time, later: Time)
    ensures Explained(t, AfterAction(t, retry, id, now, later), now)
  {
    var x := Timed(if retry then DoRetry(id) else DoCancel(id), now);
    SameRows(AfterAction(t, retry, id, now, later), Next(t, x));
    assert Legal(x);
  }

  /** A statement is explained exactly when it is faithful. */
  lemma ExplainedIffFaithful(l: Local, before: Order, s: Statement)
    requires Timely(l.jobs)
    ensures Explained(l.jobs, After(l, before, s).jobs, Clock(l, s)) <==> Faithful(l, s)
  {
    hide Explained, Current, Timely, AfterFailure;
    if s.WriteFor? {
      if s.call in l.open {
        var r := l.open[s.call];
        if Current(l.jobs, r, s.message) { CurrentWrite(l.jobs, r, s.message); }
        if Explained(l.jobs, AfterFailure(l.jobs, r, s.message), r.now) { ExplainedWrite(l.jobs, r, s.message); }
      } else {
        Unchanged(l.jobs, Clock(l, s));
      }
    } else {
      OtherStatement(l, before, s);
    }
  }

  lemma Unchanged(t: JobTable, now: Time)
    ensures Explained(t, t, now)
  {
  }

  /** One statement of a run, with the state it meets. */
  ghost predicate ExplainedAt(steps: seq<Statement>, before: Order, k: nat)
    requires k < |steps|
  {
    var l := LocalRun(steps[..k], before);
    Explained(l.jobs, LocalRun(steps[..k + 1], before).jobs, Clock(l, steps[k]))
  }

  ghost predicate FaithfulAt(steps: seq<Statement>, before: Order, k: nat)
    requires k < |steps|
  {
    Faithful(LocalRun(steps[..k], before), steps[k])
  }

  lemma StepExplainedIffFaithful(steps: seq<Statement>, before: Order, k: nat)
    requires k < |steps|
    ensures ExplainedAt(steps, before, k) <==> FaithfulAt(steps, before, k)
  {
    hide Explained, Faithful, Timely;
    OneMore(steps, before, k);
    RunsAreTimely(steps[..k], before);
    ExplainedIffFaithful(LocalRun(steps[..k], before), before, steps[k]);
  }

  /** An interleaving of statements is, statement by statement, a run of the replicated transitions at the
      same times if and only if each failing write does what a completion at that moment would. */
  lemma InterleavingIsARunIff(steps: seq<Statement>, before: Order)
    ensures (forall k | 0 <= k < |steps| :: ExplainedAt(steps, before, k)) <==> (forall k | 0 <= k < |steps| :: FaithfulAt(steps, before, k))
  {
    hide ExplainedAt, FaithfulAt;
    forall k | 0 <= k < |steps|
      ensures ExplainedAt(steps, before, k) <==> FaithfulAt(steps, before, k)
    {
      StepExplainedIffFaithful(steps, before, k);
    }
  }

  /** What a transition makes of a row does not depend on its update time. */
  lemma NextUndated(t: JobTable, u: JobTable, x: Timed)
    requires Undated(t) == Undated(u)
    ensures Undated(Next(t, x)) == Undated(Next(u, x))
  {
    hide Undated, Next;
    forall id
      ensures id in t <==> id in u
      ensures id in t ==> Undate(t[id]) == Undate(u[id])
    {
      UndatedRow(t, u, id);
    }
    assert t.Keys == u.Keys;
    forall id
      ensures id in Next(t, x) <==> id in Next(u, x)
      ensures id in Next(t, x) ==> Undate(Next(t, x)[id]) == Undate(Next(u, x)[id])
    {
      RowUndated(t, u, x, id);
    }
    assert Next(t, x).Keys == Next(u, x).Keys;
    SameRows(Next(t, x), Next(u, x));
  }

  lemma RowUndated(t: JobTable, u: JobTable, x: Timed, id: Id)
    requires t.Keys == u.Keys && forall k :: k in t ==> Undate(t[k]) == Undate(u[k])
    ensures id in Next(t, x) <==> id in Next(u, x)
    ensures id in Next(t, x) ==> Undate(Next(t, x)[id]) == Undate(Next(u, x)[id])
  {
    hide Shift, Min, Truncate, NewJob;
  }

  /** Such an interleaving has the table of a legal trace, up to update times, and the laws of one. */
  lemma {:induction false} FaithfulIsARun(steps: seq<Statement>, before: Order) returns (trace: seq<Timed>)
    requires forall k | 0 <= k < |steps| :: FaithfulAt(steps, before, k)
    ensures LegalTrace(trace) && |trace| <= |steps| && Undated(Run(map[], trace)) == Undated(LocalRun(steps, before).jobs)
    ensures forall id :: id in LocalRun(steps, before).jobs ==> Lawful(LocalRun(steps, before).jobs[id], Releases(trace, id))
  {
    hide Undated, FaithfulAt, Next;
    if steps == [] {
      trace := [];
    } else {
      var n := |steps| - 1;
      var fore := steps[..n];
      forall k | 0 <= k < n
        ensures FaithfulAt(fore, before, k)
      {
        FaithfulBefore(steps, before, k);
      }
      trace := FaithfulIsARun(fore, before);
      StepExplainedIffFaithful(steps, before, n);
      assert steps[..n + 1] == steps;
      trace := Extended(trace, LocalRun(fore, before).jobs, LocalRun(steps, before).jobs, Clock(LocalRun(fore, before), steps[n]));
    }
    LawsOfTrace(trace, LocalRun(steps, before).jobs);
  }

  lemma FaithfulBefore(steps: seq<Statement>, before: Order, k: nat)
    requires k < |steps| - 1 && FaithfulAt(steps, before, k)
    ensures FaithfulAt(steps[..|steps| - 1], before, k)
  {
    assert steps[..|steps| - 1][..k] == steps[..k];
  }

  lemma Extended(trace: seq<Timed>, t: JobTable, u: JobTable, now: Time) returns (longer: seq<Timed>)
    requires LegalTrace(trace) && Undated(Run(map[], trace)) == Undated(t) && Explained(t, u, now)
    ensures LegalTrace(longer) && |longer| <= |trace| + 1 && Undated(Run(map[], longer)) == Undated(u)
  {
    hide Undated, Next;
    longer := trace;
    if Undated(u) != Undated(t) {
      var x :| Legal(x) && x.now == now && Undated(u) == Undated(Next(t, x));
      NextUndated(Run(map[], trace), t, x);
      longer := trace + [x];
      assert longer[..|trace|] == trace;
    }
  }

  lemma LawsOfTrace(trace: seq<Timed>, u: JobTable)
    requires LegalTrace(trace) && Undated(Run(map[], trace)) == Undated(u)
    ensures forall id :: id in u ==> Lawful(u[id], Releases(trace, id))
  {
    hide Undated, Run, Releases;
    forall id | id in u
      ensures Lawful(u[id], Releases(trace, id))
    {
      UndatedRow(Run(map[], trace), u, id);
      AttemptLaw(trace, id);
    }
  }

  // ----- what every interleaving keeps -----

  /** The write returns a job that has used up its attempts to the pending ones. */
  predicate Revives(l: Local, s: Statement, id: Id) {
    && s.WriteFor? && s.call in l.open && l.open[s.call].id == id && id in l.jobs
    && l.open[s.call].attempts < l.open[s.call].maxAttempts
    && l.jobs[id].attempts >= l.jobs[id].maxAttempts
  }

  /** Lease releases and revivals of a job since its insertion or last retry. */
  datatype Extra = Extra(releases: nat, revivals: nat)

  function Counted(l: Local, s: Statement, id: Id, n: Extra): Extra {
    if id !in l.jobs then Extra(0, 0)
    else if s.ActOn? && s.retry && s.id == id && Retryable(l.jobs[id]) then Extra(0, 0)
    else if s.ReleaseDue? && Stale(l.jobs[id], s.now) then n.(releases := n.releases + 1)
    else if Revives(l, s, id) then n.(revivals := n.revivals + 1)
    else n
  }

  ghost function Count(steps: seq<Statement>, before: Order, id: Id): Extra {
    if steps == [] then Extra(0, 0)
    else
      var fore := steps[..|steps| - 1];
      Counted(LocalRun(fore, before), steps[|steps| - 1], id, Count(fore, before, id))
  }

  lemma LocalLawStep(l: Local, before: Order, s: Statement, id: Id, n: Extra)
    requires id in After(l, before, s).jobs
    requires id in l.jobs ==> Lawful(l.jobs[id], n.releases + n.revivals)
    ensures var m := Counted(l, s, id, n); Lawful(After(l, before, s).jobs[id], m.releases + m.revivals)
  {
  }

  /** The attempt law of every interleaving, with any number of workers: a job runs exactly while it has a
      lease, and attempts stay within the maximum plus the lease releases and the revivals. */
  lemma {:induction false} LocalAttemptLaw(steps: seq<Statement>, before: Order, id: Id)
    requires id in LocalRun(steps, before).jobs
    ensures var n := Count(steps, before, id); Lawful(LocalRun(steps, before).jobs[id], n.releases + n.revivals)
  {
    hide After, Counted, Lawful;
    if steps != [] {
      var fore := steps[..|steps| - 1];
      if id in LocalRun(fore, before).jobs { LocalAttemptLaw(fore, before, id); }
      LocalLawStep(LocalRun(fore, before), before, steps[|steps| - 1], id, Count(fore, before, id));
    }
  }

  /** What a request may send at any time. */
  predicate IsRequest(s: Statement) { s.ActOn? || s.Submit? }

  /** One worker: while a finish has read and not written, nothing but requests and its write comes. */
  ghost predicate OneWorker(steps: seq<Statement>, before: Order) {
    forall k | 0 <= k < |steps| :: LocalRun(steps[..k], before).open == map[] || IsRequest(steps[k]) || steps[k].WriteFor?
  }

  /** A row has at most the attempts an open finish has read of it. */
  ghost predicate ReadsHold(l: Local) {
    forall c :: c in l.open ==> ReadHolds(l.jobs, l.open[c])
  }

  predicate ReadHolds(t: JobTable, r: Reading) {
    r.attempts < r.maxAttempts ==> r.id in t && t[r.id].attempts <= r.attempts && t[r.id].maxAttempts == r.maxAttempts
  }

  lemma ReadStaysHeld(l: Local, before: Order, s: Statement, r: Reading)
    requires IsRequest(s) || s.WriteFor?
    requires ReadHolds(l.jobs, r)
    ensures ReadHolds(After(l, before, s).jobs, r)
  {
  }

  lemma OneWorkerReadsHold(steps: seq<Statement>, before: Order)
    requires OneWorker(steps, before)
    ensures ReadsHold(LocalRun(steps, before))
  {
    hide After, Counted, ReadHolds;
    if steps != [] {
      var fore, s := steps[..|steps| - 1], steps[|steps| - 1];
      OneWorkerBefore(steps, before);
      OneWorkerReadsHold(fore, before);
      ReadsHoldStep(LocalRun(fore, before), before, s);
    }
  }

  lemma OneWorkerBefore(steps: seq<Statement>, before: Order)
    requires OneWorker(steps, before) && steps != []
    ensures OneWorker(steps[..|steps| - 1], before)
    ensures var l, s := LocalRun(steps[..|steps| - 1], before), steps[|steps| - 1]; l.open == map[] || IsRequest(s) || s.WriteFor?
  {
    var fore := steps[..|steps| - 1];
    forall k | 0 <= k < |fore|
      ensures LocalRun(fore[..k], before).open == map[] || IsRequest(fore[k]) || fore[k].WriteFor?
    {
      assert fore[..k] == steps[..k];
    }
    assert steps[..|steps| - 1] == fore;
  }

  lemma ReadsHoldStep(l: Local, before: Order, s: Statement)
    requires ReadsHold(l) && (l.open == map[] || IsRequest(s) || s.WriteFor?)
    ensures ReadsHold(After(l, before, s))
  {
    var m := After(l, before, s);
    forall c | c in m.open
      ensures ReadHolds(m.jobs, m.open[c])
    {
      if c in l.open && !s.ReadFor? { ReadStaysHeld(l, before, s, l.open[c]); }
    }
  }

  /** With one worker, whatever requests come in between, no job is revived, so the replicated attempt law
      holds although the run may not be a replicated one. */
  lemma {:induction false} OneWorkerAttemptLaw(steps: seq<Statement>, before: Order, id: Id)
    requires OneWorker(steps, before)
    ensures Count(steps, before, id).revivals == 0
    ensures id in LocalRun(steps, before).jobs ==> Lawful(LocalRun(steps, before).jobs[id], Count(steps, before, id).releases)
  {
    hide After, Lawful;
    if steps != [] {
      OneWorkerBefore(steps, before);
      OneWorkerReadsHold(steps[..|steps| - 1], before);
      OneWorkerAttemptLaw(steps[..|steps| - 1], before, id);
    }
    if id in LocalRun(steps, before).jobs { LocalAttemptLaw(steps, before, id); }
  }

  // ----- a retry inside a finish -----

  /** The statement takes effect as a retry of the job. */
  predicate Retries(l: Local, s: Statement, id: Id) {
    s.ActOn? && s.retry && s.id == id && id in l.jobs && Retryable(l.jobs[id])
  }

  /** What requests alone can have done to the row since its attempts were read. */
  predicate SinceRead(t: JobTable, r: Reading, retried: bool) {
    && r.id in t && t[r.id].maxAttempts == r.maxAttempts
    && (if retried then t[r.id].attempts == 0 && t[r.id].lastError == None else t[r.id].attempts == r.attempts)
  }

  lemma RequestSinceRead(l: Local, before: Order, s: Statement, r: Reading, retried: bool)
    requires IsRequest(s) && SinceRead(l.jobs, r, retried)
    ensures SinceRead(After(l, before, s).jobs, r, retried || Retries(l, s, r.id)) && After(l, before, s).open == l.open
  {
  }

  ghost predicate RetriedWithin(steps: seq<Statement>, before: Order, id: Id, i: nat, j: nat)
    requires j <= |steps|
  {
    exists k | i < k < j :: Retries(LocalRun(steps[..k], before), steps[k], id)
  }

  lemma RetriedOneMore(steps: seq<Statement>, before: Order, id: Id, i: nat, j: nat)
    requires i + 1 < j <= |steps|
    ensures RetriedWithin(steps, before, id, i, j) <==>
      RetriedWithin(steps, before, id, i, j - 1) || Retries(LocalRun(steps[..j - 1], before), steps[j - 1], id)
  {
    hide LocalRun, Retries;
  }

  lemma JustRead(steps: seq<Statement>, before: Order, i: nat)
    requires i < |steps| && steps[i].ReadFor? && steps[i].id in LocalRun(steps[..i], before).jobs
    ensures var l, r := LocalRun(steps[..i + 1], before), ReadOf(LocalRun(steps[..i], before).jobs, steps[i].id, steps[i].now);
      && steps[i].call in l.open && l.open[steps[i].call] == r && SinceRead(l.jobs, r, false)
  {
    OneMore(steps, before, i);
    hide LocalRun;
  }

  lemma {:induction false} RowWhileOpen(steps: seq<Statement>, before: Order, i: nat, j: nat)
    requires i < j <= |steps| && steps[i].ReadFor? && steps[i].id in LocalRun(steps[..i], before).jobs
    requires forall k | i < k < j :: IsRequest(steps[k])
    ensures var l, r := LocalRun(steps[..j], before), ReadOf(LocalRun(steps[..i], before).jobs, steps[i].id, steps[i].now);
      && steps[i].call in l.open && l.open[steps[i].call] == r
      && SinceRead(l.jobs, r, RetriedWithin(steps, before, steps[i].id, i, j))
    decreases j
  {
    hide SinceRead, Retries, After, LocalRun, ReadOf;
    if j == i + 1 {
      JustRead(steps, before, i);
      assert !RetriedWithin(steps, before, steps[i].id, i, j);
    } else {
      hide RetriedWithin;
      var id, l := steps[i].id, LocalRun(steps[..j - 1], before);
      RowWhileOpen(steps, before, i, j - 1);
      OneMore(steps, before, j - 1);
      RequestSinceRead(l, before, steps[j - 1], l.open[steps[i].call], RetriedWithin(steps, before, id, i, j - 1));
      RetriedOneMore(steps, before, id, i, j);
      ReadNamesJob(LocalRun(steps[..i], before).jobs, id, steps[i].now);
    }
  }

  lemma ReadNamesJob(t: JobTable, id: Id, now: Time)
    ensures ReadOf(t, id, now).id == id
  {
  }

  /** The finish of a claimed job, with requests alone between its statements: its write does what a
      completion would if and only if no retry of the job took effect in between. */
  lemma FaithfulIffNotRetried(steps: seq<Statement>, before: Order, i: nat, j: nat)
    requires i < j < |steps| && steps[i].ReadFor? && steps[j].WriteFor? && steps[j].call == steps[i].call
    requires steps[i].id in LocalRun(steps[..i], before).jobs && LocalRun(steps[..i], before).jobs[steps[i].id].attempts >= 1
    requires forall k | i < k < j :: IsRequest(steps[k])
    ensures FaithfulAt(steps, before, j) <==> !RetriedWithin(steps, before, steps[i].id, i, j)
  {
    hide RetriedWithin, After;
    RowWhileOpen(steps, before, i, j);
  }

  lemma Then(steps: seq<Statement>, before: Order, s: Statement)
    ensures LocalRun(steps + [s], before) == After(LocalRun(steps, before), before, s)
  {
    assert (steps + [s])[..|steps|] == steps;
  }

  /** A finish interrupted by a cancel and a retry. */
  function Interrupted(id: Id, call: nat, message: string, read: Time, cancelled: Time, retried: Time): seq<Statement> {
    [ReadFor(call, id, read), ActOn(false, id, cancelled, cancelled), ActOn(true, id, retried, retried), WriteFor(call, message)]
  }

  lemma ThenInterrupted(steps: seq<Statement>, before: Order, id: Id, call: nat, message: string, read: Time, cancelled: Time, retried: Time)
    requires var l := LocalRun(steps, before); id in l.jobs && l.jobs[id].status == Running && l.jobs[id].attempts >= l.jobs[id].maxAttempts
    ensures var m := LocalRun(steps + Interrupted(id, call, message, read, cancelled, retried), before);
      id in m.jobs && m.jobs[id].status == Dead && m.jobs[id].attempts == 0 && m.jobs[id].maxAttempts == LocalRun(steps, before).jobs[id].maxAttempts
  {
    hide Shift, Min, Truncate;
    var tail := Interrupted(id, call, message, read, cancelled, retried);
    Then(steps, before, tail[0]);
    Then(steps + tail[..1], before, tail[1]);
    Then(steps + tail[..2], before, tail[2]);
    Then(steps + tail[..3], before, tail[3]);
    assert steps + tail[..1] == steps + [tail[0]];
    assert steps + tail[..2] == steps + tail[..1] + [tail[1]];
    assert steps + tail[..3] == steps + tail[..2] + [tail[2]];
    assert steps + tail == steps + tail[..3] + [tail[3]];
  }

  /** In any run, a job on its last attempt that is cancelled and retried between the statements of its
      finish dies without having been attempted, which no replicated run does. */
  lemma RetriedJobDies(steps: seq<Statement>, before: Order, id: Id, call: nat, message: string, read: Time, cancelled: Time, retried: Time)
    requires var l := LocalRun(steps, before); id in l.jobs && l.jobs[id].status == Running && l.jobs[id].attempts >= l.jobs[id].maxAttempts
    ensures var m := LocalRun(steps + Interrupted(id, call, message, read, cancelled, retried), before);
      && id in m.jobs && m.jobs[id].status == Dead && m.jobs[id].attempts == 0
      && forall trace :: LegalTrace(trace) ==> Undated(Run(map[], trace)) != Undated(m.jobs)
  {
    hide After, Undated, Run, Interrupted;
    LocalAttemptLaw(steps, before, id);
    ThenInterrupted(steps, before, id, call, message, read, cancelled, retried);
    var m := LocalRun(steps + Interrupted(id, call, message, read, cancelled, retried), before);
    forall trace | LegalTrace(trace)
      ensures Undated(Run(map[], trace)) != Undated(m.jobs)
    {
      if Undated(Run(map[], trace)) == Undated(m.jobs) {
        UndatedRow(Run(map[], trace), m.jobs, id);
        DeadLaw(trace, id);
        assert false;
      }
    }
  }

  // ----- runs that reach these cases -----

  const JOB := Random(0)

  lemma OnlyJobIsClaimed(t: JobTable, before: Order, now: Time, kind: string)
    requires t.Keys == {JOB} && Eligible(t, JOB, now) && t[JOB].kind == kind
    ensures AfterClaim(t, before, now, {kind}) == map[JOB := ClaimedJob(t[JOB], now)]
  {
    assert Claimable(t, before, now, {kind}, JOB);
    assert t[JOB := ClaimedJob(t[JOB], now)] == map[JOB := ClaimedJob(t[JOB], now)];
  }

  /** A submitted job whose lease expires k - 1 times. */
  function Worked(kind: string, payload: Delivery, k: nat): seq<Statement> {
    if k == 0 then [Submit(kind, payload, "", 0, 0)]
    else Worked(kind, payload, k - 1) + [ReleaseDue(31 * k)] + [ClaimFirst(31 * k, {kind})]
  }

  predicate Attempted(t: JobTable, kind: string, k: nat) {
    && t.Keys == {JOB} && t[JOB].kind == kind && t[JOB].attempts == k && t[JOB].maxAttempts == 5
    && (if k == 0 then t[JOB].status == Pending && t[JOB].availableAt == 0
        else t[JOB].status == Running && t[JOB].lease == Some(31 * k + 30) && t[JOB].availableAt <= 31 * k)
  }

  lemma AttemptedAgain(l: Local, before: Order, kind: string, k: nat)
    requires k > 0 && Attempted(l.jobs, kind, k - 1)
    ensures Attempted(After(After(l, before, ReleaseDue(31 * k)), before, ClaimFirst(31 * k, {kind})).jobs, kind, k)
  {
    OnlyJobIsClaimed(ReleaseStale(l.jobs, 31 * k), before, 31 * k, kind);
  }

  /** The last attempt is reached: after five claims the job runs with five of five attempts. */
  lemma {:induction false} LastAttemptIsReached(kind: string, payload: Delivery, before: Order, k: nat)
    ensures Attempted(LocalRun(Worked(kind, payload, k), before).jobs, kind, k)
  {
    if k == 0 {
      assert Worked(kind, payload, 0)[..0] == [];
    } else {
      hide After, Attempted;
      var steps := Worked(kind, payload, k - 1);
      LastAttemptIsReached(kind, payload, before, k - 1);
      Then(steps, before, ReleaseDue(31 * k));
      Then(steps + [ReleaseDue(31 * k)], before, ClaimFirst(31 * k, {kind}));
      AttemptedAgain(LocalRun(steps, before), before, kind, k);
    }
  }

  /** A job cancelled and retried while a first finish, call 0, has read; then k attempts under call 1. */
  function Failing(kind: string, payload: Delivery, k: nat): seq<Statement> {
    if k == 0 then
      [Submit(kind, payload, "", 0, 0)] + [ClaimFirst(0, {kind})] + [ReadFor(0, JOB, 0)] + [ActOn(false, JOB, 0, 0)] + [ActOn(true, JOB, 0, 0)]
    else Failing(kind, payload, k - 1) + [ClaimFirst(300 * k, {kind})] + [ReadFor(1, JOB, 300 * k)] + [WriteFor(1, "")]
  }

  predicate FailedTimes(l: Local, kind: string, k: nat) {
    && l.jobs.Keys == {JOB} && l.jobs[JOB].kind == kind && l.jobs[JOB].status == Pending && l.jobs[JOB].attempts == k
    && l.jobs[JOB].maxAttempts == 5 && l.jobs[JOB].availableAt <= 300 * k + 256
    && 0 in l.open && l.open[0] == Reading(JOB, 1, 5, 0)
  }

  lemma RetriedWhileOpen(kind: string, payload: Delivery, before: Order)
    ensures FailedTimes(LocalRun(Failing(kind, payload, 0), before), kind, 0)
  {
    hide Shift, Min, Truncate;
    var a := [Submit(kind, payload, "", 0, 0)];
    var b := a + [ClaimFirst(0, {kind})];
    var c := b + [ReadFor(0, JOB, 0)];
    var d := c + [ActOn(false, JOB, 0, 0)];
    assert a == [] + a;
    Then([], before, a[0]);
    Then(a, before, ClaimFirst(0, {kind}));
    OnlyJobIsClaimed(LocalRun(a, before).jobs, before, 0, kind);
    Then(b, before, ReadFor(0, JOB, 0));
    Then(c, before, ActOn(false, JOB, 0, 0));
    Then(d, before, ActOn(true, JOB, 0, 0));
  }

  lemma FailedOnce(l: Local, before: Order, kind: string, k: nat)
    requires 0 < k < 5 && FailedTimes(l, kind, k - 1)
    ensures FailedTimes(After(After(After(l, before, ClaimFirst(300 * k, {kind})), before, ReadFor(1, JOB, 300 * k)), before, WriteFor(1, "")), kind, k)
  {
    OnlyJobIsClaimed(l.jobs, before, 300 * k, kind);
    ShiftBounded(k);
  }

  lemma ShiftBounded(k: nat)
    requires k <= 8
    ensures Shift(k) <= 256
  {
    if k < 8 { ShiftGrows(k, 8); }
    assert Shift(8) == 256;
  }

  lemma {:induction false} FailedAgain(kind: string, payload: Delivery, before: Order, k: nat)
    requires k < 5
    ensures FailedTimes(LocalRun(Failing(kind, payload, k), before), kind, k)
  {
    if k == 0 {
      RetriedWhileOpen(kind, payload, before);
    } else {
      hide After, FailedTimes;
      var steps := Failing(kind, payload, k - 1);
      FailedAgain(kind, payload, before, k - 1);
      Then(steps, before, ClaimFirst(300 * k, {kind}));
      Then(steps + [ClaimFirst(300 * k, {kind})], before, ReadFor(1, JOB, 300 * k));
      Then(steps + [ClaimFirst(300 * k, {kind})] + [ReadFor(1, JOB, 300 * k)], before, WriteFor(1, ""));
      FailedOnce(LocalRun(steps, before), before, kind, k);
    }
  }

  lemma {:induction false} NoReleases(steps: seq<Statement>, before: Order, id: Id)
    requires forall k | 0 <= k < |steps| :: !steps[k].ReleaseDue?
    ensures Count(steps, before, id).releases == 0
  {
    if steps != [] { NoReleases(steps[..|steps| - 1], before, id); }
  }

  lemma {:induction false} FailingReleasesNothing(kind: string, payload: Delivery, k: nat)
    ensures forall i | 0 <= i < |Failing(kind, payload, k)| :: !Failing(kind, payload, k)[i].ReleaseDue?
  {
    if k > 0 { FailingReleasesNothing(kind, payload, k - 1); }
  }

  /** The fifth attempt runs; the first finish writes its old verdict; a sixth attempt starts. */
  function Overlapping(kind: string, payload: Delivery): seq<Statement> {
    Failing(kind, payload, 4) + [ClaimFirst(1500, {kind})] + [WriteFor(0, "")] + [ClaimFirst(3000, {kind})]
  }

  lemma SixthAttempt(l: Local, before: Order, kind: string)
    requires FailedTimes(l, kind, 4)
    ensures var t := After(After(After(l, before, ClaimFirst(1500, {kind})), before, WriteFor(0, "")), before, ClaimFirst(3000, {kind})).jobs;
      JOB in t && t[JOB].attempts == 6 && t[JOB].maxAttempts == 5
  {
    OnlyJobIsClaimed(l.jobs, before, 1500, kind);
    ShiftBounded(1);
    var u := After(After(l, before, ClaimFirst(1500, {kind})), before, WriteFor(0, "")).jobs;
    OnlyJobIsClaimed(u, before, 3000, kind);
  }

  /** With two workers the revivals of the law are real: a sixth attempt of five, with no release since the
      retry. */
  lemma OverlappingWorkersExceedTheMaximum(kind: string, payload: Delivery, before: Order)
    ensures var t := LocalRun(Overlapping(kind, payload), before).jobs;
      JOB in t && t[JOB].attempts == 6 && t[JOB].maxAttempts == 5
    ensures Count(Overlapping(kind, payload), before, JOB).releases == 0
  {
    hide After, FailedTimes, Counted, Failing;
    var steps := Failing(kind, payload, 4);
    FailedAgain(kind, payload, before, 4);
    Then(steps, before, ClaimFirst(1500, {kind}));
    Then(steps + [ClaimFirst(1500, {kind})], before, WriteFor(0, ""));
    Then(steps + [ClaimFirst(1500, {kind})] + [WriteFor(0, "")], before, ClaimFirst(3000, {kind}));
    SixthAttempt(LocalRun(steps, before), before, kind);
    FailingReleasesNothing(kind, payload, 4);
    NoReleases(Overlapping(kind, payload), before, JOB);
  }

  // ----- idempotency keys -----

  /** No two jobs have the same key. */
  predicate KeysApart(t: JobTable) {
    forall i, k :: i in t && k in t && t[i].key.Some? && t[i].key == t[k].key ==> i == k
  }

  lemma StatementKeepsKeys(l: Local, before: Order, s: Statement)
    requires KeysApart(l.jobs) && !s.Submit?
    ensures KeysApart(After(l, before, s).jobs)
  {
  }

  lemma SubmitKeepsKeys(t: JobTable, kind: string, payload: Delivery, key: string, token: nat, now: Time)
    requires KeysApart(t)
    ensures KeysApart(AfterSubmit(t, kind, payload, key, token, now))
  {
  }

  /** In every interleaving at most one job has a key. */
  lemma {:induction false} LocalKeysApart(steps: seq<Statement>, before: Order)
    ensures KeysApart(LocalRun(steps, before).jobs)
  {
    hide KeysApart, AfterSubmit;
    if steps == [] {
      assert KeysApart(map[]) by { NoKeys(); }
    } else {
      var l, s := LocalRun(steps[..|steps| - 1], before), steps[|steps| - 1];
      LocalKeysApart(steps[..|steps| - 1], before);
      if s.Submit? {
        SubmitKeepsKeys(l.jobs, s.kind, s.payload, s.key, s.token, s.now);
      } else {
        hide After;
        StatementKeepsKeys(l, before, s);
      }
    }
  }

  lemma NoKeys()
    ensures KeysApart(map[])
  {
  }

  /** A submission without a key, or with one no job has, adds a job that is eligible from then on; under a
      known key it adds none. */
  lemma SubmissionAdds(t: JobTable, kind: string, payload: Delivery, key: string, token: nat, now: Time, later: Time)
    requires Random(token) !in t
    ensures var u := AfterSubmit(t, kind, payload, key, token, now);
      if key != "" && exists i :: i in t && t[i].key == Some(key) then u == t
      else
        && u.Keys == t.Keys + {Random(token)} && (forall i :: i in t ==> u[i] == t[i])
        && u[Random(token)].kind == kind && u[Random(token)].payload == payload
        && u[Random(token)].attempts == 0 && u[Random(token)].maxAttempts == 5
        && (if key == "" then u[Random(token)].key == None else u[Random(token)].key == Some(key))
        && (Eligible(u, Random(token), later) <==> now <= later)
  {
  }
}
