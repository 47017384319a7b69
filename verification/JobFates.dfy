/** What becomes of a job: over every run its row is what its last effective transition made of it
    (internal/replicated/fsm.go, applyJobClaim to applyJobRetry). */
module JobFates {
  import opened Base
  import opened Physical
  import opened Jobs
  import opened JobHandler

  /** The delay after a failed attempt, in seconds, by the number of attempts: doubling up to the eighth. */
  const DELAYS: seq<int> := [1, 2, 4, 8, 16, 32, 64, 128, 256]

  function DelayAfter(attempts: nat): int { DELAYS[if attempts < 8 then attempts else 8] }

  /** The step takes effect on the job: it inserts it, claims it while it is pending and due, completes it,
      releases its expired lease, cancels it before its end, or retries it when dead or cancelled. */
  predicate Takes(t: JobTable, x: Timed, id: Id) {
    if id !in t then x.step.DoEnqueue? && x.step.id == id
    else
      match x.step
      case DoEnqueue(_, _) => false
      case DoClaim(i) => i == id && t[id].status == Pending && t[id].availableAt <= x.now
      case DoComplete(i, _, _) => i == id
      case DoRelease => t[id].status == Running && t[id].lease.Some? && t[id].lease.value < x.now
      case DoCancel(i) => i == id && t[id].status in {Pending, Running}
      case DoRetry(i) => i == id && t[id].status in {Dead, Cancelled}
  }

  /** What the message of a failed attempt is kept as. */
  predicate Kept(column: Option<string>, message: string) {
    column.Some? && column.value == message[..if |message| > 500 then 500 else |message|]
  }

  /** What an effective step makes of the row it finds. */
  predicate Makes(j: Job, x: Timed, k: Job) {
    && k.kind == j.kind && k.payload == j.payload && k.key == j.key && k.maxAttempts == j.maxAttempts
    && k.createdAt == j.createdAt && k.updatedAt == x.now
    && match x.step
       case DoEnqueue(_, _) => false
       case DoClaim(_) =>
         && k.status == Running && k.lease == Some(x.now + 30) && k.attempts == j.attempts + 1
         && k.availableAt == j.availableAt && k.lastError == j.lastError
       case DoComplete(_, true, _) =>
         k.status == Succeeded && k.lease == None && k.lastError == None && k.attempts == j.attempts && k.availableAt == j.availableAt
       case DoComplete(_, false, message) =>
         && k.status == (if j.attempts < j.maxAttempts then Pending else Dead) && k.lease == None
         && k.availableAt == x.now + DelayAfter(j.attempts) && k.attempts == j.attempts && Kept(k.lastError, message)
       case DoRelease =>
         k.status == Pending && k.lease == None && k.attempts == j.attempts && k.availableAt == j.availableAt && k.lastError == j.lastError
       case DoCancel(_) =>
         k.status == Cancelled && k.lease == None && k.attempts == j.attempts && k.availableAt == j.availableAt && k.lastError == j.lastError
       case DoRetry(_) =>
         k.status == Pending && k.lease == None && k.attempts == 0 && k.availableAt == x.now && k.lastError == None
  }

  lemma ShiftIsDelay(attempts: nat)
    ensures Shift(Min(attempts, 8)) == DelayAfter(attempts)
  {
    assert Shift(0) == 1 && Shift(1) == 2 && Shift(2) == 4 && Shift(3) == 8;
    assert Shift(4) == 16 && Shift(5) == 32 && Shift(6) == 64;
    assert Shift(7) == 128 && Shift(8) == 256;
  }

  lemma ClaimTakes(t: JobTable, x: Timed, id: Id)
    requires x.step.DoClaim? && id in t
    ensures var u := Next(t, x); id in u && if Takes(t, x, id) then Makes(t[id], x, u[id]) else u[id] == t[id]
  {
    hide Kept, DelayAfter;
  }

  lemma CompleteTakes(t: JobTable, x: Timed, id: Id)
    requires x.step.DoComplete? && id in t
    ensures var u := Next(t, x); id in u && if Takes(t, x, id) then Makes(t[id], x, u[id]) else u[id] == t[id]
  {
    hide Shift, Min, DelayAfter;
    ShiftIsDelay(t[id].attempts);
  }

  lemma ReleaseTakes(t: JobTable, x: Timed, id: Id)
    requires x.step.DoRelease? && id in t
    ensures var u := Next(t, x); id in u && if Takes(t, x, id) then Makes(t[id], x, u[id]) else u[id] == t[id]
  {
    hide Kept, DelayAfter;
  }

  lemma RequestTakes(t: JobTable, x: Timed, id: Id)
    requires (x.step.DoCancel? || x.step.DoRetry? || x.step.DoEnqueue?) && id in t
    ensures var u := Next(t, x); id in u && if Takes(t, x, id) then Makes(t[id], x, u[id]) else u[id] == t[id]
  {
    hide Kept, DelayAfter;
  }

  lemma AbsentTakes(t: JobTable, x: Timed, id: Id)
    requires id !in t
    ensures id in Next(t, x) <==> Takes(t, x, id)
    ensures Takes(t, x, id) ==> x.step.DoEnqueue? && Next(t, x)[id] == x.step.job
  {
    hide Shift, Min;
  }

  /** One step: a job it takes is made anew, any other stays as it is, and none disappears. */
  lemma StepTakes(t: JobTable, x: Timed, id: Id)
    ensures id in t ==> id in Next(t, x) && if Takes(t, x, id) then Makes(t[id], x, Next(t, x)[id]) else Next(t, x)[id] == t[id]
    ensures id !in t ==> (id in Next(t, x) <==> Takes(t, x, id))
    ensures id !in t && Takes(t, x, id) ==> x.step.DoEnqueue? && Next(t, x)[id] == x.step.job
  {
    hide Next, Takes, Makes;
    if id !in t {
      AbsentTakes(t, x, id);
    } else if x.step.DoClaim? {
      ClaimTakes(t, x, id);
    } else if x.step.DoComplete? {
      CompleteTakes(t, x, id);
    } else if x.step.DoRelease? {
      ReleaseTakes(t, x, id);
    } else {
      RequestTakes(t, x, id);
    }
  }

  // ----- whole runs -----

  /** The step at k is the last that took effect on the job. */
  ghost predicate LastTaken(trace: seq<Timed>, k: nat, id: Id) {
    && k < |trace| && Takes(Run(map[], trace[..k]), trace[k], id)
    && forall i :: k < i < |trace| ==> !Takes(Run(map[], trace[..i]), trace[i], id)
  }

  /** The row is what that step made of the one it found, or the job it inserted. */
  ghost predicate MadeBy(trace: seq<Timed>, k: nat, id: Id, j: Job)
    requires k < |trace|
  {
    var t := Run(map[], trace[..k]);
    if id in t then Makes(t[id], trace[k], j) else trace[k].step.DoEnqueue? && j == trace[k].step.job
  }

  lemma LastTakenStays(trace: seq<Timed>, k: nat, id: Id)
    requires trace != [] && LastTaken(trace[..|trace| - 1], k, id)
    requires !Takes(Run(map[], trace[..|trace| - 1]), trace[|trace| - 1], id)
    ensures LastTaken(trace, k, id)
    ensures forall j :: MadeBy(trace[..|trace| - 1], k, id, j) ==> MadeBy(trace, k, id, j)
  {
    hide Run, Takes, Makes;
    var before := trace[..|trace| - 1];
    forall i | 0 <= i < |before|
      ensures before[..i] == trace[..i] && before[i] == trace[i]
    {
    }
  }

  /** Over every run a job's row is what its last effective step made of it. */
  lemma {:induction false} FateLaw(trace: seq<Timed>, id: Id) returns (k: nat)
    requires id in Run(map[], trace)
    ensures LastTaken(trace, k, id) && MadeBy(trace, k, id, Run(map[], trace)[id])
  {
    hide Takes, Makes, Next, MadeBy, LastTaken;
    var n := |trace| - 1;
    var before, x := trace[..n], trace[n];
    StepTakes(Run(map[], before), x, id);
    if Takes(Run(map[], before), x, id) {
      k := n;
      JustTaken(trace, id);
    } else {
      k := FateLaw(before, id);
      LastTakenStays(trace, k, id);
    }
  }

  lemma JustTaken(trace: seq<Timed>, id: Id)
    requires trace != [] && id in Run(map[], trace) && Takes(Run(map[], trace[..|trace| - 1]), trace[|trace| - 1], id)
    ensures LastTaken(trace, |trace| - 1, id) && MadeBy(trace, |trace| - 1, id, Run(map[], trace)[id])
  {
    hide Takes, Makes, Next;
    StepTakes(Run(map[], trace[..|trace| - 1]), trace[|trace| - 1], id);
  }

  lemma OneLast(trace: seq<Timed>, i: nat, k: nat, id: Id)
    requires LastTaken(trace, i, id) && LastTaken(trace, k, id)
    ensures i == k
  {
    hide Takes, Run;
  }

  lemma StatusAfter(trace: seq<Timed>, k: nat, id: Id, j: Job)
    requires LegalTrace(trace) && k < |trace| && MadeBy(trace, k, id, j)
    ensures j.status == Succeeded <==> trace[k].step.DoComplete? && trace[k].step.ok
    ensures j.status == Cancelled <==> trace[k].step.DoCancel?
    ensures j.status == Running <==> trace[k].step.DoClaim?
    ensures j.status == Dead ==> trace[k].step.DoComplete? && !trace[k].step.ok
    ensures j.status == Pending ==> trace[k].step.DoEnqueue? || trace[k].step.DoRelease? || trace[k].step.DoRetry? || (trace[k].step.DoComplete? && !trace[k].step.ok)
  {
    hide Run, Kept, DelayAfter;
    assert Legal(trace[k]);
  }

  /** Over every run a job is succeeded if and only if its last effective step was a successful completion,
      cancelled if and only if it was a cancel, running if and only if it was a claim, and dead, or pending
      again, only by a failed completion, a release or a retry. */
  lemma StatusLaw(trace: seq<Timed>, id: Id) returns (k: nat)
    requires LegalTrace(trace) && id in Run(map[], trace)
    ensures LastTaken(trace, k, id) && forall i :: LastTaken(trace, i, id) ==> i == k
    ensures var s, last := Run(map[], trace)[id].status, trace[k].step;
      && (s == Succeeded <==> last.DoComplete? && last.ok)
      && (s == Cancelled <==> last.DoCancel?)
      && (s == Running <==> last.DoClaim?)
      && (s == Dead ==> last.DoComplete? && !last.ok)
      && (s == Pending ==> last.DoEnqueue? || last.DoRelease? || last.DoRetry? || (last.DoComplete? && !last.ok))
  {
    hide Run, Takes, MadeBy;
    k := FateLaw(trace, id);
    StatusAfter(trace, k, id, Run(map[], trace)[id]);
    forall i | LastTaken(trace, i, id)
      ensures i == k
    {
      OneLast(trace, i, k, id);
    }
  }

  /** A succeeded job is not eligible, no claim, cancel, retry or release moves it, and only a further
      completion does. */
  lemma SucceededStays(t: JobTable, id: Id, x: Timed)
    requires id in t && t[id].status == Succeeded
    ensures forall now :: !Eligible(t, id, now)
    ensures !(x.step.DoComplete? && x.step.id == id) ==> id in Next(t, x) && Next(t, x)[id] == t[id]
    ensures forall now :: Claim(t, id, now).Err?
  {
    StepTakes(t, x, id);
    hide Next;
  }

  /** After a failed completion a job is eligible again exactly from its delay on, unless it is dead; after a
      retry at once. */
  lemma EligibleAgain(t: JobTable, id: Id, message: string, at: Time, now: Time)
    requires id in t
    ensures Eligible(Next(t, Timed(DoComplete(id, false, message), at)), id, now) <==>
      t[id].attempts < t[id].maxAttempts && at + DelayAfter(t[id].attempts) <= now
    ensures t[id].status in {Dead, Cancelled} ==> (Eligible(Next(t, Timed(DoRetry(id), at)), id, now) <==> at <= now)
  {
    hide Next, DelayAfter;
    StepTakes(t, Timed(DoComplete(id, false, message), at), id);
    StepTakes(t, Timed(DoRetry(id), at), id);
  }

  // ----- attempts -----

  /** The claims of a job since it was inserted or last retried. */
  function Claims(trace: seq<Timed>, id: Id): nat {
    if trace == [] then 0
    else
      var before, x := trace[..|trace| - 1], trace[|trace| - 1];
      var t := Run(map[], before);
      if !Takes(t, x, id) then Claims(before, id)
      else if x.step.DoEnqueue? || x.step.DoRetry? then 0
      else if x.step.DoClaim? then Claims(before, id) + 1
      else Claims(before, id)
  }

  /** Over every run a job's attempts are the claims since it was inserted or last retried. */
  lemma {:induction false} AttemptsAreClaims(trace: seq<Timed>, id: Id)
    requires LegalTrace(trace)
    ensures id in Run(map[], trace) ==> Run(map[], trace)[id].attempts == Claims(trace, id)
  {
    if trace != [] {
      hide Next, DelayAfter, Kept;
      var before, x := trace[..|trace| - 1], trace[|trace| - 1];
      assert Legal(x);
      AttemptsAreClaims(before, id);
      StepTakes(Run(map[], before), x, id);
    }
  }

  // ----- ticks -----

  /** How a tick ends whose claim was accepted: the job is succeeded when the executor reported no failure, else
      pending again after its delay, or dead with its attempts used up. */
  lemma TickEnds(t: JobTable, id: Id, failure: Option<string>, o: Others, claimedAt: Time, completed: Time)
    requires var proposed := Run(t, o.claim); id in proposed && Claim(proposed, id, claimedAt).Ok?
    ensures var before := Run(t, o.claim + [Timed(DoClaim(id), claimedAt)] + o.execute);
      var after := Run(t, Proposals(id, true, failure, o, claimedAt, completed));
      && id in before && id in after
      && Makes(before[id], Timed(DoComplete(id, failure == None, Coalesce(failure)), completed), after[id])
      && (failure == None <==> after[id].status == Succeeded)
    ensures o.execute == [] ==>
      Makes(Run(t, o.claim)[id], Timed(DoClaim(id), claimedAt), Run(t, o.claim + [Timed(DoClaim(id), claimedAt)] + o.execute)[id])
  {
    hide Next, Makes, Run, Claim;
    var claim, complete := Timed(DoClaim(id), claimedAt), Timed(DoComplete(id, failure == None, Coalesce(failure)), completed);
    var proposed := Run(t, o.claim);
    ClaimApplies(proposed, id, claimedAt);
    Committed(t, o.claim, [claim]);
    StepTakes(proposed, claim, id);
    Committed(t, o.claim + [claim], o.execute);
    RowsStay(Next(proposed, claim), o.execute, id);
    Committed(t, o.claim + [claim] + o.execute, [complete]);
    StepTakes(Run(t, o.claim + [claim] + o.execute), complete, id);
    assert o.claim + [claim] + o.execute + [complete] == o.claim + [claim] + (o.execute + [complete]);
    if o.execute == [] { assert o.claim + [claim] + o.execute == o.claim + [claim]; }
    CompletionStatus(Run(t, o.claim + [claim] + o.execute)[id], complete, Run(t, Proposals(id, true, failure, o, claimedAt, completed))[id]);
  }

  lemma ClaimApplies(t: JobTable, id: Id, now: Time)
    requires id in t && Claim(t, id, now).Ok?
    ensures Takes(t, Timed(DoClaim(id), now), id)
  {
  }

  lemma CompletionStatus(j: Job, x: Timed, k: Job)
    requires x.step.DoComplete? && Makes(j, x, k)
    ensures x.step.ok <==> k.status == Succeeded
  {
  }

  lemma {:induction false} RowsStay(t: JobTable, trace: seq<Timed>, id: Id)
    requires id in t
    ensures id in Run(t, trace)
  {
    hide Next;
    if trace != [] {
      RowsStay(t, trace[..|trace| - 1], id);
      StepTakes(Run(t, trace[..|trace| - 1]), trace[|trace| - 1], id);
    }
  }
}
