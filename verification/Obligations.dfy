/** What an accepted record payload obliges a replica to write: its event, its audit fact and one job for each
    target that wants its topic, told from the log and the definition rows alone (internal/replicated/fsm.go,
    emitRecordConsequences, enqueueJobs and containsTopic). */
module Obligations {
  import opened Base
  import opened Physical
  import opened Text
  import opened Jobs
  import opened Tables
  import opened Keys
  import opened Fsm
  import opened Runs
  import opened Consequences
  import opened JobConsequences

  // ----- topic lists -----

  /** Unicode's white space. */
  const WHITE_SPACE: set<char> := {
    '\U{9}', '\U{A}', '\U{B}', '\U{C}', '\U{D}', ' ', '\U{85}', '\U{A0}', '\U{1680}',
    '\U{2000}', '\U{2001}', '\U{2002}', '\U{2003}', '\U{2004}', '\U{2005}', '\U{2006}', '\U{2007}', '\U{2008}', '\U{2009}', '\U{200A}',
    '\U{2028}', '\U{2029}', '\U{202F}', '\U{205F}', '\U{3000}'
  }

  predicate Blank(s: string) { forall i :: 0 <= i < |s| ==> s[i] in WHITE_SPACE }

  /** The text without white space around it. */
  predicate Bare(s: string) { s == "" || (s[0] !in WHITE_SPACE && s[|s| - 1] !in WHITE_SPACE) }

  ghost predicate TrimsTo(part: string, want: string) {
    Bare(want) && exists l, r :: Blank(l) && Blank(r) && part == l + want + r
  }

  /** A stretch of the list between commas, with what is around it. */
  predicate Stands(list: string, a: string, part: string, b: string) {
    list == a + part + b && ',' !in part && (a == "" || a[|a| - 1] == ',') && (b == "" || b[0] == ',')
  }

  ghost predicate Part(list: string, part: string) {
    exists a, b :: Stands(list, a, part, b)
  }

  /** The topic is one of the comma-separated parts of the list, white space around it aside. */
  ghost predicate Listed(list: string, topic: string) {
    exists part :: Part(list, part) && TrimsTo(part, topic)
  }

  lemma IsSpaceExactly(c: char)
    ensures IsSpace(c) <==> c in WHITE_SPACE
  {
  }

  lemma {:induction false} TrimLeftCuts(s: string) returns (l: string)
    ensures Blank(l) && s == l + TrimLeft(s)
    ensures TrimLeft(s) != "" ==> TrimLeft(s)[0] !in WHITE_SPACE
  {
    l := "";
    if s != "" {
      IsSpaceExactly(s[0]);
      if IsSpace(s[0]) {
        var rest := TrimLeftCuts(s[1..]);
        l := [s[0]] + rest;
        assert s == [s[0]] + s[1..];
      }
    }
  }

  lemma {:induction false} TrimRightCuts(s: string) returns (r: string)
    ensures Blank(r) && s == TrimRight(s) + r
    ensures TrimRight(s) != "" ==> TrimRight(s)[|TrimRight(s)| - 1] !in WHITE_SPACE
  {
    r := "";
    if s != "" {
      IsSpaceExactly(s[|s| - 1]);
      if IsSpace(s[|s| - 1]) {
        var rest := TrimRightCuts(s[..|s| - 1]);
        r := rest + [s[|s| - 1]];
        assert s == s[..|s| - 1] + [s[|s| - 1]];
      }
    }
  }

  /** A text has one bare core. */
  lemma BareUnique(l: string, a: string, r: string, k: string, b: string, q: string)
    requires Blank(l) && Blank(r) && Blank(k) && Blank(q) && Bare(a) && Bare(b) && l + a + r == k + b + q
    ensures a == b
  {
    var s := l + a + r;
    assert s == k + b + q;
    if a != "" { CoreSpans(l, a, r, k, b, q); }
    if b != "" { CoreSpans(k, b, q, l, a, r); }
    if a != "" && b != "" {
      assert a == s[|l|..|l| + |a|] && b == s[|k|..|k| + |b|];
    }
  }

  lemma CoreSpans(l: string, a: string, r: string, k: string, b: string, q: string)
    requires Blank(k) && Blank(q) && Bare(a) && a != "" && l + a + r == k + b + q
    ensures b != "" && |k| <= |l| && |l| + |a| <= |k| + |b|
  {
    var s := l + a + r;
    assert s == k + b + q;
    assert s[|l|] == a[0] && s[|l| + |a| - 1] == a[|a| - 1];
    assert forall i :: 0 <= i < |k| ==> s[i] == k[i];
    assert forall i :: |k| + |b| <= i < |s| ==> s[i] == q[i - |k| - |b|];
  }

  /** strings.TrimSpace leaves exactly the bare core. */
  lemma TrimSpaceExactly(s: string, want: string)
    ensures TrimSpace(s) == want <==> TrimsTo(s, want)
  {
    var l := TrimLeftCuts(s);
    var r := TrimRightCuts(TrimLeft(s));
    var core := TrimSpace(s);
    assert s == l + core + r;
    if core != "" { assert core[0] == TrimLeft(s)[0]; }
    if TrimsTo(s, want) {
      var k, q :| Blank(k) && Blank(q) && s == k + want + q;
      BareUnique(l, core, r, k, want, q);
    }
  }

  /** Where a part of the split stands in the list. */
  lemma {:induction false} SplitStands(s: string, i: nat) returns (a: string, b: string)
    requires i < |Split(s, ',')|
    ensures Stands(s, a, Split(s, ',')[i], b) && (i == 0 <==> a == "")
  {
    if s == "" {
      a, b := "", "";
    } else {
      var rest := Split(s[1..], ',');
      assert s == [s[0]] + s[1..];
      if i == 0 && s[0] == ',' {
        a, b := "", s;
      } else {
        a, b := SplitStands(s[1..], if s[0] == ',' then i - 1 else i);
        if i > 0 { a := [s[0]] + a; }
      }
    }
  }

  /** A stretch between commas is a part of the split. */
  lemma {:induction false} PartIsSplit(s: string, a: string, part: string, b: string) returns (i: nat)
    requires Stands(s, a, part, b)
    ensures i < |Split(s, ',')| && Split(s, ',')[i] == part && (i == 0 <==> a == "")
  {
    if s == "" {
      i := 0;
    } else {
      assert s == [s[0]] + s[1..];
      if a != "" {
        assert s[0] == a[0] && s[1..] == a[1..] + part + b;
        i := PartIsSplit(s[1..], a[1..], part, b);
        if s[0] == ',' { i := i + 1; }
      } else if part != "" {
        assert s[0] == part[0] && s[1..] == "" + part[1..] + b;
        i := PartIsSplit(s[1..], "", part[1..], b);
        assert part == [part[0]] + part[1..];
      } else {
        i := 0;
      }
    }
  }

  /** containsTopic finds exactly the listed topics. */
  lemma ContainsExactly(list: string, topic: string)
    ensures ContainsTopic(list, topic) <==> Listed(list, topic)
  {
    hide Split, TrimSpace, TrimsTo;
    var parts := Split(list, ',');
    if ContainsTopic(list, topic) {
      var i :| 0 <= i < |parts| && TrimSpace(parts[i]) == topic;
      TrimSpaceExactly(parts[i], topic);
      var a, b := SplitStands(list, i);
      assert Stands(list, a, parts[i], b);
    }
    if Listed(list, topic) {
      var part :| Part(list, part) && TrimsTo(part, topic);
      var a, b :| Stands(list, a, part, b);
      var i := PartIsSplit(list, a, part, b);
      TrimSpaceExactly(part, topic);
    }
  }

  // ----- what a payload obliges -----

  /** A payload of an accepted entry: the entry's position and the payload's place in its batch. */
  datatype Source = Source(p: nat, k: nat)

  /** The record payloads of a command. */
  function RecordsOf(command: Command): seq<Record> {
    match command
    case RecordPut(r) => [r]
    case RecordDelete(r) => [r]
    case RecordBatchPut(rs) => rs
    case _ => []
  }

  /** An accepted payload that names a topic. */
  predicate Speaks(log: Log, s: Source) {
    && s.p < |log| && AcceptedAt(log, s.p)
    && s.k < |RecordsOf(log[s.p].body.op.command)| && RecordsOf(log[s.p].body.op.command)[s.k].topic != ""
  }

  function PayloadAt(log: Log, s: Source): Record
    requires Speaks(log, s)
  {
    RecordsOf(log[s.p].body.op.command)[s.k]
  }

  /** The key of a consequence of that payload: in a batch it carries the payload's place. */
  function KeyText(log: Log, s: Source, kind: string): string
    requires Speaks(log, s)
  {
    var op := log[s.p].body.op;
    "op:" + op.id + ":" + kind + (if op.command.RecordBatchPut? then ":" + Itoa(s.k) else "")
  }

  function When(p: Record): Time { if p.version == 1 then p.createdAt else p.updatedAt }

  /** A text column: the empty text is NULL. */
  predicate Written(column: Option<string>, s: string) {
    if s == "" then column == None else column == Some(s)
  }

  /** The row is the event of that payload. */
  predicate EventFits(log: Log, s: Source, e: Event)
    requires Speaks(log, s)
  {
    var p, t := PayloadAt(log, s), Canon(log, s.p).db.tables;
    && e.topic == p.topic && e.at == When(p) && e.payload == p.eventPayload
    && p.collection in t.collections && Written(e.collection, t.collections[p.collection].name)
    && Written(e.record, p.id) && e.key == Some(KeyText(log, s, "event"))
  }

  /** The row is the audit fact of that payload. */
  predicate AuditFits(log: Log, s: Source, a: AuditFact)
    requires Speaks(log, s)
  {
    var p := PayloadAt(log, s);
    && a.at == When(p) && a.actorKind == p.actorKind && Written(a.actor, p.actor) && a.action == p.auditAction
    && Written(a.target, p.auditTarget) && a.outcome == p.auditOutcome && Written(a.request, p.auditRequest)
    && a.details == p.auditDetails && a.key == Some(KeyText(log, s, "audit"))
  }

  // ----- targets -----

  /** A target of a payload: a webhook or a function, by its ID. */
  datatype Target = Target(source: Source, hook: bool, id: string)

  /** The target's row is there when the payload is accepted, enabled, and lists the payload's topic. */
  ghost predicate Wants(log: Log, x: Target) {
    && Speaks(log, x.source)
    && var t, topic := Canon(log, x.source.p).db.tables, PayloadAt(log, x.source).topic;
       if x.hook then x.id in t.webhooks && t.webhooks[x.id].enabled && Listed(t.webhooks[x.id].topics, topic)
       else x.id in t.functions && t.functions[x.id].enabled && Listed(t.functions[x.id].topics, topic)
  }

  function TargetKey(log: Log, x: Target): string
    requires Speaks(log, x.source)
  {
    KeyText(log, x.source, "job") + ":" + x.id
  }

  /** The row is the job of that target, whatever its lifecycle has done to it: kind, target, topic,
      collection, record, payload and delivery ID. */
  predicate JobFits(log: Log, x: Target, j: Job)
    requires Speaks(log, x.source)
  {
    var p, t, key := PayloadAt(log, x.source), Canon(log, x.source.p).db.tables, TargetKey(log, x);
    && j.kind == (if x.hook then "webhook" else "aws-lambda")
    && j.payload.target == x.id && j.payload.topic == p.topic
    && p.collection in t.collections && j.payload.collection == t.collections[p.collection].name
    && j.payload.record == p.id && j.payload.payload == p.eventPayload
    && j.payload.deliveryId == Sha(key + if x.hook then ":delivery" else ":invocation")
    && j.key == Some(key) && j.maxAttempts == 5 && j.createdAt == When(p)
  }

  /** As it is enqueued: pending, never attempted and due at once. */
  predicate NewlyFits(log: Log, x: Target, j: Job)
    requires Speaks(log, x.source)
  {
    && JobFits(log, x, j) && j.status == Pending && j.attempts == 0 && j.lease == None && j.lastError == None
    && j.availableAt == j.updatedAt == When(PayloadAt(log, x.source))
  }

  // ----- the payloads' consequences, one by one -----

  lemma PayloadsAre(op: Operation)
    ensures |Payloads(op)| == |RecordsOf(op.command)|
    ensures forall k :: 0 <= k < |Payloads(op)| ==>
      Payloads(op)[k] == Due(RecordsOf(op.command)[k], if op.command.RecordBatchPut? then Some(k) else None)
  {
  }

  lemma KeyIs(log: Log, s: Source, kind: string)
    requires Speaks(log, s)
    ensures var op := log[s.p].body.op; SeqKey(op.id, kind, Payloads(op)[s.k].ordinal) == KeyText(log, s, kind)
  {
    AcceptedIsCommitted(log, s.p);
    PayloadsAre(log[s.p].body.op);
    hide Canon, AcceptedAt;
  }

  lemma EmitNeedsCollection(t: Tables, p: Record, op: string, ordinal: Option<nat>)
    requires p.topic != "" && Emit(t, p, op, ordinal).Ok?
    ensures p.collection in t.collections
  {
    hide EnqueueJobs, EmitEvent, EmitAudit;
  }

  lemma {:induction false} BatchNeedsCollections(t: Tables, ps: seq<Record>, op: string, n: nat, k: nat)
    requires k < n <= |ps| && ApplyBatch(t, ps, op, n).Ok? && ps[k].topic != ""
    ensures ps[k].collection in t.collections
  {
    hide PutRecord, Emit, ApplyBatch;
    BatchOk(t, ps, op, n - 1);
    if k == n - 1 {
      BatchKeepsDefinitions(t, ps, op, n - 1);
      var before := ApplyBatch(t, ps, op, n - 1).value;
      RecordsLeaveJournals(before, ps[k]);
      EmitNeedsCollection(PutRecord(before, ps[k]).value, ps[k], op, Some(k));
    } else {
      BatchNeedsCollections(t, ps, op, n - 1, k);
    }
  }

  /** A payload with a topic is accepted only for a collection that is there. */
  lemma SpeakerHasCollection(log: Log, s: Source)
    requires Speaks(log, s)
    ensures PayloadAt(log, s).collection in Canon(log, s.p).db.tables.collections
  {
    var t, op := Canon(log, s.p).db.tables, log[s.p].body.op;
    OperationNeedsCollections(t, op, s.k);
  }

  lemma OperationNeedsCollections(t: Tables, op: Operation, k: nat)
    requires Materialize(t, op).Ok? && k < |RecordsOf(op.command)| && RecordsOf(op.command)[k].topic != ""
    ensures RecordsOf(op.command)[k].collection in t.collections
  {
    hide PutRecord, DeleteRecord, Emit, ApplyBatch;
    match op.command
    case RecordPut(p) =>
      RecordsLeaveJournals(t, p);
      EmitNeedsCollection(PutRecord(t, p).value, p, op.id, None);
    case RecordDelete(p) =>
      RecordsLeaveJournals(t, p);
      EmitNeedsCollection(DeleteRecord(t, p).value, p, op.id, None);
    case RecordBatchPut(ps) => BatchNeedsCollections(t, ps, op.id, |ps|, k);
  }

  // ----- jobs -----

  /** The job owed to a target. */
  function DueFor(log: Log, x: Target): JobDue
    requires Speaks(log, x.source)
  {
    var t, op := Canon(log, x.source.p).db.tables, log[x.source.p].body.op;
    var d := Payloads(op)[x.source.k];
    var name, base := NameOf(t, d.p.collection), JobBase(op.id, d.ordinal);
    JobDue(JobKey(base, x.id), JobOf(if x.hook then WebhookNotice(d.p, name, base) else FunctionNotice(d.p, name, base), x.id))
  }

  /** It has the target's key and names what it is about. */
  lemma DueFits(log: Log, x: Target)
    requires Speaks(log, x.source)
    ensures DueFor(log, x).key == TargetKey(log, x) && NewlyFits(log, x, DueFor(log, x).job)
  {
    hide Canon, OutcomeAt, SeqKey, KeyText;
    SpeakerHasCollection(log, x.source);
    KeyIs(log, x.source, "job");
    PayloadsAre(log[x.source.p].body.op);
  }

  lemma {:induction false} JobsDueMember(t: Tables, op: string, dues: seq<Due>, n: nat, s: JobDue)
    requires n <= |dues|
    ensures s in JobsDue(t, op, dues, n) <==> exists k :: 0 <= k < n && s in JobsDueFor(t, op, dues[k])
  {
    hide JobsDueFor;
    if n > 0 { JobsDueMember(t, op, dues, n - 1, s); }
  }

  /** The jobs of one payload are those owed to the targets that want it. */
  lemma PayloadJobs(log: Log, v: Source, s: JobDue)
    requires v.p < |log| && AcceptedAt(log, v.p) && v.k < |Payloads(log[v.p].body.op)|
    ensures s in JobsDueFor(Canon(log, v.p).db.tables, log[v.p].body.op.id, Payloads(log[v.p].body.op)[v.k]) <==>
      exists x :: Wants(log, x) && x.source == v && s == DueFor(log, x)
  {
    hide Canon, OutcomeAt, JobOf, JobKey, JobBase, ContainsTopic, Listed;
    var t, op := Canon(log, v.p).db.tables, log[v.p].body.op;
    var d := Payloads(op)[v.k];
    PayloadsAre(op);
    if s in JobsDueFor(t, op.id, d) {
      var name, base := NameOf(t, d.p.collection), JobBase(op.id, d.ordinal);
      if s in DueOf(WebhookNotice(d.p, name, base), MatchingWebhooks(t, d.p.topic)) {
        var id :| id in MatchingWebhooks(t, d.p.topic) && s == JobDue(JobKey(base, id), JobOf(WebhookNotice(d.p, name, base), id));
        ContainsExactly(t.webhooks[id].topics, d.p.topic);
        assert Wants(log, Target(v, true, id));
      } else {
        var id :| id in MatchingFunctions(t, d.p.topic) && s == JobDue(JobKey(base, id), JobOf(FunctionNotice(d.p, name, base), id));
        ContainsExactly(t.functions[id].topics, d.p.topic);
        assert Wants(log, Target(v, false, id));
      }
    }
    forall x | Wants(log, x) && x.source == v
      ensures DueFor(log, x) in JobsDueFor(t, op.id, d)
    {
      WantedIsDue(log, x);
    }
  }

  lemma WantedIsDue(log: Log, x: Target)
    requires Wants(log, x)
    ensures x.source.k < |Payloads(log[x.source.p].body.op)|
    ensures DueFor(log, x) in JobsDueFor(Canon(log, x.source.p).db.tables, log[x.source.p].body.op.id, Payloads(log[x.source.p].body.op)[x.source.k])
  {
    hide Canon, OutcomeAt, JobOf, JobKey, JobBase, ContainsTopic, Listed;
    var t, op := Canon(log, x.source.p).db.tables, log[x.source.p].body.op;
    PayloadsAre(op);
    var d := Payloads(op)[x.source.k];
    var name, base := NameOf(t, d.p.collection), JobBase(op.id, d.ordinal);
    if x.hook {
      ContainsExactly(t.webhooks[x.id].topics, d.p.topic);
      assert x.id in MatchingWebhooks(t, d.p.topic);
      assert DueFor(log, x) in DueOf(WebhookNotice(d.p, name, base), MatchingWebhooks(t, d.p.topic));
    } else {
      ContainsExactly(t.functions[x.id].topics, d.p.topic);
      assert x.id in MatchingFunctions(t, d.p.topic);
      assert DueFor(log, x) in DueOf(FunctionNotice(d.p, name, base), MatchingFunctions(t, d.p.topic));
    }
  }

  lemma EntryJobs(log: Log, p: nat, s: JobDue)
    requires p < |log| && AcceptedAt(log, p)
    ensures var op := log[p].body.op;
      s in JobsDue(Canon(log, p).db.tables, op.id, Payloads(op), |Payloads(op)|) <==>
      exists x :: Wants(log, x) && x.source.p == p && s == DueFor(log, x)
  {
    hide Canon, OutcomeAt, JobsDueFor, JobsDue, DueFor, Listed;
    var t, op := Canon(log, p).db.tables, log[p].body.op;
    JobsDueMember(t, op.id, Payloads(op), |Payloads(op)|, s);
    if k :| 0 <= k < |Payloads(op)| && s in JobsDueFor(t, op.id, Payloads(op)[k]) {
      PayloadJobs(log, Source(p, k), s);
    }
    if x :| Wants(log, x) && x.source.p == p && s == DueFor(log, x) {
      WantedIsDue(log, x);
    }
  }

  /** The jobs owed after any log are one for each target that wanted an accepted payload: a webhook or
      function that was there, enabled and listing the payload's topic when the payload was accepted. */
  lemma {:induction false} OwedToWanting(log: Log, n: nat, s: JobDue)
    requires n <= |log|
    ensures s in AllJobs(log, n) <==> exists x :: Wants(log, x) && x.source.p < n && s == DueFor(log, x)
  {
    hide Canon, AcceptedAt, JobsDue, DueFor, Wants;
    if n > 0 {
      OwedToWanting(log, n - 1, s);
      if AcceptedAt(log, n - 1) {
        AcceptedIsCommitted(log, n - 1);
        EntryJobs(log, n - 1, s);
      } else {
        forall x | Wants(log, x)
          ensures x.source.p != n - 1
        {
          WantedIsAccepted(log, x);
        }
      }
    }
  }

  lemma WantedIsAccepted(log: Log, x: Target)
    requires Wants(log, x)
    ensures x.source.p < |log| && AcceptedAt(log, x.source.p)
  {
  }

  /** The job table told from the log: the table holds a row for this target. */
  predicate HasJob(log: Log, jobs: JobTable, x: Target)
    requires Speaks(log, x.source)
  {
    Sha(TargetKey(log, x)) in jobs && JobFits(log, x, jobs[Sha(TargetKey(log, x))])
  }

  lemma FitsSame(log: Log, x: Target, j: Job, k: Job)
    requires Speaks(log, x.source) && JobFits(log, x, k) && SameJob(j, k)
    ensures JobFits(log, x, j)
  {
    hide Canon, AcceptedAt, KeyText;
  }

  /** When target IDs are apart, the job table after any log holds, for every accepted payload and every
      target that wanted it, a row of the right kind that names that target, topic, collection, record and
      payload; and it holds no other row. */
  lemma JobRowsExactly(log: Log, n: nat)
    requires Ordered(log) && n <= |log| && DefinesApart(log)
    ensures forall x :: Wants(log, x) && x.source.p < n ==> HasJob(log, Canon(log, n).db.tables.jobs, x)
    ensures forall id :: id in Canon(log, n).db.tables.jobs ==>
      exists x :: Wants(log, x) && x.source.p < n && id == Sha(TargetKey(log, x))
  {
    hide Canon, AllJobs, DueFor, JobFits, TargetKey, Speaks, Listed;
    ExactlyOnceJobs(log, n);
    var jobs := Canon(log, n).db.tables.jobs;
    forall x | Wants(log, x) && x.source.p < n
      ensures HasJob(log, jobs, x)
    {
      OwedToWanting(log, n, DueFor(log, x));
      OwedHasJob(log, jobs, x);
    }
    forall id | id in jobs
      ensures exists x :: Wants(log, x) && x.source.p < n && id == Sha(TargetKey(log, x))
    {
      assert ForOne(id, AllJobs(log, n));
      var s :| s in AllJobs(log, n) && id == Sha(s.key);
      OwedToWanting(log, n, s);
      var x :| Wants(log, x) && x.source.p < n && s == DueFor(log, x);
      DueFits(log, x);
    }
  }

  lemma OwedHasJob(log: Log, jobs: JobTable, x: Target)
    requires Wants(log, x) && Owed(jobs, DueFor(log, x))
    ensures HasJob(log, jobs, x)
  {
    hide Canon, DueFor, TargetKey, Listed;
    DueFits(log, x);
    FitsSame(log, x, jobs[Sha(TargetKey(log, x))], DueFor(log, x).job);
  }

  // ----- journals -----

  /** The payload names a topic, and for the audit journal an action too. */
  predicate Told(log: Log, s: Source, audit: bool) {
    Speaks(log, s) && (audit ==> PayloadAt(log, s).auditAction != "")
  }

  /** Those among the first k payloads of an entry, in order. */
  function SourcesIn(log: Log, p: nat, k: nat, audit: bool): seq<Source> {
    if k == 0 then []
    else SourcesIn(log, p, k - 1, audit) + if Told(log, Source(p, k - 1), audit) then [Source(p, k - 1)] else []
  }

  function Sources(log: Log, n: nat, audit: bool): seq<Source>
    requires n <= |log|
  {
    if n == 0 then []
    else
      Sources(log, n - 1, audit)
      + if AcceptedAt(log, n - 1) then SourcesIn(log, n - 1, |RecordsOf(log[n - 1].body.op.command)|, audit) else []
  }

  predicate Earlier(a: Source, b: Source) { a.p < b.p || (a.p == b.p && a.k < b.k) }

  predicate InOrder(sources: seq<Source>) {
    forall i, j :: 0 <= i < j < |sources| ==> Earlier(sources[i], sources[j])
  }

  lemma {:induction false} SourcesInExactly(log: Log, p: nat, k: nat, audit: bool)
    ensures InOrder(SourcesIn(log, p, k, audit))
    ensures forall s :: s in SourcesIn(log, p, k, audit) <==> s.p == p && s.k < k && Told(log, s, audit)
  {
    hide Told;
    if k > 0 {
      SourcesInExactly(log, p, k - 1, audit);
      var less, all := SourcesIn(log, p, k - 1, audit), SourcesIn(log, p, k, audit);
      forall i, j | 0 <= i < j < |all|
        ensures Earlier(all[i], all[j])
      {
        assert all[i] == less[i] && less[i] in less;
      }
      forall s
        ensures s in all <==> s.p == p && s.k < k && Told(log, s, audit)
      {
        assert s in less <==> s.p == p && s.k < k - 1 && Told(log, s, audit);
        if s.p == p && s.k == k - 1 { assert s == Source(p, k - 1); }
      }
    }
  }

  /** In log order, and in the order of a batch: exactly the accepted payloads that tell something. */
  lemma {:induction false} SourcesExactly(log: Log, n: nat, audit: bool)
    requires n <= |log|
    ensures InOrder(Sources(log, n, audit))
    ensures forall s :: s in Sources(log, n, audit) <==> s.p < n && Told(log, s, audit)
  {
    hide Told, SourcesIn, AcceptedAt;
    if n > 0 {
      SourcesExactly(log, n - 1, audit);
      ToldIsAccepted(log, audit);
      if AcceptedAt(log, n - 1) {
        AcceptedIsCommitted(log, n - 1);
        var k := |RecordsOf(log[n - 1].body.op.command)|;
        SourcesInExactly(log, n - 1, k, audit);
        OrderedJoin(Sources(log, n - 1, audit), SourcesIn(log, n - 1, k, audit), n - 1);
      }
    }
  }

  lemma ToldIsAccepted(log: Log, audit: bool)
    ensures forall s :: Told(log, s, audit) ==> s.p < |log| && AcceptedAt(log, s.p) && s.k < |RecordsOf(log[s.p].body.op.command)|
  {
  }

  lemma OrderedJoin(a: seq<Source>, b: seq<Source>, p: nat)
    requires InOrder(a) && InOrder(b) && (forall s :: s in a ==> s.p < p) && forall s :: s in b ==> s.p == p
    ensures InOrder(a + b)
  {
    forall i, j | 0 <= i < j < |a + b|
      ensures Earlier((a + b)[i], (a + b)[j])
    {
      if i < |a| <= j { assert a[i] in a && b[j - |a|] in b; }
    }
  }

  /** Row for row, the events of these payloads. */
  predicate EventsFit(log: Log, sources: seq<Source>, events: seq<Event>) {
    |sources| == |events| && forall i :: 0 <= i < |sources| ==> Speaks(log, sources[i]) && EventFits(log, sources[i], events[i])
  }

  predicate AuditsFit(log: Log, sources: seq<Source>, facts: seq<AuditFact>) {
    |sources| == |facts| && forall i :: 0 <= i < |sources| ==> Speaks(log, sources[i]) && AuditFits(log, sources[i], facts[i])
  }

  lemma EventOfFits(log: Log, s: Source)
    requires Speaks(log, s)
    ensures var t, op := Canon(log, s.p).db.tables, log[s.p].body.op; var d := Payloads(op)[s.k];
      EventFits(log, s, EventOf(d.p, NameOf(t, d.p.collection), op.id, d.ordinal))
  {
    hide Canon, OutcomeAt, SeqKey, KeyText;
    SpeakerHasCollection(log, s);
    KeyIs(log, s, "event");
    PayloadsAre(log[s.p].body.op);
  }

  lemma AuditOfFits(log: Log, s: Source)
    requires Speaks(log, s)
    ensures var op := log[s.p].body.op; var d := Payloads(op)[s.k]; AuditFits(log, s, AuditOf(d.p, op.id, d.ordinal))
  {
    hide Canon, OutcomeAt, SeqKey, KeyText;
    KeyIs(log, s, "audit");
    PayloadsAre(log[s.p].body.op);
  }

  lemma ToldExactly(log: Log, p: nat, k: nat)
    requires p < |log| && AcceptedAt(log, p) && k < |Payloads(log[p].body.op)|
    ensures var due := Payloads(log[p].body.op)[k].p;
      && (Told(log, Source(p, k), false) <==> due.topic != "")
      && (Told(log, Source(p, k), true) <==> due.topic != "" && due.auditAction != "")
      && (Told(log, Source(p, k), true) ==> Speaks(log, Source(p, k)))
      && (Told(log, Source(p, k), false) ==> Speaks(log, Source(p, k)))
  {
    hide Canon, OutcomeAt;
    PayloadsAre(log[p].body.op);
  }

  lemma EventsJoin(log: Log, sources: seq<Source>, events: seq<Event>, s: Source, e: Event)
    requires EventsFit(log, sources, events) && Speaks(log, s) && EventFits(log, s, e)
    ensures EventsFit(log, sources + [s], events + [e])
  {
    hide EventFits, Speaks;
  }

  lemma AuditsJoin(log: Log, sources: seq<Source>, facts: seq<AuditFact>, s: Source, a: AuditFact)
    requires AuditsFit(log, sources, facts) && Speaks(log, s) && AuditFits(log, s, a)
    ensures AuditsFit(log, sources + [s], facts + [a])
  {
    hide AuditFits, Speaks;
  }

  lemma {:induction false} EntryEventsFit(log: Log, p: nat, k: nat)
    requires p < |log| && AcceptedAt(log, p) && k <= |Payloads(log[p].body.op)|
    ensures var op := log[p].body.op; EventsFit(log, SourcesIn(log, p, k, false), EventsDue(Canon(log, p).db.tables, op.id, Payloads(op), k))
  {
    hide Canon, OutcomeAt, EventOf, EventFits, NameOf, Told, Speaks, Payloads;
    if k > 0 {
      var op, s := log[p].body.op, Source(p, k - 1);
      var t, d := Canon(log, p).db.tables, Payloads(op)[k - 1];
      EntryEventsFit(log, p, k - 1);
      ToldExactly(log, p, k - 1);
      if Told(log, s, false) {
        EventOfFits(log, s);
        EventsJoin(log, SourcesIn(log, p, k - 1, false), EventsDue(t, op.id, Payloads(op), k - 1), s, EventOf(d.p, NameOf(t, d.p.collection), op.id, d.ordinal));
      }
    }
  }

  lemma {:induction false} EntryAuditsFit(log: Log, p: nat, k: nat)
    requires p < |log| && AcceptedAt(log, p) && k <= |Payloads(log[p].body.op)|
    ensures var op := log[p].body.op; AuditsFit(log, SourcesIn(log, p, k, true), AuditDue(op.id, Payloads(op), k))
  {
    hide Canon, OutcomeAt, AuditOf, AuditFits, Told, Speaks, Payloads;
    if k > 0 {
      var op, s := log[p].body.op, Source(p, k - 1);
      var d := Payloads(op)[k - 1];
      EntryAuditsFit(log, p, k - 1);
      ToldExactly(log, p, k - 1);
      if Told(log, s, true) {
        AuditOfFits(log, s);
        AuditsJoin(log, SourcesIn(log, p, k - 1, true), AuditDue(op.id, Payloads(op), k - 1), s, AuditOf(d.p, op.id, d.ordinal));
      }
    }
  }

  lemma {:induction false} OwedJournalsFit(log: Log, n: nat)
    requires n <= |log|
    ensures EventsFit(log, Sources(log, n, false), AllEvents(log, n))
    ensures AuditsFit(log, Sources(log, n, true), AllAudit(log, n))
  {
    hide Canon, AcceptedAt, SourcesIn, EventsDue, AuditDue, EventFits, AuditFits, Speaks, Payloads;
    if n > 0 {
      OwedJournalsFit(log, n - 1);
      if AcceptedAt(log, n - 1) {
        AcceptedIsCommitted(log, n - 1);
        PayloadsAre(log[n - 1].body.op);
        EntryEventsFit(log, n - 1, |Payloads(log[n - 1].body.op)|);
        EntryAuditsFit(log, n - 1, |Payloads(log[n - 1].body.op)|);
      }
    }
  }

  /** The journals told from the log: one event for each accepted payload with a topic and one audit fact for
      each that also names an action, in log order and numbered from one, each with the topic, time,
      collection, record, payload or actor, action, target, outcome and details of its own payload. */
  lemma JournalRowsExactly(log: Log, n: nat)
    requires Ordered(log) && n <= |log|
    ensures var t := Canon(log, n).db.tables;
      && EventsFit(log, Sources(log, n, false), t.events) && AuditsFit(log, Sources(log, n, true), t.audit)
      && (forall i :: 0 <= i < |t.events| ==> t.events[i].sequence == i + 1)
      && forall i :: 0 <= i < |t.audit| ==> t.audit[i].id == i + 1
  {
    hide Canon, AllEvents, AllAudit, Sources, Speaks, Numbered, NumberedAudit;
    ExactlyOnceJournals(log, n);
    OwedJournalsFit(log, n);
    NumberedFits(log, Sources(log, n, false), AllEvents(log, n));
    NumberedAuditFits(log, Sources(log, n, true), AllAudit(log, n));
  }

  lemma NumberedFits(log: Log, sources: seq<Source>, events: seq<Event>)
    requires EventsFit(log, sources, events)
    ensures EventsFit(log, sources, Numbered(events)) && forall i :: 0 <= i < |events| ==> Numbered(events)[i].sequence == i + 1
  {
    hide Canon, AcceptedAt, KeyText;
  }

  lemma NumberedAuditFits(log: Log, sources: seq<Source>, facts: seq<AuditFact>)
    requires AuditsFit(log, sources, facts)
    ensures AuditsFit(log, sources, NumberedAudit(facts)) && forall i :: 0 <= i < |facts| ==> NumberedAudit(facts)[i].id == i + 1
  {
    hide Canon, AcceptedAt, KeyText;
  }
}
