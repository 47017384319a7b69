/** The consensus-owned tables and what one committed operation does to them inside its transaction
    (internal/replicated/fsm.go, materialize and the apply functions it calls). */
module Tables {
  import opened Base
  import opened Physical
  import opened Jobs
  import opened Text

  // ----- payloads -----

  datatype Definition = Definition(id: string, name: string, kind: string, fields: seq<Field>, createdAt: Time, updatedAt: Time)

  datatype Record = Record(
    collection: string, id: string, version: int, createdAt: Time, updatedAt: Time,
    values: map<string, Json>, idempotencyKey: string,
    topic: string, eventPayload: Json,
    actorKind: string, actor: string, auditAction: string, auditTarget: string, auditOutcome: string,
    auditRequest: string, auditDetails: Json)

  datatype Webhook = Webhook(name: string, url: string, topics: string, cipher: string, enabled: bool, createdAt: Time, updatedAt: Time)

  datatype Function = Function(
    name: string, provider: string, target: string, region: string, topics: string, scopes: string,
    enabled: bool, createdAt: Time, updatedAt: Time)

  datatype Command =
    | CollectionPut(definition: Definition)
    | CollectionDelete(name: string)
    | RecordPut(record: Record)
    | RecordDelete(record: Record)
    | RecordBatchPut(records: seq<Record>)
    | WebhookPut(id: string, webhook: Webhook)
    | WebhookDelete(id: string)
    | FunctionPut(id: string, function_: Function)
    | FunctionDelete(id: string)
    | JobClaim(job: Id)
    | JobComplete(job: Id, ok: bool, message: string)
    | JobReleaseStale
    | JobCancel(job: Id)
    | JobRetry(job: Id)
    | Unusable  // a payload that does not decode, or an unsupported kind

  /** A decoded operation: its identity, the digest of its semantic bytes, its committed timestamp. */
  datatype Operation = Operation(id: string, digest: string, now: Time, command: Command)

  // ----- rows -----

  datatype Collection = Collection(name: string, kind: string, fields: seq<Field>, createdAt: Time, updatedAt: Time)

  datatype Event = Event(
    sequence: int, at: Time, topic: string, collection: Option<string>, record: Option<string>,
    payload: Json, key: Option<string>)

  datatype AuditFact = AuditFact(
    id: int, at: Time, actorKind: string, actor: Option<string>, action: string, target: Option<string>,
    outcome: string, request: Option<string>, details: Json, key: Option<string>)

  /** `names` is the UNIQUE index on collection names, `idem` the record idempotency table. */
  datatype Tables = Tables(
    collections: map<string, Collection>,
    names: map<string, string>,
    rows: map<string, Table>,
    idem: map<(string, string), string>,
    events: seq<Event>,
    audit: seq<AuditFact>,
    jobs: JobTable,
    webhooks: map<string, Webhook>,
    functions: map<string, Function>)

  const EMPTY := Tables(map[], map[], map[], map[], [], [], map[], map[], map[])

  // ----- collections -----

  predicate WholeDefinition(d: Definition) {
    && d.id != "" && d.name != "" && d.createdAt != UNSET && d.updatedAt != UNSET
    && forall f :: f in d.fields ==> f.id != ""
  }

  /** insertFields: the primary key over all field rows and UNIQUE(collection, name). */
  predicate FieldsInsertable(t: Tables, id: string, fields: seq<Field>) {
    && DistinctIds(fields) && DistinctNames(fields)
    && forall other :: other in t.collections && other != id ==> Ids(t.collections[other].fields) !! Ids(fields)
  }

  /** applyCollection. */
  function ApplyCollection(t: Tables, d: Definition): Result<Tables> {
    if !WholeDefinition(d) then Err(Broken)
    else if d.name !in t.names then
      if d.id in t.collections || d.kind != "base" || !FieldsInsertable(t, d.id, d.fields) || !Creatable(d.fields) then Err(Broken)
      else Ok(t.(
                collections := t.collections[d.id := Collection(d.name, d.kind, d.fields, d.createdAt, d.updatedAt)],
                names := t.names[d.name := d.id],
                rows := t.rows[d.id := map[]]))
    else if t.names[d.name] != d.id then Err(CollectionConflict)
    else if d.id !in t.collections || d.id !in t.rows || d.kind != "base" || !FieldsInsertable(t, d.id, d.fields) then Err(Broken)
    else
      var before := t.collections[d.id];
      var rows :- Rebuild(before.fields, d.fields, t.rows[d.id]);
      Ok(t.(
           collections := t.collections[d.id := Collection(d.name, d.kind, d.fields, before.createdAt, d.updatedAt)],
           rows := t.rows[d.id := rows]))
  }

  /** deleteCollection: an absent collection is a no-op; records and idempotency rows go with it. */
  function DeleteCollection(t: Tables, name: string): Tables {
    if name !in t.names then t
    else
      var id := t.names[name];
      t.(collections := t.collections - {id},
         names := t.names - {name},
         rows := t.rows - {id},
         idem := map k | k in t.idem && k.0 != id :: t.idem[k])
  }

  // ----- records -----

  /** encodeField. */
  function Encode(kind: string, v: Json): Cell {
    if kind == "json" && v != JNull then JsonText(v)
    else if kind == "boolean" && v.JBool? then Flag(v.b)
    else if kind == "boolean" && v.JNum? then Flag(v.n != 0.0)
    else
      match v
      case JNull => Null
      case JBool(b) => Flag(b)
      case JNum(n) => Num(n)
      case JStr(s) => Txt(s)
      case JDoc(doc) => Raw(doc)
  }

  function ValueOf(values: map<string, Json>, name: string): Json {
    if name in values then values[name] else JNull
  }

  function Cells(fields: seq<Field>, values: map<string, Json>): map<string, Cell> {
    map i | 0 <= i < |fields| && (forall j :: i < j < |fields| ==> fields[j].id != fields[i].id) ::
      fields[i].id := Encode(fields[i].kind, ValueOf(values, fields[i].name))
  }

  /** putRecord. */
  function PutRecord(t: Tables, p: Record): Result<Tables> {
    if p.collection !in t.collections || p.collection !in t.rows || t.collections[p.collection].fields == [] then Err(Broken)
    else
      var fields, table := t.collections[p.collection].fields, t.rows[p.collection];
      if p.id !in table then
        if p.version != 1 then Err(StalePrecondition)
        else
          var row := Row(1, p.createdAt, p.updatedAt, Cells(fields, p.values));
          var next := table[p.id := row];
          if !TableFits(fields, next) then Err(Broken)
          else if p.idempotencyKey != "" && (p.collection, p.idempotencyKey) in t.idem then Err(StalePrecondition)
          else Ok(t.(
                    rows := t.rows[p.collection := next],
                    idem := if p.idempotencyKey == "" then t.idem else t.idem[(p.collection, p.idempotencyKey) := p.id]))
      else if p.version != table[p.id].version + 1 then Err(StalePrecondition)
      else
        var row := Row(p.version, table[p.id].created, p.updatedAt, Cells(fields, p.values));
        var next := table[p.id := row];
        if !TableFits(fields, next) then Err(Broken)
        else Ok(t.(rows := t.rows[p.collection := next]))
  }

  /** deleteRecord: reading a missing physical table fails; an absent record is a no-op. */
  function DeleteRecord(t: Tables, p: Record): Result<Tables> {
    if p.collection !in t.rows then Err(Broken)
    else if p.id !in t.rows[p.collection] then Ok(t)
    else if t.rows[p.collection][p.id].version != p.version then Err(StalePrecondition)
    else Ok(t.(
              rows := t.rows[p.collection := t.rows[p.collection] - {p.id}],
              idem := map k | k in t.idem && !(k.0 == p.collection && t.idem[k] == p.id) :: t.idem[k]))
  }

  // ----- durable consequences -----

  /** seqKey: no ordinal for a single record, the batch position otherwise. */
  function SeqKey(op: string, kind: string, ordinal: Option<nat>): string {
    match ordinal
    case None => "op:" + op + ":" + kind
    case Some(i) => "op:" + op + ":" + kind + ":" + Itoa(i)
  }

  /** SELECT COALESCE(MAX(sequence),0)+1. */
  function MaxSequence(events: seq<Event>): int {
    if events == [] then 0
    else
      var rest, last := MaxSequence(events[..|events| - 1]), events[|events| - 1].sequence;
      if |events| == 1 || last > rest then last else rest
  }

  function MaxAuditId(audit: seq<AuditFact>): int {
    if audit == [] then 0
    else
      var rest, last := MaxAuditId(audit[..|audit| - 1]), audit[|audit| - 1].id;
      if |audit| == 1 || last > rest then last else rest
  }

  /** INSERT … ON CONFLICT(dedup_key) DO NOTHING. */
  function EmitEvent(events: seq<Event>, e: Event): seq<Event> {
    if e.key.Some? && exists i :: 0 <= i < |events| && events[i].key == e.key then events
    else events + [e.(sequence := MaxSequence(events) + 1)]
  }

  function EmitAudit(audit: seq<AuditFact>, a: AuditFact): seq<AuditFact> {
    if a.key.Some? && exists i :: 0 <= i < |audit| && audit[i].key == a.key then audit
    else audit + [a.(id := MaxAuditId(audit) + 1)]
  }

  function Occurred(p: Record): Time {
    if p.version == 1 then p.createdAt else p.updatedAt
  }

  /** The event of a payload, before its sequence is drawn. */
  function EventOf(p: Record, name: string, op: string, ordinal: Option<nat>): Event {
    Event(0, Occurred(p), p.topic, Nullable(name), Nullable(p.id), p.eventPayload, Some(SeqKey(op, "event", ordinal)))
  }

  function AuditOf(p: Record, op: string, ordinal: Option<nat>): AuditFact {
    AuditFact(0, Occurred(p), p.actorKind, Nullable(p.actor), p.auditAction, Nullable(p.auditTarget), p.auditOutcome,
              Nullable(p.auditRequest), p.auditDetails, Some(SeqKey(op, "audit", ordinal)))
  }

  /** containsTopic. */
  predicate ContainsTopic(list: string, want: string) {
    exists i :: 0 <= i < |Split(list, ',')| && TrimSpace(Split(list, ',')[i]) == want
  }

  function MatchingWebhooks(t: Tables, topic: string): set<string> {
    set id | id in t.webhooks && t.webhooks[id].enabled && ContainsTopic(t.webhooks[id].topics, topic)
  }

  function MatchingFunctions(t: Tables, topic: string): set<string> {
    set id | id in t.functions && t.functions[id].enabled && ContainsTopic(t.functions[id].topics, topic)
  }

  function JobKey(base: string, target: string): string {
    base + [':'] + target
  }

  /** What the jobs of one payload share: their kind, the suffix of the delivery seed, the payload, the
      collection's name and the base of their keys. */
  datatype Notice = Notice(kind: string, purpose: string, p: Record, name: string, base: string)

  /** The job one matching target gets. */
  function JobOf(n: Notice, target: string): Job {
    var key := JobKey(n.base, target);
    NewJob(n.kind, Delivery(target, n.p.topic, n.name, n.p.id, n.p.eventPayload, Sha(key + n.purpose)), Some(key), Occurred(n.p))
  }

  predicate KeyTaken(jobs: JobTable, key: string) {
    exists id :: id in jobs && jobs[id].key == Some(key)
  }

  /** enqueueJob: INSERT … ON CONFLICT(idempotency_key) DO NOTHING; any other collision is an error. */
  function EnqueueJob(jobs: JobTable, n: Notice, target: string): Result<JobTable> {
    var key := JobKey(n.base, target);
    if KeyTaken(jobs, key) then Ok(jobs)
    else if Sha(key) in jobs then Err(Broken)
    else Ok(jobs[Sha(key) := JobOf(n, target)])
  }

  predicate Collides(jobs: JobTable, n: Notice, target: string) {
    !KeyTaken(jobs, JobKey(n.base, target)) && Sha(JobKey(n.base, target)) in jobs
  }

  /** The jobs of all targets at once: the rows of an unordered SELECT. */
  function EnqueueTargets(jobs: JobTable, n: Notice, targets: set<string>): Result<JobTable> {
    if exists id :: id in targets && Collides(jobs, n, id) then Err(Broken)
    else Ok(jobs + NewJobs(jobs, n, targets))
  }

  lemma JobKeyInjective(base: string)
    ensures forall a, b :: JobKey(base, a) == JobKey(base, b) ==> a == b
  {
    forall a, b | JobKey(base, a) == JobKey(base, b)
      ensures a == b
    {
      TailUnique(base + [':'], a, b);
    }
  }

  function NewJobs(jobs: JobTable, n: Notice, targets: set<string>): JobTable {
    JobKeyInjective(n.base);
    map id | id in targets && !KeyTaken(jobs, JobKey(n.base, id)) :: Sha(JobKey(n.base, id)) := JobOf(n, id)
  }

  function JobBase(op: string, ordinal: Option<nat>): string {
    SeqKey(op, "job", ordinal)
  }

  function WebhookNotice(p: Record, name: string, base: string): Notice {
    Notice("webhook", ":delivery", p, name, base)
  }

  function FunctionNotice(p: Record, name: string, base: string): Notice {
    Notice("aws-lambda", ":invocation", p, name, base)
  }

  /** enqueueJobs: webhooks first, then functions. */
  function EnqueueJobs(t: Tables, p: Record, name: string, base: string): Result<JobTable> {
    var jobs :- EnqueueTargets(t.jobs, WebhookNotice(p, name, base), MatchingWebhooks(t, p.topic));
    EnqueueTargets(jobs, FunctionNotice(p, name, base), MatchingFunctions(t, p.topic))
  }

  /** emitRecordConsequences. */
  function Emit(t: Tables, p: Record, op: string, ordinal: Option<nat>): Result<Tables> {
    if p.topic == "" then Ok(t)
    else if p.collection !in t.collections then Err(Broken)
    else
      var name := t.collections[p.collection].name;
      var events := EmitEvent(t.events, EventOf(p, name, op, ordinal));
      var audit := if p.auditAction == "" then t.audit else EmitAudit(t.audit, AuditOf(p, op, ordinal));
      var jobs :- EnqueueJobs(t, p, name, JobBase(op, ordinal));
      Ok(t.(events := events, audit := audit, jobs := jobs))
  }

  /** applyRecordPut. */
  function ApplyRecordPut(t: Tables, p: Record, op: string, ordinal: Option<nat>): Result<Tables> {
    var t1 :- PutRecord(t, p);
    Emit(t1, p, op, ordinal)
  }

  /** applyRecordDelete. */
  function ApplyRecordDelete(t: Tables, p: Record, op: string, ordinal: Option<nat>): Result<Tables> {
    var t1 :- DeleteRecord(t, p);
    Emit(t1, p, op, ordinal)
  }

  /** The first n payloads of a batch, in order; the first failure fails the batch. */
  function ApplyBatch(t: Tables, ps: seq<Record>, op: string, n: nat): Result<Tables>
    requires n <= |ps|
  {
    if n == 0 then Ok(t)
    else
      var t1 :- ApplyBatch(t, ps, op, n - 1);
      ApplyRecordPut(t1, ps[n - 1], op, Some(n - 1))
  }

  // ----- automation definitions -----

  function PutWebhook(t: Tables, id: string, w: Webhook): Result<Tables> {
    if id == "" || w.name == "" || w.url == "" || w.cipher == "" then Err(Broken)
    else if id in t.webhooks then Ok(t.(webhooks := t.webhooks[id := w.(createdAt := t.webhooks[id].createdAt)]))
    else Ok(t.(webhooks := t.webhooks[id := w]))
  }

  function PutFunction(t: Tables, id: string, f: Function): Result<Tables> {
    if id == "" || f.name == "" || f.provider != "aws-lambda" || f.target == "" || f.region == "" then Err(Broken)
    else if id in t.functions then Ok(t.(functions := t.functions[id := f.(createdAt := t.functions[id].createdAt)]))
    else Ok(t.(functions := t.functions[id := f]))
  }

  // ----- one operation -----

  predicate OnJobs(c: Command) {
    c.JobClaim? || c.JobComplete? || c.JobReleaseStale? || c.JobCancel? || c.JobRetry?
  }

  predicate OnRecords(c: Command) {
    c.RecordPut? || c.RecordDelete? || c.RecordBatchPut?
  }

  /** The job lifecycle transitions. */
  function TransitJobs(jobs: JobTable, c: Command, now: Time): Result<JobTable>
    requires OnJobs(c)
  {
    match c
    case JobClaim(id) => Claim(jobs, id, now)
    case JobComplete(id, ok, message) => Ok(Jobs.Complete(jobs, id, ok, message, now))
    case JobReleaseStale => Ok(ReleaseStale(jobs, now))
    case JobCancel(id) => Ok(Cancel(jobs, id, now))
    case JobRetry(id) => Ok(Retry(jobs, id, now))
  }

  /** Record mutations with their consequences. */
  function MutateRecords(t: Tables, op: Operation): Result<Tables>
    requires OnRecords(op.command)
  {
    match op.command
    case RecordPut(p) => ApplyRecordPut(t, p, op.id, None)
    case RecordDelete(p) => ApplyRecordDelete(t, p, op.id, None)
    case RecordBatchPut(ps) => ApplyBatch(t, ps, op.id, |ps|)
  }

  /** Collection and automation definitions. */
  function Define(t: Tables, c: Command): Result<Tables>
    requires !OnJobs(c) && !OnRecords(c)
  {
    match c
    case CollectionPut(d) => ApplyCollection(t, d)
    case CollectionDelete(name) => Ok(DeleteCollection(t, name))
    case WebhookPut(id, w) => PutWebhook(t, id, w)
    case WebhookDelete(id) => Ok(t.(webhooks := t.webhooks - {id}))
    case FunctionPut(id, f) => PutFunction(t, id, f)
    case FunctionDelete(id) => Ok(t.(functions := t.functions - {id}))
    case Unusable => Err(Broken)
  }

  /** materialize, up to the meta rows: the new tables, or the reason the transaction rolls back. */
  function Materialize(t: Tables, op: Operation): Result<Tables> {
    if OnRecords(op.command) then MutateRecords(t, op)
    else if OnJobs(op.command) then
      var jobs :- TransitJobs(t.jobs, op.command, op.now);
      Ok(t.(jobs := jobs))
    else Define(t, op.command)
  }
}
