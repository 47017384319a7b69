# Trestle: a verified model

Trestle stores collections of records, replicates them through a raft log, and derives events, audit
facts and jobs from every accepted change. This project models the parts of it where mistakes would lose
or corrupt data, and proves what they keep, over all inputs, logs and interleavings.

- **The replicated state machine** (`Tables`, `Snapshot`, `Fsm`, `Runs`, `RunLimits`, `Recommits`). `Tables` says
  what one committed operation does to the product tables inside its transaction; `Fsm` holds the replica as
  a class over its durable and volatile fields. `Runs` proves restart transparency and log reduction,
  `RunLimits` shows with concrete logs why each of its conditions is needed, and `Recommits` which logs
  exactly crashes and replays cannot change.
- **What a log leaves behind** (`Keys`, `Consequences`, `JobConsequences`, `Obligations`, `Invariants`,
  `Versions`, `StoredDefinitions`, `RecordContents`, `Acceptance`, `SnapshotLaw`): exactly-once events, audit facts and jobs
  and what each says, the constraints every reachable table satisfies, the record version law, the values,
  keys and definitions stored after any log, and exactly which tables survive a snapshot.
- **Jobs** (`Jobs`, `JobFates`, `FleetJobs`, `JobHandler`, `Standalone`): the laws of the replicated
  transitions, what becomes of each job, the worker statement by statement, and which interleavings of
  standalone statements those transitions explain.
- **SQL placeholders and lists** (`Rebind`, `RebindLaws`, `ListQuery`, `SqlReader`, `ListMeaning`,
  `FilterMeaning`, `Paging`): the PostgreSQL rewriter, the filter compiler and list statement, a reader for
  such statements, what their conditions mean for a row, and cursor walks.
- **Clustering** (`Pairing`, `PairingLaw`, `PairingOrigins`, `Transport`): the two-node pairing protocol with
  lost and late answers and polls by anyone, and the replay window of authenticated requests.
- **Operations** (`ManagedUnit`, `UnitRoundTrip`, `UnitReading`, `FileDeletion`, `FileRuns`, `Physical`,
  `Definition`, `Limiter`): the service unit printer and reader, crash-safe file deletion, schema changes on physical
  tables, and the attempt limiter.

Code that updates tables or buffers step by step is a class or a method with its loops, proved equal to a
specification function; the laws are lemmas about those functions. A SQL transaction is one atomic step on
maps and sequences, a UNIQUE constraint or primary key is a map key. SHA-256 and JSON are taken as
injective, timestamps are integers, and bytes of text are characters. Clocks, random values and the
outcomes of storage and network calls are parameters.

## Where the code and its promises part

Each of these is stated by a lemma, next to the condition under which the promise does hold.

- `persistedIndex` is read at boot and at a restore and never advanced, so restoring a snapshot behind a
  replica that has applied entries since, or installing one between the two indices, can change or lose
  committed state (`RunLimits`). At boot, where both indices agree, restores are transparent.
- A snapshot taken while a restarted replica replays its log carries the replayed index with tables that are
  further; a replica that installs it can accept entries the log rejected
  (`RunLimits.SnapshotDuringReplayDiverges`). At rest the snapshots of all replicas are good.
- An operation ID rejected as a caller's conflict and later committed again is skipped after a restart
  (`RunLimits.RecommittedIdDiverges`, for which logs exactly in `Recommits.SurvivesRestartsIff`).
- A snapshot holding a record above version 1 cannot be restored. Idempotency rows, PostgreSQL constraint
  flags and empty job errors do not survive one (`SnapshotLaw.SnapshotRoundTrip`).
- Two target IDs, one containing a colon, or a webhook and a function with the same ID, can share a job
  key, and one job is not created; every owed job exists exactly when no keys are shared
  (`JobConsequences.OwedJobsExactly`). The IDs the handlers generate, `wh_` and `fn_` with a token, never
  are (`JobConsequences.ProposedIdsAreApart`).
- A tick whose first eligible job is of a kind the node cannot execute claims nothing, also when later jobs
  are executable (`JobHandler.NothingClaimable`, `JobHandler.CapableJobLeftBehind`).
- `finish` reads a job's attempts and writes its verdict in two statements. A job cancelled and retried in
  between can die without an attempt (`Standalone.RetriedJobDies`, exactly when in
  `Standalone.FaithfulIffNotRetried` and `Standalone.InterleavingIsARunIff`).
- The statements of transport calls interleave. An envelope verified within its window is accepted twice when
  its own call or another one prunes by a reading after the window before its insert
  (`Transport.EdgeReplay`, `Transport.EdgeReplayByAnother`, exactly when in `Transport.ReplayExactly`).
- `ApplyDefinition` reads the fields before its transaction. A field added in between is dropped with its
  values (`Definition.FieldAddedMeanwhileIsLost`, exactly when in
  `Definition.AcceptedDefinitionLosesNothingIff`).
- A collection may have a field called `id`. The default list then sorts by that field while its cursor
  compares record ids, and a walk can miss records (`Paging.CompleteIffNoIdField`,
  `Paging.IdFieldLosesARecord`).
- Under a row rule a cursor walk can end before the last visible record (`Paging.HiddenRowEndsTheWalk`,
  exactly when in `Paging.RuledWalkListsExactly`).
- A rotation replaces only one side's secret (`PairingLaw.RotationDisagrees`).

## Model

| member | source | states |
|---|---|---|
| `Fsm.FSM.constructor` | internal/replicated/fsm.go:129-160 | a started replica knows exactly the operation rows, index and term the last process left durable, and is not poisoned |
| `Fsm.FSM.Apply` | internal/replicated/fsm.go:175-226 | statement by statement, one delivered entry leaves every field and table as the step of the specification does, and answers accordingly: dedup, reused ID, replayed entry, conflict, poison |
| `Fsm.FSM.Transact` | internal/replicated/fsm.go:231-361 | the transaction of a record command, with its loops over batch payloads and matching targets, yields the tables `Materialize` specifies or fails as a whole |
| `Fsm.EnqueueEach` | internal/replicated/fsm.go:437-507 | enqueuing target after target in any row order yields the jobs of all targets at once, or fails exactly when one of them collides |
| `Fsm.FSM.Restore` | internal/replicated/fsm.go:924-1005 | replaying the saved collections and records and replacing the consequence tables commits everything or changes nothing; behind the boot index only unknown IDs are learnt |
| `Runs.RestartTransparency` | internal/replicated/fsm.go:129-160 | when no ID rejected as a conflict is committed again: through every interleaving of deliveries, crashes with replay, restores at or behind the durable index and installed snapshots, tables, index and term are those of the undisturbed replica, and known operations are up to IDs of rejected entries; they are the final ones once the log is delivered |
| `Runs.RecommittedExactly` | internal/replicated/fsm.go:191-226 | a healthy replica that knows the next entry's ID only from a rejected entry stays with the undisturbed replica if and only if that entry is not accepted and carries another digest, or is accepted without changing a table and carries the recorded one; what it answers in each case |
| `Recommits.SurvivesRestartsIff` | internal/replicated/fsm.go:129-226 | through every life of deliveries, crashes and replays a replica has the tables, index, term and health of the one that never restarts, if and only if every ID rejected as a conflict that is committed again, once the durable index has passed the rejected entry, is either rejected again with another digest or accepted with the same digest and without changing a table |
| `Recommits.HarmfulLogFails` | internal/replicated/fsm.go:199-226 | the life that shows it: deliver up to the first entry violating the condition, restart, deliver up to it again and through it |
| `Runs.RestSnapshots` | internal/replicated/fsm.go:914-922 | the snapshot of any replica, restarted or not, that is not in the middle of a replay is one restart transparency may install |
| `Runs.LiveTracks` | internal/replicated/fsm.go:191-226 | each single event of a replica's life keeps it on the track of the undisturbed one |
| `Runs.LogReduction` | internal/replicated/fsm.go:183-226 | the accepted entries alone are all accepted again and rebuild the same tables and known operations |
| `Runs.NotAcceptedIsNoop` | internal/replicated/fsm.go:183-226 | a rejected, repeated, replayed or fenced entry changes neither tables nor known operations |
| `Runs.PoisonFreezes` | internal/replicated/fsm.go:1064-1069 | after the first hard failure nothing durable changes any more |
| `Runs.AnswersExactly` | internal/replicated/fsm.go:183-226 | what the replica answers to every entry: acknowledged exactly for accepted entries and repeats of one, reused for a known ID with another digest, else its fault or fenced |
| `Runs.PoisonedExactly` | internal/replicated/fsm.go:183-226 | an entry poisons the replica if and only if it cannot be read or fails in any way but the two conflicts of the caller |
| `Runs.RestoreBehindTeaches` | internal/replicated/fsm.go:937-949 | a snapshot at or behind the index of the boot teaches the unknown operation IDs and nothing else |
| `RunLimits.RecommittedIdDiverges` | internal/replicated/fsm.go:205-212 | a whole run in which a rejected ID is committed again after a restart and the tables come out different |
| `RunLimits.SnapshotDuringReplayDiverges` | internal/replicated/fsm.go:914-922 | a snapshot taken while a restarted replica replays carries an index behind its tables, and a new replica that installs it accepts an entry the log rejected |
| `RunLimits.RestoreBehindARunningReplicaDiverges` | internal/replicated/fsm.go:937-949 | a restore behind a replica that has applied entries since it booted re-judges a rejected entry and changes the tables, because `persistedIndex` is the index of the boot |
| `RunLimits.InstallBehindTheDurableIndexLosesEntries` | internal/replicated/fsm.go:937-1004 | a snapshot between boot index and durable index is installed in full but stale operation rows stay, so a later crash loses the entries they name |
| `Keys.SeqKeyInjective` | internal/replicated/fsm.go:1357-1362 | a consequence key names one operation and one ordinal, whatever characters the operation ID contains |
| `Keys.JobKeyIdentifies` | internal/replicated/fsm.go:437-507 | a job key names its operation, ordinal and target when target IDs are free of colons |
| `Keys.ColonInTargetCollides` | internal/replicated/fsm.go:437-507 | for all operations and targets: with a colon in a target ID two operations claim the same job key |
| `Keys.GeneratedIdInjective` | internal/replicated/controller.go:36-46 | generated operation IDs of different nodes, epochs or counters differ |
| `Keys.Controller.NextId` | internal/replicated/controller.go:31-46 | a request's own ID is kept; a generated one was not used by this process before |
| `Consequences.ExactlyOnceJournals` | internal/replicated/fsm.go:379-435 | after any log the event and audit tables hold exactly what the accepted payloads owe, in log order, numbered 1 to n |
| `Consequences.OperationEmits` | internal/replicated/fsm.go:379-435 | one accepted operation appends exactly its own events and audit facts |
| `Obligations.JournalRowsExactly` | internal/replicated/fsm.go:379-435 | the journals told from the log: one event for each accepted payload with a topic, one audit fact for each that also names an action, in log order, numbered from one, each with the columns of its own payload |
| `Obligations.SourcesExactly` | internal/replicated/fsm.go:379-435 | which payloads these are, and that they come in log and batch order |
| `JobConsequences.OwedJobsExactly` | internal/replicated/fsm.go:437-507 | after any log every job owed, one per target enabled and matching at its entry, has its own row if and only if no two owed jobs share a key, and then there is no other row |
| `JobConsequences.ExactlyOnceJobs` | internal/replicated/fsm.go:437-507 | with target IDs free of colons and not shared between webhooks and functions no two owed jobs share a key, and each has exactly one row |
| `Obligations.OwedToWanting` | internal/replicated/fsm.go:437-507 | a job is owed for exactly the targets whose row is there, enabled and lists the payload's topic among its comma-separated parts, white space aside, when the payload is accepted; webhooks and functions |
| `Obligations.DueFits` | internal/replicated/fsm.go:437-507 | an owed job has its kind and names its target, topic, collection, record, payload and delivery; it is pending and due at once |
| `Obligations.JobRowsExactly` | internal/replicated/fsm.go:437-507 | with target IDs apart, the job table after any log holds such a row for every accepted payload and every target that wanted it, and no other row |
| `Obligations.ContainsExactly` | internal/replicated/fsm.go:1364-1371 | the topic test finds exactly the listed topics |
| `JobConsequences.ProposedIdsAreApart` | internal/webhooks/handler.go:169 | the IDs proposers give webhooks and functions are of that shape |
| `JobConsequences.ColonInTargetLosesAJob` | internal/replicated/fsm.go:437-507 | a colon in a target ID can cost a second operation its job |
| `JobConsequences.EnqueueAddsDue` | internal/replicated/fsm.go:437-507 | enqueuing for targets whose owed jobs share no key succeeds and adds exactly the missing ones |
| `JobConsequences.SharedTargetIdLosesAJob` | internal/replicated/fsm.go:437-507 | a webhook and a function with the same ID share a job key, and the function gets no job |
| `Invariants.CanonConsistent` | internal/replicated/fsm.go:231-361 | in the tables of every log each stored row satisfies its collection's column constraints, indices agree, field IDs are unique across collections and consequence keys are unique |
| `Invariants.CollectionPutKeepsStored` | internal/replicated/fsm.go:517-604 | creating or redefining a collection keeps every constraint |
| `Invariants.PutShape` | internal/replicated/fsm.go:627-697 | an accepted put writes one row of one table at the next version, into a table that still fits its columns |
| `RecordContents.PutStores` | internal/replicated/fsm.go:627-697 | an accepted put leaves, for each field, the value the payload carries under its name, told type by type, or NULL where it carries none; the payload's version and update time, the record's own creation time, and every other record as it was |
| `RecordContents.PutOutcome` | internal/replicated/fsm.go:627-697 | exactly which puts are accepted and how the others fail: unknown collection, stale version, a value that does not suit its column or is taken in a unique one, a reused idempotency key |
| `RecordContents.DeleteOutcomeExactly` | internal/replicated/fsm.go:699-721 | exactly what a delete does: removes the record at its version, nothing for an absent one, stale otherwise |
| `RecordContents.RecordLaw` | internal/replicated/fsm.go:627-721 | after any log a record is there if and only if it was put since its last deletion, with the version and update time of its last accepted put and the creation time of the first |
| `RecordContents.ValueLaw` | internal/replicated/fsm.go:517-697 | after any log, through every definition change, each record has exactly its collection's fields, and each cell is the value its last accepted put carried for that field, or NULL for a field defined since |
| `RecordContents.LastPutHolds` | internal/replicated/fsm.go:627-697 | as long as its collection is not defined anew a record holds exactly the values of its last accepted put, single or in a batch |
| `RecordContents.IdempotencyLaw` | internal/replicated/fsm.go:663-667 | after any log an idempotency key belongs to a record if and only if the record's first put since its last deletion carried it |
| `Acceptance.RecordsAcceptedExactly` | internal/replicated/fsm.go:257-377 | with target IDs apart, a record entry is accepted exactly when its puts one after the other, or its delete, are, and otherwise fails as they do: consequences never refuse it |
| `StoredDefinitions.CollectionLaw` | internal/replicated/fsm.go:517-620 | after any log a collection is there if and only if it was defined since it was last deleted, and is what its last accepted definition says |
| `StoredDefinitions.AutomationLaw` | internal/replicated/fsm.go:723-755 | the same of webhooks and functions: the row is the last accepted definition, created when the first was |
| `StoredDefinitions.CollectionOutcome` | internal/replicated/fsm.go:517-604 | exactly which collection definitions are accepted, and how the others fail |
| `StoredDefinitions.AutomationOutcome` | internal/replicated/fsm.go:723-750 | exactly which webhook and function definitions are accepted |
| `StoredDefinitions.DeletionsOutcome` | internal/replicated/fsm.go:252-360 | deletions of definitions are always accepted, undecodable payloads never |
| `Invariants.OperationKeepsConsistent` | internal/replicated/fsm.go:231-361 | every accepted operation keeps the tables consistent |
| `Versions.VersionLaw` | internal/replicated/fsm.go:627-719 | since its last deletion a record's accepted puts carried exactly the versions 1, 2, …, up to its current one |
| `Versions.OneUpdateWins` | internal/replicated/fsm.go:654-690 | of two updates built on the same version of a record at most one is accepted, unless it was deleted in between |
| `Versions.DeleteNeedsCurrentVersion` | internal/replicated/fsm.go:699-721 | a delete of a present record goes through only at its current version, and at any other is rejected as stale |
| `Versions.BatchIsAtomic` | internal/replicated/fsm.go:268-277 | a batch moves every record by exactly its payloads or changes no table |
| `SnapshotLaw.SnapshotRoundTrip` | internal/replicated/fsm.go:924-1045 | a restore reproduces the saved tables if and only if every record is at version 1, every collection with records has a field, there are no idempotency rows, no constraint flags under PostgreSQL and no empty job error |
| `SnapshotLaw.RestoreOutcome` | internal/replicated/fsm.go:924-1045 | a restore succeeds exactly when the records are at version 1 in collections with a field, and then yields the stated mirror of the saved tables whatever the receiver held |
| `SnapshotLaw.RestoreReproducesReplica` | internal/replicated/fsm.go:914-1005 | a replica behind the snapshot of any other, whatever restarts and restores that one went through, gets its tables, index, term and digests, or, with a record above version 1, stays exactly as it was |
| `SnapshotLaw.PortableSnapshotInstalls` | internal/replicated/fsm.go:1078-1277 | the portable snapshots of such replicas are the ones restart transparency may install |
| `SnapshotLaw.RowSurvives` | internal/replicated/fsm.go:1281-1302 | decoding a stored row for a snapshot and encoding it again gives its cells back |
| `Jobs.AttemptLaw` | internal/replicated/fsm.go:757-819 | over every run of job transitions attempts stay within the maximum plus the lease releases, and a job runs exactly while it has a lease |
| `Jobs.DeadLaw` | internal/replicated/fsm.go:777-803 | in every run of job transitions a job is dead only with all its attempts used up |
| `Jobs.ClaimsAreSeparated` | internal/replicated/fsm.go:757-819 | between two claims of a job lies its completion, its cancel, or a release later than the first claim plus 30 seconds |
| `JobFates.FateLaw` | internal/replicated/fsm.go:757-819 | over every run a job's row is what its last effective transition made of it: status, lease, attempts, availability with the delay by attempts, error and times |
| `JobFates.StatusLaw` | internal/replicated/fsm.go:757-819 | over every run a job is succeeded if and only if its last effective transition was a successful completion, cancelled if and only if it was a cancel, running if and only if it was a claim |
| `JobFates.SucceededStays` | internal/replicated/fsm.go:757-819 | a succeeded job is not eligible, and no claim, cancel, retry or release moves it |
| `JobFates.EligibleAgain` | internal/replicated/fsm.go:777-819 | after a failed attempt a job is eligible exactly from 2 to the min(attempts, 8) seconds on, unless it is dead; after a retry at once |
| `JobFates.AttemptsAreClaims` | internal/replicated/fsm.go:757-819 | over every run a job's attempts are its claims since it was inserted or last retried |
| `JobFates.TickEnds` | internal/jobs/handler.go:181-209 | a tick whose claim was accepted leaves its job succeeded if and only if the executor reported no failure, else pending after its delay, or dead |
| `JobHandler.Handler.RunOneLocal` | internal/jobs/handler.go:137-180 | an undisturbed standalone tick computes the table of a release, or of a release, a claim and a completion, in the replicated machine; it claims if and only if the eligible job first by availability and ID is of a kind the node can execute, and then that one |
| `JobHandler.Handler.RunOneReplicated` | internal/jobs/handler.go:181-209 | whatever others commit before its release, its selection, its claim and during the execution, the replicated tick leaves the table of that run of transitions; it selects the first eligible job of the table it reads if the node can execute it, and completes it if and only if its claim is accepted when committed |
| `JobHandler.Handler.ClaimNext` | internal/jobs/handler.go:141-165 | the claiming transaction leases exactly that job, or changes nothing |
| `JobHandler.NothingClaimable` | internal/jobs/handler.go:145-159 | a tick claims nothing if and only if nothing is eligible or the first eligible job is of a kind the node cannot execute |
| `JobHandler.CapableJobLeftBehind` | internal/jobs/handler.go:145-159 | a capable eligible job is left behind an incapable earlier one |
| `Standalone.InterleavingIsARunIff` | internal/jobs/handler.go:84-352 | an interleaving of standalone statements, a failing finish being a read and a later write, is statement by statement a run of the replicated transitions at the same times, up to update times, if and only if each failing write does what a completion at that moment would: same verdict and delay on the row as it is by then, or the row is gone or looks like that already |
| `Standalone.FaithfulIsARun` | internal/jobs/handler.go:84-352 | such an interleaving leaves the table of a legal trace of transitions, up to update times, and obeys its attempt law |
| `Standalone.FaithfulIffNotRetried` | internal/jobs/handler.go:228-246 | with requests alone between the two statements of the finish of a claimed job, its write does what a completion would if and only if no retry of the job took effect in between |
| `Standalone.LocalAttemptLaw` | internal/jobs/handler.go:84-352 | in every interleaving, with any number of workers, a job runs exactly while it has a lease, and attempts stay within the maximum plus the lease releases and the stale writes that made a used-up job pending |
| `Standalone.OneWorkerAttemptLaw` | internal/jobs/handler.go:110-123 | with one worker, whatever requests come in between, there are no such writes and the attempt law of the replicated machine holds |
| `Standalone.RetriedJobDies` | internal/jobs/handler.go:228-246 | in any run, a job on its last attempt that is cancelled and retried between the statements of its finish ends dead with no attempt made, which no run of replicated transitions reaches |
| `Standalone.LastAttemptIsReached` | internal/jobs/handler.go:137-180 | a run in which a job is claimed any number of times, so the case arises |
| `Standalone.OverlappingWorkersExceedTheMaximum` | internal/jobs/handler.go:228-246 | two overlapping workers give a job a sixth attempt of five without a lease release since its retry |
| `Standalone.LocalKeysApart` | internal/jobs/handler.go:84-109 | in every interleaving at most one job has an idempotency key |
| `Standalone.SubmissionAdds` | internal/jobs/handler.go:84-109 | a submission under a known key changes nothing; any other adds one job, eligible from then on |
| `JobHandler.Handler.NextEligible` | internal/jobs/handler.go:145-153 | the scan picks the eligible pending job that is first by availability and ID, or none when none is eligible |
| `JobHandler.Handler.Finish` | internal/jobs/handler.go:228-246 | an undisturbed standalone finish, a read and a write, computes the replicated completion |
| `JobHandler.Handler.WriteFailure` | internal/jobs/handler.go:233-246 | the failing write gives the row the verdict and the delay of what was read, whatever the row holds by then |
| `JobHandler.Handler.Action` | internal/jobs/handler.go:324-352 | the standalone cancel computes its replicated counterpart, and the retry does when its two clock readings coincide, otherwise up to the update time |
| `JobHandler.Handler.Enqueue` | internal/jobs/handler.go:84-109 | at most one job per idempotency key, and a repeated submission gets the job it made |
| `Jobs.RunConcat` | internal/replicated/fsm.go:757-819 | running one list of transitions after another is running both as one list |
| `Jobs.IdleReleaseIsNoop` | internal/jobs/handler.go:181-186 | a release with nothing running changes nothing, so skipping it is sound |
| `FleetJobs.FleetAttemptLaw` | internal/replicated/fsm.go:757-819 | the attempt law on whole logs, whatever other operations are interleaved |
| `FleetJobs.FleetClaimsAreSeparated` | internal/replicated/fsm.go:757-819 | the separation of claims on whole logs |
| `FleetJobs.JobOperationMakes` | internal/replicated/fsm.go:300-345 | what each accepted job operation makes of each row of the replicated table |
| `FleetJobs.JobOperationOutcome` | internal/replicated/fsm.go:757-775 | a claim is stale exactly for a job that is there but not pending or not due; every other job operation is accepted |
| `Rebind.RebindPostgres` | internal/store/dialect.go:24-92 | the five-state scanner computes the outcome that reading the statement piece by piece and numbering its marks defines |
| `RebindLaws.RebindOutcome` | internal/store/dialect.go:24-92 | success if and only if every region closes and no dollar sign of code precedes a digit; then the k-th mark of code has become number k and nothing else has changed |
| `RebindLaws.RebindingKeepsRegions` | internal/store/dialect.go:22-92 | scanning the result finds the same quoted and commented regions byte for byte |
| `RebindLaws.UnbindRecovers` | internal/store/dialect.go:77-80 | turning the numbers back into marks recovers the input if and only if no mark of code is directly followed by a digit |
| `RebindLaws.LexicalReadsBack` | internal/store/dialect.go:24-92 | every admissible sequence of code bytes and regions is read back from its own text |
| `ListQuery.Compile` | internal/query/query.go:58-91 | the clause loop yields the condition text and its operands, or the first clause's refusal |
| `ListQuery.ListSql` | internal/records/handler.go:538-594 | the list statement and its arguments for every sort and cursor, or the refusal |
| `ListQuery.ArgumentsAlign` | internal/records/handler.go:538-594 | the arguments are the non-null clause values in order, then the cursor, then the limit; rebinding numbers each comparison by the position of its own operand and the limit by the last one |
| `ListQuery.QuotedSpells` | internal/query/query.go:117 | a quoted identifier is one region of the statement whatever its name contains |
| `ListMeaning.StatementReads` | internal/records/handler.go:538-594 | the statement text, scanned and parsed by the SQL grammar, asks for exactly the planned columns, table, conditions, sort keys and limit |
| `FilterMeaning.StatementMeans` | internal/records/handler.go:538-594 | the database finds the statement's conditions true of a row, with the arguments in order, if and only if the row satisfies every clause of the filter and lies beyond the cursor; and the order is the requested one |
| `FilterMeaning.FilterHolds` | internal/query/query.go:58-91 | for every accepted filter and every row all conditions hold if and only if all clauses hold |
| `FilterMeaning.LikeContained` | internal/query/query.go:78-85 | the pattern between two percent signs matches exactly the texts with a stretch that matches the clause's value |
| `FilterMeaning.FilterAcceptedExactly` | internal/query/query.go:93-117 | a filter is accepted if and only if every clause names a field it may be compared with; otherwise the first other clause is reported |
| `FilterMeaning.RequestAcceptedExactly` | internal/records/handler.go:538-583 | exactly which list requests are accepted |
| `FilterMeaning.CursorIdsExactly` | internal/records/handler.go:925-927 | which record ids a cursor may carry |
| `Paging.List` | internal/records/handler.go:498-536 | the page loop keeps the visible rows in order and issues a cursor exactly when the page is full |
| `Paging.CursorIssued` | internal/records/handler.go:524-534 | a page issues a cursor if and only if its answer is full and every row of it shows |
| `Paging.PlannedIsReturned` | internal/records/handler.go:498-594 | the answers of a walk are what the database returns for the text and arguments of its requests' statements |
| `Paging.CompleteIffNoIdField` | internal/records/handler.go:541-567 | the default walk lists exactly the records that satisfy the filter, for every filter, limit and table, if and only if the collection has no field called id |
| `Paging.IdFieldLosesARecord` | internal/records/handler.go:541-583 | with a field called id a two-record table loses a record: its pages and the record never listed |
| `Paging.WalkListsExactly` | internal/records/handler.go:498-594 | with no such field and no row rule, following the cursors over an unchanging table lists every record that satisfies the filter's clauses exactly once, in order |
| `Paging.WalkEnds` | internal/records/handler.go:498-594 | the full pages of a walk hold different matching records, so the walk ends |
| `Paging.NextRequestAccepted` | internal/records/handler.go:562-583 | the request with the issued cursor is accepted, adds only the condition beyond the cursor and keeps the order, which is by id exactly when no field is called id |
| `Paging.RuledWalkListsExactly` | internal/records/handler.go:524-534 | under a row rule a walk lists exactly the visible matches if and only if no visible match lies beyond a full answer that contains a hidden row |
| `Paging.HiddenRowEndsTheWalk` | internal/records/handler.go:524-534 | three records, the second hidden, limit two: the first answer is full but shows one row, and a visible record lies beyond |
| `Pairing.Service.SubmitJoin` | internal/cluster/pairing.go:35-88 | a submission is accepted exactly against a pending, unexpired invitation, uses it up and files one pending request |
| `Pairing.Service.DecideJoin` | internal/cluster/pairing.go:123-158 | only a pending, unexpired request is decided; an approval writes the member row with the requester's credential |
| `Pairing.Service.PollJoin` | internal/cluster/pairing.go:162-206 | a credential is released only for an approved request, whose member row then holds its digest |
| `Pairing.Service.BeginOutbound` | internal/cluster/pairing.go:225-272 | the guest records the receipt of exactly the request the host filed, if the answer arrives |
| `Pairing.Service.CollectOutbound` | internal/cluster/pairing.go:294-344 | collecting writes the released credential and the digest of the recorded one, or the other node's state |
| `PairingLaw.OneRequestPerInvitation` | internal/cluster/pairing.go:53-84 | in every run each invitation yields at most one join request |
| `PairingLaw.ReleasedAtMostOnce` | internal/cluster/pairing.go:176-202 | in every run a request releases its credential at most once |
| `PairingLaw.CollectedJoinAgrees` | internal/cluster/pairing.go:123-344 | once an approved join is collected and nothing else has written secrets between the two nodes since the approval, each side presents exactly the secret whose digest the other holds |
| `PairingLaw.RunsAreSound` | internal/cluster/pairing.go:35-344 | in every run outbound rows match requests at the host and answers in flight match both |
| `PairingOrigins.WrongSecretRefused` | internal/cluster/pairing.go:162-178 | a poll with any other secret is refused and leaves both nodes as they were |
| `PairingOrigins.RightSecretAnswered` | internal/cluster/pairing.go:162-206 | what a poll with the right secret answers and changes: a release exactly for an approved request |
| `PairingOrigins.ReleaseLaw` | internal/cluster/pairing.go:162-206 | in every run, with polls of any request by anyone with any secret, a release answers a presenter of the secret drawn when that request was submitted, after the host approved it |
| `PairingOrigins.RequestLaw` | internal/cluster/pairing.go:35-88 | every request of a run was filed by one of its submissions and holds the values drawn there |
| `PairingOrigins.FiledOnInvite` | internal/cluster/pairing.go:53-84 | a request is filed only with the token of an earlier invite of that host, before its expiry |
| `PairingOrigins.ApprovalLaw` | internal/cluster/pairing.go:123-158 | an approved or used request was approved by a decision of that host, while pending, before its expiry, for a compatible peer |
| `PairingOrigins.JoinFiles` | internal/cluster/pairing.go:35-88 | an accepted submission files its request and uses the invitation up; any other leaves the host alone |
| `PairingOrigins.JoinRecords` | internal/cluster/pairing.go:225-272 | the guest of an accepted submission whose receipt arrives records the request filed, its secret and its own credential |
| `PairingOrigins.InviteIssues` | internal/cluster/cluster.go:133-160 | an invite issues a pending invitation under a fresh token |
| `PairingOrigins.DecideSettles` | internal/cluster/pairing.go:123-158 | a decision settles exactly its pending request; an approval makes the requester a member with the credential it brought |
| `PairingOrigins.AnswerReceived` | internal/cluster/pairing.go:294-344 | what the receipt of each answer makes of the guest |
| `PairingOrigins.MemberLaw` | internal/cluster/pairing.go:123-344 | in every run a node knows the other as a member only after approving a join of it or collecting a credential from it |
| `PairingOrigins.OperatorActs` | internal/cluster/cluster.go:254-312 | standings change only for members not revoked, secrets rotate only for active ones, and only revoked ones are removed |
| `PairingOrigins.VersionCounts` | internal/cluster/pairing.go:148-196 | a member row's credential version is one when it appears and one more each time its secrets are written |
| `PairingLaw.RotationDisagrees` | internal/cluster/cluster.go:291-306 | in every run, rotating one side of an agreed pair breaks the agreement |
| `Transport.Transport.Authenticate` | internal/cluster/transport.go:37-73 | a call with no other in between accepts exactly a verified, fresh envelope of a member whose nonce is not recorded or is pruned by its own delete, and does what its check, delete and insert do as events |
| `Transport.ReplayExactly` | internal/cluster/transport.go:37-73 | over every interleaving of the checks, deletes and inserts of calls and of membership changes: the next use of an accepted nonce is accepted if and only if it passes the checks, its sender is a member, and between the two inserts the sender was removed or some call, its own or another, deleted with a cutoff later than the first use was seen |
| `Transport.ReplayOnlyAtTheEdge` | internal/cluster/transport.go:37-73 | while its sender stays a member and the first call's clock does not run back, an envelope is accepted twice only if some delete between the two inserts read the clock after the end of its window, though the second call was verified within it |
| `Transport.AcceptedWasChecked` | internal/cluster/transport.go:37-63 | every accepted call had passed its checks, once: verified signature, known sender, timestamp within the skew of both readings |
| `Transport.FirstUseAccepted` | internal/cluster/transport.go:64-70 | the first use of a nonce by a call past its checks is accepted while its sender is a member |
| `Transport.NoReplay` | internal/cluster/transport.go:64-68 | on the same terms no envelope is accepted twice when every delete before the second insert used a reading no later than the one that verified the second call |
| `Transport.EdgeReplay` | internal/cluster/transport.go:43-68 | an envelope first seen at the earliest admissible moment is accepted again at the latest when its own call prunes by a later reading |
| `Transport.EdgeReplayByAnother` | internal/cluster/transport.go:43-68 | it is also accepted again when every call prunes with the reading it verified with and another call prunes a moment later, before the second insert |
| `ManagedUnit.SystemdQuote` | internal/service/service.go:147-163 | the quoting loop escapes character by character |
| `ManagedUnit.ArgumentsRoundTrip` | internal/service/service.go:147-163 | quoted arguments split and unquote back to exactly the original list |
| `ManagedUnit.ReadManagedUnit` | internal/service/service.go:314-397 | the reader with its counters computes the specified reading: foreign, malformed, modified, or the recorded values |
| `UnitRoundTrip.UnitRoundTrips` | internal/service/service.go:314-460 | reading a printed unit returns exactly its listener, mode, data directory and environment file if and only if these are representable |
| `UnitRoundTrip.CommandLineRoundTrips` | internal/service/service.go:417-425 | the ExecStart line of the unit splits back into the intended arguments |
| `UnitReading.ReadExactly` | internal/service/service.go:314-397 | the reader told from the text: foreign without the marker line, modified when the header's checksum is not that of the rest, managed with exactly the usable values recorded under a true checksum, malformed otherwise |
| `UnitReading.UnitSays` | internal/service/service.go:417-425 | the command line names the listener, or host and port, and the data directory |
| `UnitReading.UnitNamesFiles` | internal/service/service.go:426-438 | the unit names its environment file and may write only to its data directory |
| `UnitReading.RunsUnprivileged` | internal/service/service.go:412-432 | the service runs as its own user with the protections listed |
| `UnitReading.ListenerSays` | internal/service/service.go:280-285 | the recorded listener: as given, or host and port, the host in brackets when it contains a colon |
| `FileDeletion.Handler.Upload` | internal/files/handler.go:146-158 | an upload leaves both the object and its live row, or, when the row is refused, neither |
| `FileDeletion.Handler.Remove` | internal/files/handler.go:183-230 | intent and mark commit together; the object goes only afterwards, and a storage failure leaves the intent pending |
| `FileDeletion.Handler.ResumePendingDeletions` | internal/files/handler.go:245-294 | an undisturbed pass finalizes exactly the pending intents whose file is not live, whose key no live file uses and whose object could be deleted, erases exactly their objects, and counts them |
| `FileDeletion.OnlyConflictsStayPending` | internal/files/handler.go:238-294 | without storage failures a pass leaves pending only intents whose id or key belongs to a live file, and takes no live file's object |
| `FileDeletion.PassExactly` | internal/files/handler.go:245-294 | an undisturbed pass told from the tables: which intents it finalizes and which objects it takes, both ways |
| `FileDeletion.SeedingExactly` | internal/files/handler.go:245-260 | recovery first gives every deleted file an intent and no other file one |
| `FileDeletion.RemovalIsRecorded` | internal/files/handler.go:195-215 | the removal's transaction marks the file, leaves a pending intent for its object and changes nothing else |
| `FileDeletion.RemovalCompletes` | internal/files/handler.go:195-230 | a removal whose object goes ends with the file unseen, its object gone and its intent done |
| `FileRuns.LiveFilesKeepTheirObjects` | internal/files/handler.go:105-294 | in every interleaving of uploads, removals, recovery passes, failures and crashes every live file has its object and every finalized intent's object is gone |
| `FileRuns.RecoveryConverges` | internal/files/handler.go:232-294 | after any such run one undisturbed pass finalizes every deleted file and leaves the live ones alone |
| `FileRuns.DeletedFilesAreRecorded` | internal/files/handler.go:195-215 | in every interleaving a deleted file has an intent |
| `FileRuns.PassAlone` | internal/files/handler.go:245-294 | the statements of a recovery pass, let alone, do what the handler's pass does |
| `FileRuns.RemoveAlone` | internal/files/handler.go:183-230 | the statements of a removal, let alone, do what the handler's removal does |
| `FileRuns.UploadAlone` | internal/files/handler.go:146-158 | the statements of an upload, let alone, store the object and then the row, or take the object back |
| `Physical.RebuildPhysical` | internal/collections/physical.go:61-99 | the rebuild copies the listed columns into a table that must satisfy the new constraints, or fails |
| `Physical.RebuildKeepsRetained` | internal/collections/physical.go:61-99 | a successful rebuild keeps ids, versions, timestamps and every retained field's value; other new columns are empty |
| `Physical.DestructiveChanges` | internal/collections/physical.go:101-127 | the two-map classifier reports the stated changes in order |
| `Physical.DroppedIffReported` | internal/collections/physical.go:101-127 | the columns a rebuild drops are exactly those reported as removed |
| `Physical.SilentIffCompatible` | internal/collections/physical.go:101-127 | no change is reported if and only if every field survives with its type and none becomes required |
| `Physical.ChangesExactly` | internal/collections/physical.go:101-127 | exactly which type changes, new requirements and removals are reported, and under which name |
| `Physical.RebuildExactly` | internal/collections/physical.go:61-99 | a rebuild succeeds if and only if the fields have distinct IDs and known types and every value carried over suits its column |
| `Definition.ResolveFieldIDs` | internal/collections/definition.go:82-141 | the two loops give every field in place its stored ID, the stored ID of its name, or a fresh one |
| `Definition.ResolvedIds` | internal/collections/definition.go:82-141 | each field's resolved ID: its own when stored, else the stored one of its name, else a new one |
| `Definition.AcceptedExactly` | internal/collections/definition.go:82-141 | exactly which definitions are accepted |
| `Definition.AcceptedFields` | internal/collections/definition.go:120-135 | the fields an accepted definition leaves are its own under their resolved IDs |
| `Definition.ReplicatedAcceptedExactly` | internal/collections/definition.go:196-251 | exactly which replicated definitions are accepted |
| `Definition.AcceptedDefinitionKeepsExactly` | internal/collections/definition.go:82-141 | an accepted definition keeps every record with its version and timestamps, and keeps a value if and only if its field was among those read before the transaction, or it is null and its field is in the definition |
| `Definition.AcceptedDefinitionLosesNothingIff` | internal/collections/definition.go:82-141 | nothing is lost if and only if every field not read before the transaction holds only nulls and is in the definition |
| `Definition.AcceptedDefinitionLosesNothing` | internal/collections/definition.go:82-141 | with nothing in between, an accepted definition keeps every record and every value it held, under the same field ID and type |
| `Definition.FieldAddedMeanwhileIsLost` | internal/collections/definition.go:89-135 | a field added between the reading and the transaction is dropped with its values although no change is reported |
| `Definition.ReplicatedDefinitionKeepsExactly` | internal/collections/definition.go:196-251 | the replicated path keeps a value exactly when its field ID is in the definition |
| `Limiter.FilterInPlace` | internal/adminauth/handler.go:499-505 | the in-place filter leaves exactly the times newer than the cutoff at the front of the backing array |
| `Limiter.Limiter.Allow` | internal/adminauth/handler.go:496-512 | one call filters and extends its own key's times and leaves every other key's alone |
| `Limiter.Limiter.Clear` | internal/adminauth/handler.go:513 | clearing a key forgets its times and no other key's |
| `Limiter.AcceptedExactly` | internal/adminauth/handler.go:496-512 | a call is accepted if and only if fewer than `max` calls were accepted in the window before it |
| `Limiter.WindowHoldsAtMostMax` | internal/adminauth/handler.go:496-512 | of any max + 1 successive accepted calls the last comes at least a window after the first |

## Left out

- HTTP handlers, cookies, request decoding, command-line flags, the dashboard and the launcher: plumbing around the modelled calls.
- Raft, the gantry-core library and the readiness driver: one ordered committed log, decoded operations and the checks on submissions and invitations are inputs; their source is not part of this model.
- SQL engines and drivers: column affinities and coercions, case-insensitive name comparison, ambiguous commits and isolation levels. Each transaction is atomic, and a failing statement has no effect; storage deletions may fail after taking effect.
- The two meta rows a deduplicated entry advances are written together; the code ignores errors of those writes.
- Timestamps as text: the code compares RFC 3339 strings of varying fraction length, which do not sort like the times they denote.
- Truncation of hashes for table, column, job and delivery identifiers: taken as injective.
- Truncation of job error messages counts characters, not bytes.
- Collection rules, default values of fields and the creation time of field rows: no modelled property depends on them.
- Filter parsing (`query.Parse`): the regular expression and JSON literals of a filter; `ListQuery` starts from its clauses, whose operators are the seven it can yield.
- Base64 of cursors: a cursor is its decoded id or undecodable.
- The query loops of `Persist`: `Snapshot.Persists` states what they write.
- The order of rows the code does not fix: collections and records in a snapshot, matching targets, deletion targets. Every order is covered.
- Concurrent standalone workers on one PostgreSQL database, whose claiming query skips rows locked by others; the order of job IDs is a parameter.
- Collations and patterns: the order of a column's values is an integer rank per row, texts compare byte by byte, letters fold in ASCII, and a backslash in a PostgreSQL pattern is a character like any other.
- The proposer's choice between local and forwarded proposals, and waiting for local apply.
- Executors: a job's outcome is an input of the tick.
- Orphan cleanup of stored objects, upload staging, quotas and file names.
- Pairing through the single-call `Pair` and `AddMember` interfaces, fingerprints, endpoints and health states.
- The replication handshake, whose nonces share the nonce table under a prefix of their own.
- Cryptography: signatures, digests and random secrets are fresh, injective values.
- systemd's own parsing: `ManagedUnit.SplitArgs` reads backslash escapes and doubled percent signs and nothing else.
- File system and account work of service installation, backups, registration policy, application accounts, S3 signing and propagation.
- CollectedJoinAgrees: goes one way only; two rows can also agree after further writes that happen to complete another join.
- RestartTransparency: a restore behind the index is one at boot, an installed snapshot is at or ahead of the durable index and from a replica at rest; `RunLimits` shows all three are needed.
- SurvivesRestartsIff: lives without snapshots; with them a replica can know a rejected ID with any digest, and `Runs.RestartTransparency` asks that no such ID is committed again.
- LiveFilesKeepTheirObjects: ids and keys come from one counter, so the two never collide.
