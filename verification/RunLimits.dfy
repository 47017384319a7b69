/** Where restart transparency ends: lives that the conditions of Runs exclude, each with a concrete
    log on which the durable tables come out different. */
module RunLimits {
  import opened Base
  import opened Physical
  import opened Tables
  import opened Snapshot
  import opened Fsm
  import opened Runs
  import opened SnapshotLaw

  function Defining(id: string): Command {
    CollectionPut(Definition(id, "notes", "base", [], 1, 1))
  }

  function At(index: nat, op: string, command: Command): Entry {
    Entry(index, 1, Committed(Operation(op, op, 0, command)))
  }

  /** Create a collection, lose a duplicate create to it, delete the collection. */
  const CONTENDED: Log := [At(1, "a", Defining("col_1")), At(2, "b", Defining("col_2")), At(3, "c", CollectionDelete("notes"))]

  /** The same, and the losing create committed again under its old operation ID. */
  const RETRIED: Log := CONTENDED + [At(4, "b", Defining("col_2"))]

  const NOTES_1 := Definition("col_1", "notes", "base", [], 1, 1)
  const NOTES_2 := Definition("col_2", "notes", "base", [], 1, 1)
  const WITH_NOTES_1 := EMPTY.(collections := map["col_1" := Collection("notes", "base", [], 1, 1)],
                               names := map["notes" := "col_1"], rows := map["col_1" := map[]])

  lemma NotesCreated()
    ensures ApplyCollection(EMPTY, NOTES_1) == Ok(WITH_NOTES_1)
    ensures ApplyCollection(EMPTY, NOTES_2).Ok? && "notes" in ApplyCollection(EMPTY, NOTES_2).value.names
  {
  }

  lemma NotesContended()
    ensures ApplyCollection(WITH_NOTES_1, NOTES_2) == Err(CollectionConflict)
    ensures DeleteCollection(WITH_NOTES_1, "notes") == EMPTY
  {
  }

  const AFTER_FIRST := Replica(Durable(WITH_NOTES_1, 1, 1, map["a" := "a"]), map["a" := "a"], 1, 1, 0, false)

  /** Creates, loses, deletes. */
  lemma ContendedSteps()
    ensures Step(Boot(BLANK), CONTENDED[0]) == AFTER_FIRST
    ensures Materialize(WITH_NOTES_1, CONTENDED[1].body.op) == Err(CollectionConflict)
    ensures Step(AFTER_FIRST, CONTENDED[1]) == AFTER_FIRST
    ensures Step(AFTER_FIRST, CONTENDED[2]).db == Durable(EMPTY, 3, 1, map["a" := "a", "c" := "c"])
    ensures !Step(AFTER_FIRST, CONTENDED[2]).failed
  {
    hide ApplyCollection, DeleteCollection;
    NotesCreated();
    NotesContended();
  }

  lemma ContendedRun()
    ensures Ordered(CONTENDED)
    ensures Canon(CONTENDED, 1).db.tables.names == map["notes" := "col_1"]
    ensures RejectedAt(CONTENDED, 1)
    ensures Canon(CONTENDED, 3).db == Durable(EMPTY, 3, 1, map["a" := "a", "c" := "c"])
    ensures !Canon(CONTENDED, 3).failed
  {
    hide Materialize, Step;
    ContendedSteps();
    assert Canon(CONTENDED, 0) == Boot(BLANK);
    assert Canon(CONTENDED, 1) == AFTER_FIRST;
    assert Canon(CONTENDED, 2) == AFTER_FIRST;
    assert Canon(CONTENDED, 3) == Step(AFTER_FIRST, CONTENDED[2]);
  }

  const CRASHED: seq<LifeEvent> := [Deliver, Deliver, Deliver, Restart, Deliver, Deliver, Deliver, Deliver]

  /** When a rejected operation ID is committed again, a restart in between changes the outcome: the
      restarted replica has recorded the ID as applied and skips the entry. */
  lemma RecommittedIdDiverges()
    ensures Ordered(RETRIED) && !NeverRecommitted(RETRIED)
    ensures LegalLife(RETRIED, CRASHED)
    ensures Life(RETRIED, CRASHED).cursor == |RETRIED|
    ensures Life(RETRIED, CRASHED).replica.db.tables != Canon(RETRIED, |RETRIED|).db.tables
  {
    UndisturbedRetry();
    CrashedRetry();
    hide Life, Canon, RejectedAt;
    assert RejectedAt(RETRIED, 1) && RETRIED[3].body.op.id == RETRIED[1].body.op.id;
  }

  lemma UndisturbedRetry()
    ensures Ordered(RETRIED) && RejectedAt(RETRIED, 1)
    ensures Canon(RETRIED, 3) == Canon(CONTENDED, 3)
    ensures "notes" in Canon(RETRIED, 4).db.tables.names
  {
    ContendedRun();
    CanonFacts(CONTENDED, 3);
    CanonPrefix(CONTENDED, [RETRIED[3]], 1);
    CanonPrefix(CONTENDED, [RETRIED[3]], 3);
    assert RejectedAt(RETRIED, 1);
    var k := Canon(RETRIED, 4);
    assert k == Step(Canon(CONTENDED, 3), RETRIED[3]);
    assert WholeDefinition(Definition("col_2", "notes", "base", [], 1, 1));
  }

  lemma CrashedRetry()
    ensures Life(RETRIED, CRASHED).cursor == 4
    ensures Life(RETRIED, CRASHED).replica.db.tables == EMPTY
  {
    ContendedRun();
    UndisturbedRetry();
    hide Canon, RejectedAt, Materialize, Step, Life;
    DeliversAre(RETRIED, 3, CRASHED);
    LifeOneMore(RETRIED, CRASHED, 3);
    LifeOneMore(RETRIED, CRASHED, 4);
    LifeOneMore(RETRIED, CRASHED, 5);
    LifeOneMore(RETRIED, CRASHED, 6);
    LifeOneMore(RETRIED, CRASHED, 7);
    assert CRASHED[..8] == CRASHED;
    ReplayAfterCrash();
  }

  /** The restarted replica skips all four entries. */
  lemma ReplayAfterCrash()
    ensures var r := Boot(Durable(EMPTY, 3, 1, map["a" := "a", "c" := "c"]));
      Step(Step(Step(Step(r, RETRIED[0]), RETRIED[1]), RETRIED[2]), RETRIED[3]).db.tables == EMPTY
  {
  }

  /** The empty snapshot, at index zero. */
  const NOTHING := Envelope(0, 0, map[], [], [], [], map[], map[], map[])

  /** The last two entries over empty tables, for a replica that knows only the third: the second is judged
      again and accepted. */
  lemma RejudgedAccepts(r: Replica)
    requires r.db.tables == EMPTY && !r.failed && r.persisted <= 1 && r.applied == map["a" := "a", "c" := "c"]
    ensures var r3 := Step(Step(r, CONTENDED[1]), CONTENDED[2]); r3.db.index == 3 && r3.db.tables != EMPTY
  {
    hide ApplyCollection, DeleteCollection;
    NotesCreated();
    var r2 := Step(r, CONTENDED[1]);
    assert "notes" in r2.db.tables.names;
  }

  /** Restoring a snapshot behind a running replica that has applied entries since it booted: raft
      redelivers them, the rejected one is judged again by later tables and this time goes through.
      `persistedIndex` still names the index of the boot, so nothing marks the entries as replayed. */
  lemma RestoreBehindARunningReplicaDiverges()
    ensures var running := Canon(CONTENDED, 3);
      && NOTHING.index <= running.persisted < running.db.index
      && Teaches(CONTENDED, running.db, NOTHING.applied)
      && var r0 := RestoreStep(running, NOTHING);
         var r3 := Step(Step(Step(r0, CONTENDED[0]), CONTENDED[1]), CONTENDED[2]);
         r3.db.index == 3 && r3.db.tables != running.db.tables
  {
    hide ApplyCollection, DeleteCollection, Canon, RejectedAt;
    ContendedRun();
    CanonFacts(CONTENDED, 3);
    NotesCreated();
    var r0 := RestoreStep(Canon(CONTENDED, 3), NOTHING);
    assert r0.applied == map["a" := "a", "c" := "c"];
    var r1 := Step(r0, CONTENDED[0]);
    assert r1.db.tables == EMPTY && r1.applied == r0.applied;
    RejudgedAccepts(r1);
  }

  const HOOK := Webhook("hook", "https://example.test", "", "c", true, 1, 1)
  const TWO_HOOKS: Log := [At(1, "a", WebhookPut("w1", HOOK)), At(2, "b", WebhookPut("w2", HOOK))]
  const FIRST_HOOK := Envelope(1, 1, map["a" := "a"], [], [], [], map[], map["w1" := HOOK], map[])

  /** A snapshot behind the durable index but ahead of the index of the boot is installed in full; the
      operation rows beyond it stay, so after a crash the entries they name are skipped and their
      effect is gone for good. */
  lemma InstallBehindTheDurableIndexLosesEntries()
    ensures SnapshotOf(TWO_HOOKS, 1, FIRST_HOOK, Canon(TWO_HOOKS, 2).db.tables)
    ensures var running := Canon(TWO_HOOKS, 2);
      && running.persisted < FIRST_HOOK.index < running.db.index
      && var rebooted := Boot(RestoreStep(running, FIRST_HOOK).db);
         var r := Step(Step(rebooted, TWO_HOOKS[0]), TWO_HOOKS[1]);
         && r.db.index == running.db.index
         && "w2" in running.db.tables.webhooks && "w2" !in r.db.tables.webhooks
  {
    hide RestoreTables;
    TwoHooksRun();
    FirstHookInstalls(Canon(TWO_HOOKS, 2).db.tables);
    assert Canon(TWO_HOOKS, 1).db.ops == FIRST_HOOK.applied;
  }

  lemma TwoHooksRun()
    ensures Canon(TWO_HOOKS, 1).db == Durable(EMPTY.(webhooks := map["w1" := HOOK]), 1, 1, map["a" := "a"])
    ensures Canon(TWO_HOOKS, 2) == Replica(Durable(EMPTY.(webhooks := map["w1" := HOOK, "w2" := HOOK]), 2, 1, map["a" := "a", "b" := "b"]),
                                           map["a" := "a", "b" := "b"], 2, 1, 0, false)
  {
    var k1 := Canon(TWO_HOOKS, 1);
    assert k1 == Step(Canon(TWO_HOOKS, 0), TWO_HOOKS[0]);
    assert Canon(TWO_HOOKS, 2) == Step(k1, TWO_HOOKS[1]);
  }

  lemma FirstHookInstalls(t: Tables)
    requires t == EMPTY.(webhooks := t.webhooks)
    ensures RestoreTables(t, FIRST_HOOK) == Ok(EMPTY.(webhooks := map["w1" := HOOK]))
  {
    assert RestoreCollections(Cleared(t), [], 0) == Ok(Cleared(t));
  }

  // ----- a snapshot in the middle of a replay -----

  /** The contended log's replica, restarted and one entry into its replay. */
  const REPLAYING: seq<LifeEvent> := [Deliver, Deliver, Deliver, Restart, Deliver]

  const REPLAYED := Replica(Durable(EMPTY, 3, 1, map["a" := "a", "c" := "c"]), map["a" := "a", "c" := "c"], 1, 1, 3, false)

  /** What it would persist: the final, empty tables under the index of the entry it just replayed. */
  const TOO_EARLY := Envelope(1, 1, map["a" := "a", "c" := "c"], [], [], [], map[], map[], map[])

  lemma RestartsAreLegal(log: Log, life: seq<LifeEvent>)
    requires forall i :: 0 <= i < |life| ==> life[i].Deliver? || life[i].Restart?
    ensures LegalLife(log, life)
  {
    hide Life;
  }

  lemma ReplayingReplica()
    ensures LegalLife(CONTENDED, REPLAYING) && Life(CONTENDED, REPLAYING).replica == REPLAYED
  {
    hide Canon, Materialize, Step, Life, LegalLife, RejectedAt, Ordered;
    ContendedRun();
    RestartsAreLegal(CONTENDED, REPLAYING);
    DeliversAre(CONTENDED, 3, REPLAYING);
    LifeOneMore(CONTENDED, REPLAYING, 3);
    LifeOneMore(CONTENDED, REPLAYING, 4);
    assert REPLAYING[..5] == REPLAYING;
    ReplayedOnce();
  }

  lemma ReplayedOnce()
    ensures Step(Boot(Durable(EMPTY, 3, 1, map["a" := "a", "c" := "c"])), CONTENDED[0]) == REPLAYED
  {
    hide Materialize;
  }

  /** While a restarted replica replays, its in-memory index is behind its tables, and a snapshot carries that
      index: a new replica that installs it judges the rejected entry in between by later tables and
      accepts it. */
  lemma SnapshotDuringReplayDiverges()
    ensures LegalLife(CONTENDED, REPLAYING)
    ensures var sender := Life(CONTENDED, REPLAYING).replica;
      && !AtRest(sender) && TakenFrom(SQLite, sender, TOO_EARLY)
      && var r1 := RestoreStep(Boot(BLANK), TOO_EARLY);
         var r3 := Step(Step(r1, CONTENDED[1]), CONTENDED[2]);
         && r1.index == 1 && r3.db.index == 3
         && r3.db.tables != Canon(CONTENDED, 3).db.tables
  {
    hide Canon, Life, LegalLife, Persists, Step, RejectedAt, Ordered;
    ReplayingReplica();
    ContendedRun();
    EmptyPersists();
    InstalledTooEarly();
    RejudgedAccepts(RestoreStep(Boot(BLANK), TOO_EARLY));
  }

  lemma InstalledTooEarly()
    ensures var r1 := RestoreStep(Boot(BLANK), TOO_EARLY);
      r1 == Replica(Durable(EMPTY, 1, 1, map["a" := "a", "c" := "c"]), map["a" := "a", "c" := "c"], 1, 1, 1, false)
  {
    assert RestoreCollections(Cleared(EMPTY), [], 0) == Ok(EMPTY);
  }

  lemma EmptyPersists()
    ensures Persists(SQLite, EMPTY, TOO_EARLY)
  {
    assert SavedJobs(map[]) == map[];
  }
}
