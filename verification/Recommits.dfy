/** Exactly which logs survive crashes: when a replica that restarts and replays ends where the replica that
    never restarts does, for all lives of deliveries and restarts (internal/replicated/fsm.go, NewFSM and
    Apply). */
module Recommits {
  import opened Base
  import opened Tables
  import opened Snapshot
  import opened Fsm
  import opened Runs

  predicate SameState(a: Durable, b: Durable) {
    a.tables == b.tables && a.index == b.index && a.term == b.term
  }

  predicate IsOp(log: Log, i: nat, id: string) {
    i < |log| && log[i].body.Committed? && log[i].body.op.id == id
  }

  /** The first entry with this operation ID. */
  predicate FirstOf(log: Log, i: nat, id: string) {
    IsOp(log, i, id) && forall j :: 0 <= j < i ==> !IsOp(log, j, id)
  }

  /** The entry at q does no harm to a replica that knows its ID with this digest, although the undisturbed
      replica does not know it: it is accepted there without changing a table and carries the digest, or it
      is rejected there and carries another one. */
  predicate Harmless(log: Log, q: nat, digest: string)
    requires q < |log| && log[q].body.Committed?
  {
    if AcceptedAt(log, q) then digest == log[q].body.op.digest && OutcomeAt(log, q).value == Canon(log, q).db.tables
    else RejectedAt(log, q) && digest != log[q].body.op.digest
  }

  /** The entry at p was rejected as a caller's conflict, its ID is committed again at q and reaches its
      transaction there, and the durable index has passed p by then. */
  predicate Recommitted(log: Log, p: nat, q: nat) {
    && p < q < |log| && log[q].body.Committed? && ReachesAt(log, q)
    && FirstOf(log, p, log[q].body.op.id) && RejectedAt(log, p)
    && log[p].index <= Canon(log, q).db.index
  }

  predicate HarmlessAt(log: Log, q: nat) {
    forall p | 0 <= p < q && Recommitted(log, p, q) :: Harmless(log, q, log[p].body.op.digest)
  }

  // ----- the invariant of lives without snapshots -----

  /** The ID's first entry lies at or below the index and carries this digest. */
  ghost predicate FromFirst(log: Log, id: string, digest: string, upTo: nat) {
    exists i: nat :: FirstOf(log, i, id) && log[i].body.op.digest == digest && log[i].index <= upTo
  }

  /** The stored operation rows are the undisturbed ones, except IDs skipped because their first entry had
      been replayed. */
  ghost predicate RowsTrack(log: Log, ops: map<string, string>, rows: map<string, string>, upTo: nat) {
    && (forall id :: id in rows ==> id in ops && ops[id] == rows[id])
    && (forall id :: id in ops && id !in rows ==> FromFirst(log, id, ops[id], upTo))
  }

  /** In memory are the stored rows and the IDs of replayed entries. */
  ghost predicate MemoryTracks(log: Log, c: nat, rows: map<string, string>, applied: map<string, string>, upTo: nat) {
    && (forall id :: id in rows ==> id in applied && applied[id] == rows[id])
    && (forall id :: id in applied && id !in rows ==> FromFirst(log, id, applied[id], upTo))
    && (forall i: nat, id :: i < c && IsOp(log, i, id) && log[i].index <= upTo ==> id in applied)
  }

  ghost predicate Follows(log: Log, w: World, m: nat) {
    var r := w.replica;
    && w.cursor <= m <= |log|
    && SameState(r.db, Canon(log, m).db)
    && r.persisted <= r.db.index
    && (w.cursor < m ==> r.persisted == r.db.index)
    && (Canon(log, w.cursor).failed <==> r.failed)
    && (r.failed ==> SameState(r.db, Canon(log, |log|).db))
    && RowsTrack(log, Canon(log, m).db.ops, r.db.ops, r.persisted)
    && (!r.failed ==> MemoryTracks(log, w.cursor, r.db.ops, r.applied, r.persisted))
  }

  lemma {:induction false} OpsWereCommitted(log: Log, n: nat, id: string)
    requires Ordered(log) && n <= |log| && id in Canon(log, n).db.ops
    ensures exists j :: 0 <= j < n && IsOp(log, j, id)
  {
    hide Materialize;
    if id in Canon(log, n - 1).db.ops {
      OpsWereCommitted(log, n - 1, id);
    } else {
      assert IsOp(log, n - 1, id);
    }
  }

  /** A first entry whose ID stayed unknown was rejected. */
  lemma UnknownFirstWasRejected(log: Log, i: nat, c: nat, id: string)
    requires Ordered(log) && i < c <= |log| && FirstOf(log, i, id)
    requires !Canon(log, c).failed && id !in Canon(log, c).db.ops
    ensures RejectedAt(log, i)
  {
    hide Materialize;
    CanonFacts(log, i);
    CanonGrows(log, i, c);
    CanonGrows(log, i + 1, c);
  }

  lemma SkippedIsReplayed(log: Log, c: nat, id: string, digest: string, rows: map<string, string>, applied: map<string, string>, upTo: nat)
    requires FromFirst(log, id, digest, upTo) && MemoryTracks(log, c, rows, applied, upTo) && id !in rows
    requires exists j :: 0 <= j < c && IsOp(log, j, id)
    ensures id in applied && applied[id] == digest
  {
    var i: nat :| FirstOf(log, i, id) && log[i].body.op.digest == digest && log[i].index <= upTo;
    var j :| 0 <= j < c && IsOp(log, j, id);
    assert i <= j;
    var k: nat :| FirstOf(log, k, id) && log[k].body.op.digest == applied[id];
    assert i == k;
  }

  // ----- one delivery -----

  /** What the replica knows of the next entry's ID, where it is not just replaying: what the undisturbed one
      knows, or a rejected first entry. */
  lemma KnownAlike(log: Log, w: World)
    requires Ordered(log) && Follows(log, w, w.cursor) && w.cursor < |log| && !w.replica.failed
    requires log[w.cursor].body.Committed?
    ensures var id, r, ops := log[w.cursor].body.op.id, w.replica, Canon(log, w.cursor).db.ops;
      && (id in ops ==> id in r.applied && r.applied[id] == ops[id])
      && (id in r.applied && id !in ops ==>
          exists p :: 0 <= p < w.cursor && Recommitted(log, p, w.cursor) && log[p].body.op.digest == r.applied[id])
  {
    hide RejectedAt, Canon;
    var id, r, c := log[w.cursor].body.op.id, w.replica, w.cursor;
    var ops := Canon(log, c).db.ops;
    CanonFacts(log, c);
    if id in ops && id !in r.db.ops {
      OpsWereCommitted(log, c, id);
      SkippedIsReplayed(log, c, id, ops[id], r.db.ops, r.applied, r.persisted);
    }
    if id in r.applied && id !in ops {
      var i: nat :| FirstOf(log, i, id) && log[i].body.op.digest == r.applied[id] && log[i].index <= r.persisted;
      UnknownFirstWasRejected(log, i, c, id);
      assert Recommitted(log, i, c);
    }
  }

  /** A replica beside the undisturbed one, c entries into the log. */
  ghost predicate Beside(log: Log, c: nat, r: Replica, k: Replica) {
    && SameState(r.db, k.db) && r.failed == k.failed
    && RowsTrack(log, k.db.ops, r.db.ops, r.persisted)
    && MemoryTracks(log, c, r.db.ops, r.applied, r.persisted)
  }

  /** No operation row changes, or the same one is added everywhere. */
  lemma RowsFollow(log: Log, c: nat, r: Replica, k: Replica, r1: Replica, k1: Replica, op: Operation)
    requires c < |log| && log[c].index > r.persisted && Beside(log, c, r, k)
    requires SameState(r1.db, k1.db) && r1.failed == k1.failed && r1.persisted == r.persisted
    requires (r1.applied == r.applied && r1.db.ops == r.db.ops && k1.db.ops == k.db.ops)
      || (&& r1.applied == r.applied[op.id := op.digest]
          && r1.db.ops == r.db.ops[op.id := op.digest]
          && k1.db.ops == k.db.ops[op.id := op.digest])
      || (&& r1.applied == r.applied && r1.db.ops == r.db.ops && k1.db.ops == k.db.ops[op.id := op.digest]
          && op.id !in r.db.ops && FromFirst(log, op.id, op.digest, r.persisted))
    ensures Beside(log, c + 1, r1, k1)
  {
    hide FromFirst, IsOp;
  }

  lemma SameStep(log: Log, c: nat, r: Replica, k: Replica)
    requires c < |log| && Beside(log, c, r, k) && !r.failed && log[c].body.Committed?
    requires k.applied == k.db.ops && r.persisted < log[c].index && k.persisted < log[c].index
    requires var id := log[c].body.op.id; id in r.applied <==> id in k.applied
    requires var id := log[c].body.op.id; id in r.applied ==> r.applied[id] == k.applied[id]
    ensures Beside(log, c + 1, Step(r, log[c]), Step(k, log[c])) && Step(r, log[c]).persisted == r.persisted
  {
    hide RowsTrack, MemoryTracks, Step, SameState;
    assert r.db.tables == k.db.tables && r.db.index == k.db.index && r.db.term == k.db.term by { ParallelState(r.db, k.db); }
    StepAgrees(r, k, log[c]);
    ParallelState(Step(r, log[c]).db, Step(k, log[c]).db);
    RowsFollow(log, c, r, k, Step(r, log[c]), Step(k, log[c]), log[c].body.op);
  }

  lemma ParallelState(a: Durable, b: Durable)
    ensures SameState(a, b) <==> a.tables == b.tables && a.index == b.index && a.term == b.term
  {
  }

  lemma HarmlessStep(log: Log, c: nat, r: Replica, k: Replica)
    requires c < |log| && Beside(log, c, r, k) && !r.failed && log[c].body.Committed?
    requires r.persisted < log[c].index && k.persisted < log[c].index
    requires var id := log[c].body.op.id; id in r.applied && id !in r.db.ops && id !in k.applied && FromFirst(log, id, r.applied[id], r.persisted)
    requires var op := log[c].body.op; var out := Materialize(k.db.tables, op);
      if out.Ok? then r.applied[op.id] == op.digest && out.value == k.db.tables else out.fault.Semantic() && r.applied[op.id] != op.digest
    ensures Beside(log, c + 1, Step(r, log[c]), Step(k, log[c])) && Step(r, log[c]).persisted == r.persisted
  {
    hide RowsTrack, MemoryTracks, Materialize, FromFirst;
    RowsFollow(log, c, r, k, Step(r, log[c]), Step(k, log[c]), log[c].body.op);
  }

  lemma FollowsIsBeside(log: Log, w: World)
    requires Ordered(log) && Follows(log, w, w.cursor) && w.cursor < |log| && !w.replica.failed
    ensures Beside(log, w.cursor, w.replica, Canon(log, w.cursor)) && !Canon(log, w.cursor).failed
  {
    hide Canon, RowsTrack, MemoryTracks, SameState;
  }

  lemma KnownOnlyFromReplay(log: Log, w: World)
    requires Ordered(log) && Follows(log, w, w.cursor) && w.cursor < |log| && !w.replica.failed
    requires log[w.cursor].body.Committed?
    ensures var id, r := log[w.cursor].body.op.id, w.replica;
      id in r.applied && id !in Canon(log, w.cursor).db.ops ==> id !in r.db.ops && FromFirst(log, id, r.applied[id], r.persisted)
  {
    hide Canon, FromFirst, SameState;
  }

  /** What HarmlessAt says of the entry's transaction. */
  lemma HarmlessOutcome(log: Log, c: nat, p: nat)
    requires p < c < |log| && log[c].body.Committed? && HarmlessAt(log, c) && Recommitted(log, p, c)
    ensures var op := log[c].body.op; var k := Canon(log, c); var out := Materialize(k.db.tables, op);
      if out.Ok? then log[p].body.op.digest == op.digest && out.value == k.db.tables
      else out.fault.Semantic() && log[p].body.op.digest != op.digest
  {
    hide Materialize, Canon;
    assert Harmless(log, c, log[p].body.op.digest);
  }

  /** A delivery beyond the index read at boot, over the undisturbed replica's state at the cursor, is that
      replica's own step. */
  lemma NewStepFollows(log: Log, w: World)
    requires Ordered(log) && Follows(log, w, w.cursor) && w.cursor < |log| && !w.replica.failed
    requires w.replica.persisted < log[w.cursor].index && log[w.cursor].body.Committed? && HarmlessAt(log, w.cursor)
    ensures var r1 := Step(w.replica, log[w.cursor]);
      Beside(log, w.cursor + 1, r1, Canon(log, w.cursor + 1)) && r1.persisted == w.replica.persisted
  {
    var r, c := w.replica, w.cursor;
    assert Canon(log, c + 1) == Step(Canon(log, c), log[c]);
    hide Step, Canon, Follows, Beside, HarmlessAt, Recommitted;
    CanonFacts(log, c);
    FollowsIsBeside(log, w);
    KnownAlike(log, w);
    var id := log[c].body.op.id;
    if id in r.applied && id !in Canon(log, c).db.ops {
      var p :| 0 <= p < c && Recommitted(log, p, c) && log[p].body.op.digest == r.applied[id];
      HarmlessOutcome(log, c, p);
      KnownOnlyFromReplay(log, w);
      HarmlessStep(log, c, r, Canon(log, c));
    } else {
      SameStep(log, c, r, Canon(log, c));
    }
  }

  /** Back on track after a step beside the undisturbed replica. */
  lemma BesideFollows(log: Log, w: World, m: nat)
    requires Ordered(log) && 0 < w.cursor <= m <= |log| && Beside(log, w.cursor, w.replica, Canon(log, w.cursor))
    requires Canon(log, w.cursor).db == Canon(log, m).db
    requires w.replica.persisted <= w.replica.db.index && (w.cursor < m ==> w.replica.persisted == w.replica.db.index)
    requires w.replica.failed ==> Canon(log, |log|).db == Canon(log, m).db
    ensures Follows(log, w, m)
  {
    hide Canon, RowsTrack, MemoryTracks;
  }

  lemma FailedIsFinal(log: Log, c: nat)
    requires Ordered(log) && c < |log| && Canon(log, c + 1).failed && !Canon(log, c).failed
    ensures Canon(log, |log|).db == Canon(log, c + 1).db == Canon(log, c).db
  {
    PoisonFreezes(log, c, c + 1);
    PoisonFreezes(log, c, |log|);
  }

  lemma NewEntryFollows(log: Log, w: World)
    requires Ordered(log) && Follows(log, w, w.cursor) && w.cursor < |log| && !w.replica.failed
    requires w.replica.persisted < log[w.cursor].index && log[w.cursor].body.Committed? && HarmlessAt(log, w.cursor)
    ensures Follows(log, Live(log, w, Deliver), w.cursor + 1)
  {
    hide Step, Canon, RowsTrack, MemoryTracks, HarmlessAt;
    var c := w.cursor;
    NewStepFollows(log, w);
    CanonFacts(log, c);
    CanonGrows(log, c, c + 1);
    if Canon(log, c + 1).failed {
      FollowsIsBeside(log, w);
      FailedIsFinal(log, c);
    }
    BesideFollows(log, Live(log, w, Deliver), c + 1);
  }

  lemma BeyondFollows(log: Log, w: World, m: nat)
    requires Ordered(log) && Follows(log, w, m) && w.cursor < m && !w.replica.failed
    requires w.replica.persisted < log[w.cursor].index && log[w.cursor].body.Committed? && HarmlessAt(log, w.cursor)
    ensures Follows(log, Live(log, w, Deliver), m)
  {
    hide Step, Canon, RowsTrack, MemoryTracks, HarmlessAt;
    var c := w.cursor;
    BeyondIndexUnmoved(log, c, m);
    assert Follows(log, w, c);
    NewStepFollows(log, w);
    if Canon(log, c + 1).failed {
      FollowsIsBeside(log, w);
      FailedIsFinal(log, c);
    }
    BesideFollows(log, Live(log, w, Deliver), m);
  }

  lemma MemoryReplays(log: Log, c: nat, rows: map<string, string>, applied: map<string, string>, upTo: nat)
    requires Ordered(log) && c < |log| && log[c].index <= upTo && log[c].body.Committed?
    requires MemoryTracks(log, c, rows, applied, upTo)
    ensures var op := log[c].body.op;
      MemoryTracks(log, c + 1, rows, if op.id in applied then applied else applied[op.id := op.digest], upTo)
  {
    var op := log[c].body.op;
    if op.id !in applied {
      assert FirstOf(log, c, op.id);
    }
    hide FromFirst;
    assert op.id !in applied ==> FromFirst(log, op.id, op.digest, upTo) by { FirstIsFrom(log, c, op.id, upTo); }
  }

  lemma FirstIsFrom(log: Log, c: nat, id: string, upTo: nat)
    ensures FirstOf(log, c, id) && log[c].index <= upTo ==> FromFirst(log, id, log[c].body.op.digest, upTo)
  {
  }

  /** Replaying an entry at or below the index read at boot only fills the memory. */
  lemma ReplayFollows(log: Log, w: World, m: nat)
    requires Ordered(log) && Follows(log, w, m) && w.cursor < |log| && !w.replica.failed
    requires log[w.cursor].index <= w.replica.persisted && log[w.cursor].body.Committed?
    ensures w.cursor < m && Follows(log, Live(log, w, Deliver), m)
  {
    hide Materialize, Canon, RowsTrack, MemoryTracks;
    var r, c := w.replica, w.cursor;
    CanonFacts(log, m);
    if Canon(log, c + 1).failed { PoisonBeyond(log, c, m); }
    MemoryReplays(log, c, r.db.ops, r.applied, r.persisted);
  }

  lemma PoisonedFollows(log: Log, w: World, m: nat)
    requires Ordered(log) && Follows(log, w, m) && w.cursor < |log| && w.replica.failed
    ensures Follows(log, Live(log, w, Deliver), if w.cursor < m then m else m + 1)
  {
    hide Materialize, Canon, RowsTrack, MemoryTracks;
    var c := w.cursor;
    CanonGrows(log, c, c + 1);
    if c == m {
      SameIndexSameState(log, c, |log|);
      Sandwich(log, c, c + 1, |log|);
    }
  }

  lemma UnreadablePoisons(log: Log, c: nat, r: Replica)
    requires c < |log| && log[c].body.Unreadable?
    ensures Step(r, log[c]) == r.(failed := true) && Canon(log, c + 1).failed
  {
    assert Canon(log, c + 1) == Step(Canon(log, c), log[c]);
    hide Canon;
  }

  lemma UnreadableFollows(log: Log, w: World, m: nat)
    requires Ordered(log) && Follows(log, w, m) && w.cursor < |log| && !w.replica.failed && log[w.cursor].body.Unreadable?
    ensures Follows(log, Live(log, w, Deliver), if w.cursor < m then m else m + 1)
  {
    hide Step, Canon, RowsTrack, MemoryTracks;
    var c := w.cursor;
    UnreadablePoisons(log, c, w.replica);
    FailedIsFinal(log, c);
    if c < m { PoisonFreezes(log, c, m); }
  }

  lemma CursorBehind(log: Log, w: World, m: nat)
    requires Follows(log, w, m)
    ensures w.cursor <= m <= |log|
  {
    hide Canon, RowsTrack, MemoryTracks, SameState;
  }

  /** One delivery, where the next entry does no harm. */
  lemma DeliverFollows(log: Log, w: World, m: nat) returns (n: nat)
    requires Ordered(log) && Follows(log, w, m)
    requires w.cursor < |log| && log[w.cursor].body.Committed? ==> HarmlessAt(log, w.cursor)
    ensures Follows(log, Live(log, w, Deliver), n) && (w.cursor < m ==> n == m)
  {
    hide Follows, Canon, Step, HarmlessAt, Ordered;
    CursorBehind(log, w, m);
    n := if w.cursor == m && m < |log| then m + 1 else m;
    if w.cursor < |log| {
      if w.replica.failed {
        PoisonedFollows(log, w, m);
      } else if log[w.cursor].body.Unreadable? {
        UnreadableFollows(log, w, m);
      } else if log[w.cursor].index <= w.replica.persisted {
        ReplayFollows(log, w, m);
      } else if w.cursor < m {
        BeyondFollows(log, w, m);
      } else {
        NewEntryFollows(log, w);
      }
    }
  }

  lemma RestartFollows(log: Log, w: World, m: nat)
    requires Follows(log, w, m)
    ensures Follows(log, Live(log, w, Restart), m)
  {
    hide IsOp, FirstOf;
    assert !Canon(log, 0).failed;
    hide Canon;
  }

  lemma BirthFollows(log: Log)
    ensures Follows(log, BIRTH, 0)
  {
  }

  // ----- whole lives -----

  /** A life of deliveries and restarts. */
  predicate OnlyRestarts(events: seq<LifeEvent>) {
    forall i :: 0 <= i < |events| ==> events[i].Deliver? || events[i].Restart?
  }

  /** The replica has the tables, index and term the undisturbed one had after some number of entries, at
      least as many as raft last delivered, and is poisoned exactly when that one was by then. */
  ghost predicate Survives(log: Log, events: seq<LifeEvent>) {
    var w := Life(log, events);
    exists m :: w.cursor <= m <= |log| && SameState(w.replica.db, Canon(log, m).db) && (w.replica.failed <==> Canon(log, w.cursor).failed)
  }

  lemma FollowsSurvives(log: Log, events: seq<LifeEvent>, m: nat)
    requires Follows(log, Life(log, events), m)
    ensures Survives(log, events)
  {
    hide Life, Canon, RowsTrack, MemoryTracks, SameState;
  }

  lemma {:induction false} HarmlessLogFollows(log: Log, events: seq<LifeEvent>) returns (m: nat)
    requires Ordered(log) && OnlyRestarts(events) && forall q | 0 <= q < |log| :: HarmlessAt(log, q)
    ensures Follows(log, Life(log, events), m)
  {
    hide Follows, HarmlessAt, Ordered, Live;
    if events == [] {
      m := 0;
      BirthFollows(log);
    } else {
      var before := events[..|events| - 1];
      m := HarmlessLogFollows(log, before);
      if events[|events| - 1].Deliver? {
        m := DeliverFollows(log, Life(log, before), m);
      } else {
        RestartFollows(log, Life(log, before), m);
      }
    }
  }

  // ----- a harmful log does not survive -----

  /** Deliver n entries, restart, deliver j again. */
  function Twice(n: nat, j: nat): seq<LifeEvent> {
    if j == 0 then seq(n, _ => Deliver) + [Restart] else Twice(n, j - 1) + [Deliver]
  }

  lemma UndisturbedFollows(log: Log, n: nat)
    requires Ordered(log) && n <= |log|
    ensures Follows(log, World(Canon(log, n), n), n)
  {
    hide Canon, FromFirst;
    CanonFacts(log, n);
    CanonGrows(log, n, |log|);
  }

  /** Where the replica stands after j of the second deliveries. */
  ghost predicate Redelivered(log: Log, n: nat, j: nat)
    requires n <= |log|
  {
    var w := Life(log, Twice(n, j));
    OnlyRestarts(Twice(n, j)) && Follows(log, w, n) && w.cursor == j && w.replica.persisted == Canon(log, n).db.index
  }

  lemma RestartedAfter(log: Log, n: nat)
    requires Ordered(log) && n <= |log|
    ensures Redelivered(log, n, 0)
  {
    hide Follows, Canon, Ordered, Step;
    var life := Twice(n, 0);
    DeliversAre(log, n, life);
    UndisturbedFollows(log, n);
    LifeOneMore(log, life, n);
    RestartFollows(log, Life(log, life[..n]), n);
    assert life[..n + 1] == life;
  }

  lemma DeliveredAgain(log: Log, n: nat, j: nat)
    requires Ordered(log) && j < n <= |log| && HarmlessAt(log, j) && Redelivered(log, n, j)
    ensures Redelivered(log, n, j + 1)
  {
    hide Follows, Canon, HarmlessAt, Ordered, Step;
    var life := Twice(n, j + 1);
    assert life[..|life| - 1] == Twice(n, j);
    var w := Life(log, Twice(n, j));
    var m := DeliverFollows(log, w, n);
    DeliverKeepsPersisted(w.replica, log[j]);
  }

  lemma {:induction false} TwiceFollows(log: Log, n: nat, j: nat)
    requires Ordered(log) && j <= n <= |log| && forall q | 0 <= q < n :: HarmlessAt(log, q)
    ensures Redelivered(log, n, j)
  {
    hide HarmlessAt, Ordered, Redelivered;
    if j == 0 {
      RestartedAfter(log, n);
    } else {
      TwiceFollows(log, n, j - 1);
      DeliveredAgain(log, n, j - 1);
    }
  }

  lemma DeliverKeepsPersisted(r: Replica, e: Entry)
    ensures Step(r, e).persisted == r.persisted
  {
    hide Materialize;
  }

  /** After two deliveries of the first q entries the replica knows the recommitted ID from its first entry. */
  lemma LearntByReplay(log: Log, w: World, p: nat)
    requires Ordered(log) && w.cursor < |log| && Follows(log, w, w.cursor) && Recommitted(log, p, w.cursor)
    requires w.replica.persisted == Canon(log, w.cursor).db.index
    ensures var id := log[w.cursor].body.op.id; id in w.replica.applied && w.replica.applied[id] == log[p].body.op.digest
  {
    hide SameState, RejectedAt, Canon, FromFirst;
    var id, r := log[w.cursor].body.op.id, w.replica;
    CanonFacts(log, w.cursor);
    assert id in r.applied && id !in r.db.ops by { assert IsOp(log, p, id); }
    assert FromFirst(log, id, r.applied[id], r.persisted);
    FirstIsOne(log, id, r.applied[id], r.persisted, p);
  }

  lemma FirstIsOne(log: Log, id: string, digest: string, upTo: nat, p: nat)
    requires FromFirst(log, id, digest, upTo) && FirstOf(log, p, id)
    ensures log[p].body.op.digest == digest
  {
    var i: nat :| FirstOf(log, i, id) && log[i].body.op.digest == digest;
    assert i == p;
  }

  /** No later state of the undisturbed replica has an index it jumped over. */
  lemma NeverAtIndex(log: Log, q: nat, m: nat, index: nat)
    requires Ordered(log) && q < m <= |log|
    requires index < Canon(log, q + 1).db.index || Canon(log, q + 1).db.index < index <= log[q].index
    ensures Canon(log, m).db.index != index
  {
    hide Canon;
    CanonGrows(log, q + 1, m);
    if q + 1 < m && log[q + 1].index > Canon(log, m).db.index { BeyondIndexUnmoved(log, q + 1, m); }
  }

  /** A healthy replica that takes the recommitted entry for a repeat, against the undisturbed step. */
  lemma HarmDiverges(log: Log, w: World, p: nat, m: nat)
    requires Ordered(log) && w.cursor < |log| && Follows(log, w, w.cursor) && Recommitted(log, p, w.cursor)
    requires w.replica.persisted == Canon(log, w.cursor).db.index
    requires !Harmless(log, w.cursor, log[p].body.op.digest) && w.cursor < m <= |log|
    ensures var r1 := Step(w.replica, log[w.cursor]);
      !SameState(r1.db, Canon(log, m).db) || (r1.failed <==> !Canon(log, w.cursor + 1).failed)
  {
    hide Step, Canon, Follows, Recommitted, Harmless, Ordered;
    var c, r := w.cursor, w.replica;
    LearntByReplay(log, w, p);
    CanonFacts(log, c);
    RepeatedStep(log, w, p);
    var r1, k1 := Step(r, log[c]), Canon(log, c + 1);
    if SameState(r1.db, Canon(log, m).db) && r1.failed == k1.failed {
      if r1.db.index == k1.db.index {
        SameIndexSameState(log, c + 1, m);
      } else {
        NeverAtIndex(log, c, m, r1.db.index);
      }
    }
  }

  /** The two steps: the replica advances or refuses, and the undisturbed one does otherwise. */
  lemma RepeatedStep(log: Log, w: World, p: nat)
    requires Ordered(log) && w.cursor < |log| && Follows(log, w, w.cursor) && Recommitted(log, p, w.cursor)
    requires var id := log[w.cursor].body.op.id; id in w.replica.applied && w.replica.applied[id] == log[p].body.op.digest
    requires w.replica.persisted == Canon(log, w.cursor).db.index < log[w.cursor].index
    requires !Harmless(log, w.cursor, log[p].body.op.digest)
    ensures var r1, k1 := Step(w.replica, log[w.cursor]), Canon(log, w.cursor + 1);
      && (r1.db.index == log[w.cursor].index || r1.db.index == Canon(log, w.cursor).db.index)
      && (k1.db.index == log[w.cursor].index || k1.db.index == Canon(log, w.cursor).db.index)
      && !(r1.db.index == k1.db.index && r1.db.tables == k1.db.tables && r1.failed == k1.failed)
  {
    hide Materialize, RowsTrack, MemoryTracks, FirstOf;
    assert Canon(log, w.cursor + 1) == Step(Canon(log, w.cursor), log[w.cursor]);
    CanonFacts(log, w.cursor);
    hide Canon;
  }

  lemma Offender(log: Log, q: nat) returns (p: nat)
    requires q < |log| && !HarmlessAt(log, q)
    ensures p < q && Recommitted(log, p, q) && log[p].body.Committed? && log[q].body.Committed?
    ensures !Harmless(log, q, log[p].body.op.digest)
  {
    hide Canon, Harmless, RejectedAt, ReachesAt;
    p :| 0 <= p < q && Recommitted(log, p, q) && !Harmless(log, q, log[p].body.op.digest);
  }

  /** The first harmful entry: deliver up to it, restart, deliver up to it again and through it. */
  lemma HarmfulLogFails(log: Log, q: nat)
    requires Ordered(log) && q < |log| && !HarmlessAt(log, q) && forall k | 0 <= k < q :: HarmlessAt(log, k)
    ensures OnlyRestarts(Twice(q, q) + [Deliver]) && !Survives(log, Twice(q, q) + [Deliver])
  {
    hide Step, Canon, Follows, Recommitted, Harmless, Ordered, SameState;
    TwiceFollows(log, q, q);
    var life := Twice(q, q) + [Deliver];
    assert life[..|life| - 1] == Twice(q, q);
    var w := Life(log, Twice(q, q));
    var p := Offender(log, q);
    forall m | q < m <= |log|
      ensures !SameState(Step(w.replica, log[q]).db, Canon(log, m).db) || (Step(w.replica, log[q]).failed <==> !Canon(log, q + 1).failed)
    {
      HarmDiverges(log, w, p, m);
    }
  }

  lemma {:induction false} SurvivingLogIsHarmless(log: Log, n: nat)
    requires Ordered(log) && n <= |log| && forall events | OnlyRestarts(events) :: Survives(log, events)
    ensures forall q | 0 <= q < n :: HarmlessAt(log, q)
  {
    hide HarmlessAt, Survives, Ordered;
    if n > 0 {
      SurvivingLogIsHarmless(log, n - 1);
      if !HarmlessAt(log, n - 1) { HarmfulLogFails(log, n - 1); }
    }
  }

  /** Exactly which logs crashes cannot change. Through every life of deliveries and restarts a replica has
      the tables, index, term and health of the one that never restarts, if and only if every ID rejected as
      a caller's conflict that is committed again, once the durable index has passed the rejected entry, is
      either rejected again with another digest, or accepted with the same digest and without changing a
      table. */
  lemma SurvivesRestartsIff(log: Log)
    requires Ordered(log)
    ensures (forall events | OnlyRestarts(events) :: Survives(log, events)) <==> (forall q | 0 <= q < |log| :: HarmlessAt(log, q))
  {
    hide HarmlessAt, Survives, OnlyRestarts, Ordered;
    if forall q | 0 <= q < |log| :: HarmlessAt(log, q) {
      forall events | OnlyRestarts(events)
        ensures Survives(log, events)
      {
        var m := HarmlessLogFollows(log, events);
        FollowsSurvives(log, events, m);
      }
    }
    if forall events | OnlyRestarts(events) :: Survives(log, events) {
      SurvivingLogIsHarmless(log, |log|);
    }
  }
}
