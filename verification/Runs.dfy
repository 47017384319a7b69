/** Whole logs and whole lives of a replica: what interleaving deliveries with crashes, replays and
    restores does to its durable state (internal/replicated/fsm.go, NewFSM, Apply and Restore). */
module Runs {
  import opened Base
  import opened Tables
  import opened Snapshot
  import opened Fsm

  type Log = seq<Entry>

  /** Raft indices start at one and ascend; indices of entries the machine never sees may be missing. */
  predicate Ordered(log: Log) {
    && (forall i :: 0 <= i < |log| ==> log[i].index >= 1)
    && (forall i, j :: 0 <= i < j < |log| ==> log[i].index < log[j].index)
  }

  /** The replica that applied the first n entries once, without restarting. */
  function Canon(log: Log, n: nat): Replica
    requires n <= |log|
  {
    if n == 0 then Boot(BLANK) else Step(Canon(log, n - 1), log[n - 1])
  }

  /** The entry at p reaches its transaction on that replica. */
  predicate ReachesAt(log: Log, p: nat)
    requires p < |log|
  {
    && log[p].body.Committed?
    && !Canon(log, p).failed
    && log[p].body.op.id !in Canon(log, p).applied
  }

  function OutcomeAt(log: Log, p: nat): Result<Tables>
    requires p < |log| && log[p].body.Committed?
  {
    Materialize(Canon(log, p).db.tables, log[p].body.op)
  }

  predicate AcceptedAt(log: Log, p: nat)
    requires p < |log|
  {
    ReachesAt(log, p) && OutcomeAt(log, p).Ok?
  }

  predicate RejectedAt(log: Log, p: nat)
    requires p < |log|
  {
    ReachesAt(log, p) && OutcomeAt(log, p).Err? && OutcomeAt(log, p).fault.Semantic()
  }

  // ----- the replica that never restarts -----

  lemma {:induction false} CanonFacts(log: Log, n: nat)
    requires Ordered(log) && n <= |log|
    ensures var c := Canon(log, n);
      && c.persisted == 0 && c.applied == c.db.ops && c.index == c.db.index && c.term == c.db.term
      && forall j :: n <= j < |log| ==> c.db.index < log[j].index
  {
    hide Materialize;
    if n > 0 {
      CanonFacts(log, n - 1);
    }
  }

  lemma StepGrows(k: Replica, e: Entry)
    requires k.applied == k.db.ops && k.db.index < e.index
    ensures k.db.index <= Step(k, e).db.index
    ensures forall id :: id in k.db.ops ==> id in Step(k, e).db.ops && Step(k, e).db.ops[id] == k.db.ops[id]
    ensures k.failed ==> Step(k, e) == k
  {
    hide Materialize;
  }

  /** Operations stay known and the durable index never goes back. */
  lemma {:induction false} CanonGrows(log: Log, m: nat, n: nat)
    requires Ordered(log) && m <= n <= |log|
    ensures Canon(log, m).db.index <= Canon(log, n).db.index
    ensures forall id :: id in Canon(log, m).db.ops ==>
      id in Canon(log, n).db.ops && Canon(log, n).db.ops[id] == Canon(log, m).db.ops[id]
    ensures Canon(log, m).failed ==> Canon(log, n) == Canon(log, m)
  {
    hide Step;
    if m < n {
      CanonGrows(log, m, n - 1);
      CanonFacts(log, n - 1);
      StepGrows(Canon(log, n - 1), log[n - 1]);
    }
  }

  /** An entry beyond the durable index left the durable state alone, and so did all after it. */
  lemma {:induction false} BeyondIndexUnmoved(log: Log, i: nat, n: nat)
    requires Ordered(log) && i < n <= |log|
    requires log[i].index > Canon(log, n).db.index
    ensures Canon(log, n).db == Canon(log, i).db == Canon(log, i + 1).db
  {
    hide Materialize;
    CanonFacts(log, n - 1);
    CanonGrows(log, n - 1, n);
    if i + 1 < n {
      BeyondIndexUnmoved(log, i, n - 1);
    }
  }

  /** Between two positions with the same durable state nothing changed it. */
  lemma Sandwich(log: Log, m: nat, x: nat, n: nat)
    requires Ordered(log) && m <= x <= n <= |log|
    requires Canon(log, m).db == Canon(log, n).db
    ensures Canon(log, x).db == Canon(log, m).db
  {
    if m < x {
      CanonFacts(log, m);
      CanonGrows(log, x, n);
      CanonGrows(log, m, x);
      BeyondIndexUnmoved(log, m, x);
    }
  }

  /** A poisoned entry lies beyond every later durable index. */
  lemma PoisonFreezes(log: Log, p: nat, n: nat)
    requires Ordered(log) && p < n <= |log| && Canon(log, p + 1).failed && !Canon(log, p).failed
    ensures Canon(log, n).db == Canon(log, p).db && Canon(log, n).db.index < log[p].index
  {
    hide Materialize;
    CanonGrows(log, p + 1, n);
    CanonFacts(log, p);
  }

  /** What the undisturbed replica answers: an accepted entry and a repeat of one are acknowledged, a known ID
      with another digest is reported as reused, a rejected entry gets its fault, unreadable bytes are broken,
      and after a hard failure every entry is fenced. */
  lemma AnswersExactly(log: Log, n: nat)
    requires Ordered(log) && n < |log|
    ensures var k, e := Canon(log, n), log[n]; var answer := Answer(k, e);
      && (e.body.Unreadable? ==> answer == Rejected(Broken))
      && (e.body.Committed? && k.failed ==> answer == Fenced)
      && (e.body.Committed? && !k.failed ==> match answer
            case Acknowledged(index, term) =>
              index == e.index && term == e.term
              && (AcceptedAt(log, n) || (e.body.op.id in k.db.ops && k.db.ops[e.body.op.id] == e.body.op.digest))
            case Reused => e.body.op.id in k.db.ops && k.db.ops[e.body.op.id] != e.body.op.digest
            case Rejected(fault) => ReachesAt(log, n) && OutcomeAt(log, n) == Err(fault)
            case Fenced => false)
  {
    hide Canon, Materialize;
    CanonFacts(log, n);
  }

  /** An entry poisons the replica exactly when its bytes cannot be read, or when it fails in its transaction in
      any way but the two conflicts of the caller; from then on nothing heals it. */
  lemma PoisonedExactly(log: Log, n: nat)
    requires Ordered(log) && n < |log|
    ensures Canon(log, n + 1).failed <==>
      Canon(log, n).failed || log[n].body.Unreadable?
      || (ReachesAt(log, n) && OutcomeAt(log, n).Err? && OutcomeAt(log, n).fault != CollectionConflict && OutcomeAt(log, n).fault != StalePrecondition)
  {
    hide Materialize;
    CanonFacts(log, n);
  }

  /** A snapshot at or behind the index of the boot teaches only IDs the replica does not know, and changes
      nothing else. */
  lemma RestoreBehindTeaches(r: Replica, env: Envelope, id: string)
    requires env.index <= r.persisted
    ensures var r1 := RestoreStep(r, env);
      && r1 == r.(applied := r1.applied)
      && (id in r1.applied <==> id in r.applied || id in env.applied)
      && (id in r1.applied ==> r1.applied[id] == if id in r.applied then r.applied[id] else env.applied[id])
  {
    hide RestoreTables;
  }

  // ----- a replica that restarts -----

  /** One event in the life of a replica: raft delivers the next entry; the process restarts and raft
      replays the log from its start; raft restores a snapshot at or behind the durable index and
      resumes after it; a follower installs a snapshot at or ahead of its durable index. */
  datatype LifeEvent =
    | Deliver
    | Restart
    | RestoreBehind(env: Envelope)
    | Install(env: Envelope)

  /** The replica and the position of the next entry raft will deliver. */
  datatype World = World(replica: Replica, cursor: nat)

  const BIRTH := World(Boot(BLANK), 0)

  /** The number of entries at or below an index. */
  function Position(log: Log, index: nat): (p: nat)
    ensures p <= |log|
    ensures Ordered(log) ==> forall i :: 0 <= i < |log| ==> (log[i].index <= index <==> i < p)
  {
    if log == [] then 0
    else if log[|log| - 1].index <= index then |log|
    else Position(log[..|log| - 1], index)
  }

  function Live(log: Log, w: World, ev: LifeEvent): World {
    match ev
    case Deliver => if w.cursor < |log| then World(Step(w.replica, log[w.cursor]), w.cursor + 1) else w
    case Restart => World(Boot(w.replica.db), 0)
    case RestoreBehind(env) => World(RestoreStep(w.replica, env), Position(log, env.index))
    case Install(env) =>
      if RestoreTables(w.replica.db.tables, env).Ok? then World(RestoreStep(w.replica, env), Position(log, env.index))
      else World(RestoreStep(w.replica, env), w.cursor)
  }

  ghost predicate RejectedId(log: Log, id: string, upTo: nat) {
    exists p :: 0 <= p < |log| && RejectedAt(log, p) && log[p].body.op.id == id && log[p].index <= upTo
  }

  /** Operation IDs a snapshot may teach: durable here already, or of entries rejected by then. */
  ghost predicate Teaches(log: Log, db: Durable, known: map<string, string>) {
    forall id :: id in known ==> (id in db.ops && db.ops[id] == known[id]) || RejectedId(log, id, db.index)
  }

  /** A snapshot of the state the log has k entries in; its operation IDs may include those of entries
      rejected by then, which a sender that restarted has recorded. */
  ghost predicate SnapshotOf(log: Log, k: nat, env: Envelope, receiver: Tables)
    requires k <= |log|
  {
    && env.index == Canon(log, k).db.index && env.term == Canon(log, k).db.term
    && Knows(log, Canon(log, k).db.ops, env.applied, env.index)
    && (RestoreTables(receiver, env).Ok? ==> RestoreTables(receiver, env).value == Canon(log, k).db.tables)
  }

  ghost predicate Allowed(log: Log, w: World, ev: LifeEvent) {
    match ev
    case Deliver => true
    case Restart => true
    case RestoreBehind(env) =>
      && env.index <= w.replica.persisted == w.replica.db.index
      && Teaches(log, w.replica.db, env.applied)
    case Install(env) =>
      && env.index > w.replica.persisted && env.index >= w.replica.db.index
      && exists k :: 0 <= k <= |log| && SnapshotOf(log, k, env, w.replica.db.tables)
  }

  function Life(log: Log, events: seq<LifeEvent>): World {
    if events == [] then BIRTH else Live(log, Life(log, events[..|events| - 1]), events[|events| - 1])
  }

  ghost predicate LegalLife(log: Log, events: seq<LifeEvent>) {
    forall i :: 0 <= i < |events| ==> Allowed(log, Life(log, events[..i]), events[i])
  }

  /** No entry rejected as a caller's conflict has its operation ID committed again. */
  predicate NeverRecommitted(log: Log) {
    forall p, q :: 0 <= p < q < |log| && RejectedAt(log, p) && log[q].body.Committed? ==>
      log[q].body.op.id != log[p].body.op.id
  }

  /** The same tables, index and term, and the same operations up to IDs of entries rejected by then. */
  ghost predicate Agrees(log: Log, db: Durable, k: Durable, upTo: nat) {
    db.tables == k.tables && db.index == k.index && db.term == k.term && Knows(log, k.ops, db.ops, upTo)
  }

  /** The durable state is the one the undisturbed replica had after m entries, none of them beyond
      what was ever delivered here; everything volatile is consistent with replaying from `cursor`. */
  ghost predicate Tracks(log: Log, w: World, m: nat) {
    var r := w.replica;
    && w.cursor <= m <= |log|
    && Agrees(log, r.db, Canon(log, m).db, r.persisted)
    && r.persisted <= r.db.index
    && (w.cursor < m ==> r.persisted == r.db.index)
    && (Canon(log, w.cursor).failed ==> r.failed)
    && (r.failed ==> Agrees(log, r.db, Canon(log, |log|).db, r.persisted))
    && Knows(log, Canon(log, m).db.ops, r.applied, r.persisted)
  }

  /** Known operation IDs: the applied ones, and possibly IDs of entries rejected by then. */
  ghost predicate Knows(log: Log, ops: map<string, string>, applied: map<string, string>, upTo: nat) {
    && (forall id :: id in ops ==> id in applied && applied[id] == ops[id])
    && (forall id :: id in applied ==> id in ops || RejectedId(log, id, upTo))
  }

  lemma KnowsLater(log: Log, ops: map<string, string>, applied: map<string, string>, early: nat, late: nat)
    requires Knows(log, ops, applied, early) && early <= late
    ensures Knows(log, ops, applied, late)
  {
    hide RejectedAt;
  }

  /** An ID known only from a rejected entry belongs to no later entry. */
  lemma RejectedIdIsOld(log: Log, c: nat, upTo: nat)
    requires Ordered(log) && NeverRecommitted(log) && c < |log| && log[c].body.Committed?
    requires RejectedId(log, log[c].body.op.id, upTo)
    ensures log[c].index <= upTo
  {
    var p :| 0 <= p < |log| && RejectedAt(log, p) && log[p].body.op.id == log[c].body.op.id && log[p].index <= upTo;
    assert c <= p;
  }

  /** An entry at or below the durable index whose ID is unknown was rejected. */
  lemma UnknownBelowIndexWasRejected(log: Log, c: nat, m: nat)
    requires Ordered(log) && c < m <= |log| && log[c].index <= Canon(log, m).db.index
    requires log[c].body.Committed? && log[c].body.op.id !in Canon(log, m).db.ops
    ensures RejectedAt(log, c)
  {
    hide Materialize;
    CanonFacts(log, c);
    CanonGrows(log, c, m);
    CanonGrows(log, c + 1, m);
    if Canon(log, c + 1).failed { PoisonBeyond(log, c, m); }
  }

  lemma PoisonBeyond(log: Log, c: nat, m: nat)
    requires Ordered(log) && c < m <= |log| && Canon(log, c + 1).failed
    ensures log[c].index > Canon(log, m).db.index
  {
    hide Step;
    if Canon(log, c).failed {
      CanonGrows(log, c, m);
      CanonFacts(log, c);
    } else {
      PoisonFreezes(log, c, m);
    }
  }

  /** Replaying an entry at or below the index read at boot. */
  lemma ReplayBelow(log: Log, w: World, m: nat)
    requires Ordered(log) && Tracks(log, w, m) && w.cursor < m
    requires log[w.cursor].body.Committed? && !w.replica.failed && log[w.cursor].index <= w.replica.persisted
    ensures Tracks(log, Live(log, w, Deliver), m)
  {
    hide Materialize, RejectedAt, Canon;
    var r, c := w.replica, w.cursor;
    var id := log[c].body.op.id;
    if Canon(log, c + 1).failed { PoisonBeyond(log, c, m); }
    if id !in r.applied {
      UnknownBelowIndexWasRejected(log, c, m);
      assert RejectedId(log, id, r.persisted);
    }
  }

  /** Two healthy replicas at the same tables, index and term, with the same knowledge of the entry's ID,
      take the same step beyond the index they booted with. */
  lemma StepAgrees(r: Replica, k: Replica, e: Entry)
    requires r.db.tables == k.db.tables && r.db.index == k.db.index && r.db.term == k.db.term
    requires !r.failed && !k.failed && e.index > r.persisted && e.index > k.persisted
    requires e.body.Committed? ==> (e.body.op.id in r.applied <==> e.body.op.id in k.applied)
    requires e.body.Committed? && e.body.op.id in r.applied ==> r.applied[e.body.op.id] == k.applied[e.body.op.id]
    ensures var r1, k1 := Step(r, e), Step(k, e);
      && r1.db.tables == k1.db.tables && r1.db.index == k1.db.index && r1.db.term == k1.db.term
      && r1.failed == k1.failed && r1.persisted == r.persisted
      && ((r1.applied == r.applied && r1.db.ops == r.db.ops && k1.db.ops == k.db.ops)
          || (e.body.Committed? && var op := e.body.op;
              && r1.applied == r.applied[op.id := op.digest]
              && r1.db.ops == r.db.ops[op.id := op.digest]
              && k1.db.ops == k.db.ops[op.id := op.digest]))
  {
    hide Materialize;
  }

  lemma KnowsMore(log: Log, ops: map<string, string>, applied: map<string, string>, upTo: nat, id: string, digest: string)
    requires Knows(log, ops, applied, upTo)
    ensures Knows(log, ops[id := digest], applied[id := digest], upTo)
  {
  }

  /** A delivery beyond the index read at boot, over the undisturbed replica's state at the cursor. */
  lemma DeliverAgrees(log: Log, w: World)
    requires Ordered(log) && NeverRecommitted(log) && w.cursor < |log| && !w.replica.failed
    requires !Canon(log, w.cursor).failed && Agrees(log, w.replica.db, Canon(log, w.cursor).db, w.replica.persisted)
    requires w.replica.persisted < log[w.cursor].index
    requires Knows(log, Canon(log, w.cursor).db.ops, w.replica.applied, w.replica.persisted)
    ensures var r1, k1 := Step(w.replica, log[w.cursor]), Canon(log, w.cursor + 1);
      && Agrees(log, r1.db, k1.db, r1.persisted) && r1.failed == k1.failed && r1.persisted == w.replica.persisted
      && Knows(log, k1.db.ops, r1.applied, r1.persisted)
  {
    var r, c := w.replica, w.cursor;
    CanonFacts(log, c);
    var k := Canon(log, c);
    assert Canon(log, c + 1) == Step(k, log[c]);
    hide Step, Canon, RejectedAt, RejectedId;
    if log[c].body.Committed? {
      var op := log[c].body.op;
      if RejectedId(log, op.id, r.persisted) { RejectedIdIsOld(log, c, r.persisted); }
      StepAgrees(r, k, log[c]);
      KnowsMore(log, k.db.ops, r.applied, r.persisted, op.id, op.digest);
      KnowsMore(log, k.db.ops, r.db.ops, r.persisted, op.id, op.digest);
    } else {
      StepAgrees(r, k, log[c]);
    }
  }

  /** Replaying an entry beyond it, which left the durable state alone the first time. */
  lemma ReplayBeyond(log: Log, w: World, m: nat)
    requires Ordered(log) && NeverRecommitted(log) && Tracks(log, w, m) && w.cursor < m
    requires !w.replica.failed && log[w.cursor].index > w.replica.persisted
    ensures Tracks(log, Live(log, w, Deliver), m)
  {
    hide Step, Canon, Knows;
    var r, c := w.replica, w.cursor;
    BeyondIndexUnmoved(log, c, m);
    DeliverAgrees(log, w);
    if Canon(log, c + 1).failed { PoisonFreezes(log, c, |log|); }
  }

  /** Delivering an entry the undisturbed replica has already passed changes nothing durable. */
  lemma ReplayChangesNothing(log: Log, w: World, m: nat)
    requires Ordered(log) && NeverRecommitted(log)
    requires Tracks(log, w, m) && w.cursor < m
    ensures Tracks(log, Live(log, w, Deliver), m)
  {
    var r, c := w.replica, w.cursor;
    if r.failed {
      hide Materialize, Knows;
    } else if !log[c].body.Committed? {
      hide Materialize, Knows;
      CanonGrows(log, m, |log|);
      if !Canon(log, c).failed {
        PoisonFreezes(log, c, m);
        PoisonFreezes(log, c, |log|);
      }
    } else if log[c].index <= r.persisted {
      ReplayBelow(log, w, m);
    } else {
      ReplayBeyond(log, w, m);
    }
  }

  lemma PoisonedStaysOnTrack(log: Log, w: World)
    requires Ordered(log) && Tracks(log, w, w.cursor) && w.cursor < |log| && w.replica.failed
    ensures Tracks(log, Live(log, w, Deliver), w.cursor + 1)
  {
    hide Materialize, Knows, Canon;
    var c := w.cursor;
    SameIndexSameState(log, c, |log|);
    CanonGrows(log, c, |log|);
    CanonGrows(log, c + 1, |log|);
    CanonGrows(log, c, c + 1);
    Sandwich(log, c, c + 1, |log|);
  }

  /** Delivering the next new entry is the undisturbed replica's own step. */
  lemma NewEntryIsCanonical(log: Log, w: World)
    requires Ordered(log) && NeverRecommitted(log)
    requires Tracks(log, w, w.cursor) && w.cursor < |log|
    ensures Tracks(log, Live(log, w, Deliver), w.cursor + 1)
  {
    hide Step, Canon, Knows, NeverRecommitted;
    if w.replica.failed {
      PoisonedStaysOnTrack(log, w);
    } else {
      var c := w.cursor;
      CanonFacts(log, c);
      CanonGrows(log, c, c + 1);
      DeliverAgrees(log, w);
      if Canon(log, c + 1).failed {
        PoisonFreezes(log, c, c + 1);
        PoisonFreezes(log, c, |log|);
      }
    }
  }

  /** The undisturbed replica is not poisoned at the position of a durable index. */
  lemma HealthyAtPosition(log: Log, index: nat, m: nat)
    requires Ordered(log) && m <= |log| && index <= Canon(log, m).db.index
    ensures Position(log, index) <= m && !Canon(log, Position(log, index)).failed
  {
    hide Materialize;
    CanonFacts(log, m);
    var p := Position(log, index);
    if Canon(log, p).failed {
      var q := FirstPoison(log, p);
      PoisonFreezes(log, q, m);
    }
  }

  lemma {:induction false} FirstPoison(log: Log, n: nat) returns (p: nat)
    requires n <= |log| && Canon(log, n).failed
    ensures p < n && Canon(log, p + 1).failed && !Canon(log, p).failed
  {
    if Canon(log, n - 1).failed { p := FirstPoison(log, n - 1); } else { p := n - 1; }
  }

  lemma SameIndexSameState(log: Log, m: nat, n: nat)
    requires Ordered(log) && m <= n <= |log| && Canon(log, n).db.index <= Canon(log, m).db.index
    ensures Canon(log, m).db == Canon(log, n).db
  {
    if m < n {
      CanonFacts(log, m);
      BeyondIndexUnmoved(log, m, n);
    }
  }

  lemma RestoreBehindTracks(log: Log, w: World, env: Envelope, m: nat)
    requires Ordered(log) && Tracks(log, w, m) && Allowed(log, w, RestoreBehind(env))
    ensures Tracks(log, Live(log, w, RestoreBehind(env)), m)
  {
    hide Canon, RejectedId, RestoreTables;
    HealthyAtPosition(log, env.index, m);
  }

  /** The receiver's operation rows keep what is not overwritten: nothing but rejected IDs. */
  lemma InstalledKnows(log: Log, mine: map<string, string>, taught: map<string, string>, early: map<string, string>,
      late: map<string, string>, a: nat, b: nat)
    requires Knows(log, early, mine, a) && Knows(log, late, taught, b) && a <= b
    requires forall id :: id in early ==> id in late
    ensures Knows(log, late, mine + taught, b)
  {
    hide RejectedAt;
  }

  lemma InstallTracks(log: Log, w: World, env: Envelope, m: nat) returns (n: nat)
    requires Ordered(log) && Tracks(log, w, m) && Allowed(log, w, Install(env))
    ensures Tracks(log, Live(log, w, Install(env)), n)
  {
    hide Canon, RejectedId, RestoreTables, Knows;
    var r := w.replica;
    if RestoreTables(r.db.tables, env).Err? {
      return m;
    }
    var k :| 0 <= k <= |log| && SnapshotOf(log, k, env, r.db.tables);
    CanonFacts(log, k);
    n := Position(log, env.index);
    HealthyAtPosition(log, env.index, k);
    if n < k { BeyondIndexUnmoved(log, n, k); }
    if m <= k { CanonGrows(log, m, k); } else { SameIndexSameState(log, k, m); }
    InstalledKnows(log, r.db.ops, env.applied, Canon(log, m).db.ops, Canon(log, k).db.ops, r.persisted, env.index);
    if r.failed {
      CanonGrows(log, k, |log|);
      SameIndexSameState(log, k, |log|);
    }
  }

  lemma RestartTracks(log: Log, w: World, m: nat)
    requires Tracks(log, w, m)
    ensures Tracks(log, Live(log, w, Restart), m)
  {
    hide Knows;
    var r := w.replica;
    KnowsLater(log, Canon(log, m).db.ops, r.db.ops, r.persisted, r.db.index);
    if r.failed { KnowsLater(log, Canon(log, |log|).db.ops, r.db.ops, r.persisted, r.db.index); }
    assert !Canon(log, 0).failed;
  }

  lemma DeliverTracks(log: Log, w: World, m: nat) returns (n: nat)
    requires Ordered(log) && NeverRecommitted(log) && Tracks(log, w, m)
    ensures Tracks(log, Live(log, w, Deliver), n)
  {
    hide Step, Canon, Agrees, Knows, NeverRecommitted;
    n := m;
    if w.cursor < m {
      ReplayChangesNothing(log, w, m);
    } else if w.cursor < |log| {
      NewEntryIsCanonical(log, w);
      n := m + 1;
    }
  }

  /** Every event keeps the replica on the track of the one that never restarts. */
  lemma LiveTracks(log: Log, w: World, ev: LifeEvent, m: nat) returns (n: nat)
    requires Ordered(log) && NeverRecommitted(log) && Tracks(log, w, m) && Allowed(log, w, ev)
    ensures Tracks(log, Live(log, w, ev), n)
  {
    hide Tracks, Live, Allowed, NeverRecommitted, Ordered;
    n := m;
    match ev
    case Deliver => n := DeliverTracks(log, w, m);
    case Restart => RestartTracks(log, w, m);
    case RestoreBehind(env) => RestoreBehindTracks(log, w, env, m);
    case Install(env) => n := InstallTracks(log, w, env, m);
  }

  lemma {:induction false} LifeTracks(log: Log, events: seq<LifeEvent>) returns (m: nat)
    requires Ordered(log) && NeverRecommitted(log) && LegalLife(log, events)
    ensures Tracks(log, Life(log, events), m)
  {
    if events == [] {
      m := 0;
    } else {
      var before := events[..|events| - 1];
      assert forall i :: 0 <= i < |before| ==> before[..i] == events[..i];
      var k := LifeTracks(log, before);
      assert Allowed(log, Life(log, before), events[|events| - 1]);
      hide Tracks, Allowed, Live;
      m := LiveTracks(log, Life(log, before), events[|events| - 1], k);
    }
  }

  lemma LifeOneMore(log: Log, life: seq<LifeEvent>, n: nat)
    requires n < |life|
    ensures Life(log, life[..n + 1]) == Live(log, Life(log, life[..n]), life[n])
  {
    assert life[..n + 1][..n] == life[..n];
  }

  lemma {:induction false} DeliversAre(log: Log, n: nat, life: seq<LifeEvent>)
    requires n <= |log| && n <= |life| && forall i :: 0 <= i < n ==> life[i] == Deliver
    ensures Life(log, life[..n]) == World(Canon(log, n), n)
  {
    hide Step;
    if n > 0 {
      DeliversAre(log, n - 1, life);
      LifeOneMore(log, life, n - 1);
    }
  }

  /** Restart transparency. Through any interleaving of deliveries, crashes with replay, restores of
      snapshots at or behind the durable index and installed snapshots, the tables, the durable index
      and term are always those the undisturbed replica had after some number of entries, at least as
      many as raft last delivered, and the known operations are the same up to IDs of rejected entries;
      once raft has delivered the whole log they are its final ones. */
  lemma RestartTransparency(log: Log, events: seq<LifeEvent>)
    requires Ordered(log) && NeverRecommitted(log) && LegalLife(log, events)
    ensures var w := Life(log, events); var db := w.replica.db;
      && (exists m :: w.cursor <= m <= |log| && Agrees(log, db, Canon(log, m).db, db.index))
      && (w.cursor == |log| ==> Agrees(log, db, Canon(log, |log|).db, db.index))
  {
    hide Canon, Life, LegalLife, Knows, NeverRecommitted, Ordered;
    var m := LifeTracks(log, events);
    var r := Life(log, events).replica;
    KnowsLater(log, Canon(log, m).db.ops, r.db.ops, r.persisted, r.db.index);
    assert Life(log, events).cursor <= m <= |log| && Agrees(log, r.db, Canon(log, m).db, r.db.index);
  }

  /** The snapshot of any replica that is not in the middle of a replay: what its memory takes for its
      position is what is durable. */
  predicate AtRest(r: Replica) { r.index == r.db.index && r.term == r.db.term }

  /** Such a replica's own index, term and operation IDs, restarted or not, make a snapshot that restart
      transparency may install, once its tables restore to themselves. */
  lemma RestSnapshots(log: Log, events: seq<LifeEvent>, env: Envelope, receiver: Tables) returns (k: nat)
    requires Ordered(log) && NeverRecommitted(log) && LegalLife(log, events)
    requires var s := Life(log, events).replica;
      && AtRest(s) && env.index == s.index && env.term == s.term && env.applied == s.applied
      && (RestoreTables(receiver, env).Ok? ==> RestoreTables(receiver, env).value == s.db.tables)
    ensures k <= |log| && SnapshotOf(log, k, env, receiver)
    ensures Life(log, events).replica.db.tables == Canon(log, k).db.tables
  {
    hide Canon, Life, LegalLife, Knows, NeverRecommitted, Ordered, RestoreTables;
    k := LifeTracks(log, events);
    var s := Life(log, events).replica;
    KnowsLater(log, Canon(log, k).db.ops, s.applied, s.persisted, s.db.index);
  }

  // ----- recommitted IDs -----

  /** Exactly when a recommitted ID does no harm. A healthy replica on track at its cursor that knows the next
      entry's ID only from a rejected entry leaves it at the undisturbed replica's tables, index and term
      if and only if the entry is not accepted there and carries another digest, or is accepted without
      changing a table and carries the recorded one. With the recorded digest the replica only advances
      its index, with another it answers that the ID was reused. */
  lemma RecommittedExactly(log: Log, w: World)
    requires Ordered(log) && Tracks(log, w, w.cursor) && w.cursor < |log| && !w.replica.failed
    requires log[w.cursor].index > w.replica.persisted && log[w.cursor].body.Committed?
    requires log[w.cursor].body.op.id in w.replica.applied && log[w.cursor].body.op.id !in Canon(log, w.cursor).db.ops
    ensures var op, r1, k1 := log[w.cursor].body.op, Step(w.replica, log[w.cursor]), Canon(log, w.cursor + 1);
      var same := w.replica.applied[op.id] == op.digest;
      && (r1.db.tables == k1.db.tables && r1.db.index == k1.db.index && r1.db.term == k1.db.term
          <==> if AcceptedAt(log, w.cursor) then same && OutcomeAt(log, w.cursor).value == w.replica.db.tables else !same)
      && Answer(w.replica, log[w.cursor]) == (if same then Acknowledged(log[w.cursor].index, log[w.cursor].term) else Reused)
  {
    hide Materialize, Knows;
    CanonFacts(log, w.cursor);
  }

  // ----- log reduction -----

  /** The log without its rejected entries, its repeats and everything after a poisoned entry. */
  function Reduced(log: Log, n: nat): (r: Log)
    requires n <= |log|
    ensures |r| <= n
    ensures forall i :: 0 <= i < |r| ==> r[i] in log
  {
    if n == 0 then []
    else if AcceptedAt(log, n - 1) then Reduced(log, n - 1) + [log[n - 1]]
    else Reduced(log, n - 1)
  }

  lemma {:induction false} CanonPrefix(log: Log, more: Log, n: nat)
    requires n <= |log|
    ensures Canon(log + more, n) == Canon(log, n)
  {
    hide Step;
    if n > 0 {
      CanonPrefix(log, more, n - 1);
    }
  }

  /** A log whose run matches a longer one: same tables, same known operations, every entry accepted. */
  ghost predicate Rebuilds(r: Log, k: Replica) {
    var c := Canon(r, |r|);
    && c.db.tables == k.db.tables && c.db.ops == k.db.ops == c.applied && !c.failed && c.persisted == 0
    && forall i :: 0 <= i < |r| ==> AcceptedAt(r, i)
  }

  lemma AcceptedStays(r: Log, more: Log, i: nat)
    requires i < |r| && AcceptedAt(r, i)
    ensures AcceptedAt(r + more, i)
  {
    hide Canon, Materialize;
    CanonPrefix(r, more, i);
  }

  lemma NewEntryAccepted(r: Log, k: Replica, e: Entry)
    requires Rebuilds(r, k) && e.body.Committed? && e.body.op.id !in k.db.ops && Materialize(k.db.tables, e.body.op).Ok?
    ensures AcceptedAt(r + [e], |r|)
  {
    hide Canon, Materialize;
    CanonPrefix(r, [e], |r|);
    assert (r + [e])[|r|] == e;
  }

  lemma AcceptedExtends(r: Log, k: Replica, e: Entry)
    requires Rebuilds(r, k) && e.index >= 1 && k.applied == k.db.ops && k.persisted == 0
    requires e.body.Committed? && !k.failed && e.body.op.id !in k.applied && Materialize(k.db.tables, e.body.op).Ok?
    ensures Rebuilds(r + [e], Step(k, e))
  {
    hide Materialize, AcceptedAt;
    var s := r + [e];
    CanonPrefix(r, [e], |r|);
    NewEntryAccepted(r, k, e);
    assert Canon(s, |s|) == Step(Canon(r, |r|), e);
    forall i | 0 <= i < |s|
      ensures AcceptedAt(s, i)
    {
      if i < |r| { AcceptedStays(r, [e], i); }
    }
  }

  /** Any other entry leaves tables and known operations alone. */
  lemma NotAcceptedIsNoop(log: Log, n: nat)
    requires Ordered(log) && n < |log| && !AcceptedAt(log, n)
    ensures Canon(log, n + 1).db.tables == Canon(log, n).db.tables
    ensures Canon(log, n + 1).db.ops == Canon(log, n).db.ops
  {
  }

  lemma ReductionStep(log: Log, n: nat)
    requires Ordered(log) && 0 < n <= |log| && Rebuilds(Reduced(log, n - 1), Canon(log, n - 1))
    ensures Rebuilds(Reduced(log, n), Canon(log, n))
  {
    hide Materialize, Rebuilds;
    CanonFacts(log, n - 1);
    if AcceptedAt(log, n - 1) {
      AcceptedExtends(Reduced(log, n - 1), Canon(log, n - 1), log[n - 1]);
    } else {
      NotAcceptedIsNoop(log, n - 1);
      RebuildsSame(Reduced(log, n), Canon(log, n - 1), Canon(log, n));
    }
  }

  lemma RebuildsSame(r: Log, k: Replica, k1: Replica)
    requires Rebuilds(r, k) && k1.db.tables == k.db.tables && k1.db.ops == k.db.ops
    ensures Rebuilds(r, k1)
  {
  }

  lemma NothingReduced(log: Log)
    ensures Rebuilds(Reduced(log, 0), Canon(log, 0))
  {
  }

  /** Log reduction: the accepted entries alone, replayed in order, are all accepted again and rebuild
      the same tables and the same known operations. */
  lemma {:induction false} LogReduction(log: Log, n: nat)
    requires Ordered(log) && n <= |log|
    ensures Rebuilds(Reduced(log, n), Canon(log, n))
  {
    hide *;
    if n == 0 {
      NothingReduced(log);
    } else {
      LogReduction(log, n - 1);
      ReductionStep(log, n);
    }
  }
}
