/** Every interleaving of uploads, removals, recovery passes and crashes (internal/files/handler.go). */
module FileRuns {
  import opened Base
  import opened FileDeletion

  /** Where a request or a recovery pass stands; the next statement is the one named. */
  datatype Op =
    | Putting(id: FileId, key: Key)
    | Inserting(id: FileId, key: Key)
    | Undoing(key: Key)
    | Marking(id: FileId, key: Key)
    | Erasing(id: FileId, key: Key)
    | Finalizing(id: FileId)
    | Seeding
    | Selecting
    | Sweeping(targets: seq<Target>)
    | Checked(target: Target, rest: seq<Target>)
    | Closing(target: Target, rest: seq<Target>)
    | Ended

  /** Ids and keys come from one counter: the file n has the key n + 1. */
  datatype System = System(store: Store, ops: seq<Op>, next: nat)

  /** `ok` says whether the statement succeeds; a failing storage call may still have taken effect. */
  datatype Event =
    | StartUpload
    | StartRemove(id: FileId)
    | StartResume
    | Advance(i: nat, ok: bool, effect: bool, targets: seq<Target>)
    | Abandon(i: nat)
    | Crash
    | Conflict(id: FileId)  // a restored archive brings a pending intent for a live file

  const EMPTY_SYSTEM := System(Store(map[], map[], {}), [], 0)

  function Stored(s: Store, key: Key): Store { s.(objects := s.objects + {key}) }

  /** The store after an operation's next statement. */
  ghost function Execute(s: Store, op: Op, ok: bool, effect: bool): Store {
    match op
    case Putting(_, key) => if ok || effect then Stored(s, key) else s
    case Inserting(id, key) => if ok then s.(files := s.files[id := File(key, false)]) else s
    case Undoing(key) => if ok || effect then Erased(s, key) else s
    case Marking(id, key) => if ok then Marked(s, id, key) else s
    case Erasing(_, key) => if ok || effect then Erased(s, key) else s
    case Finalizing(id) => if ok then Finalized(s, id) else s
    case Seeding => if ok then Seeded(s) else s
    case Checked(t, _) => if ok || effect then Erased(s, t.key) else s
    case Closing(t, _) => if ok then Finalized(s, t.id) else s
    case _ => s
  }

  /** Where it stands afterwards. */
  ghost function Continue(s: Store, op: Op, ok: bool, targets: seq<Target>): Op {
    match op
    case Putting(id, key) => if ok then Inserting(id, key) else Ended
    case Inserting(_, key) => if ok then Ended else Undoing(key)
    case Undoing(_) => Ended
    case Marking(id, key) => if ok then Erasing(id, key) else Ended
    case Erasing(id, _) => if ok then Finalizing(id) else Ended
    case Finalizing(_) => Ended
    case Seeding => if ok then Selecting else Ended
    case Selecting => if ok && Selects(s, targets) then Sweeping(targets) else Ended
    case Sweeping(ts) =>
      if ts == [] then Ended
      else if !ok || LiveKey(s, ts[0].key) then Sweeping(ts[1..])
      else Checked(ts[0], ts[1..])
    case Checked(t, rest) => if ok then Closing(t, rest) else Sweeping(rest)
    case Closing(_, rest) => Sweeping(rest)
    case Ended => Ended
  }

  ghost function Step(y: System, e: Event): System {
    match e
    case StartUpload => System(y.store, y.ops + [Putting(y.next, y.next + 1)], y.next + 2)
    case StartRemove(id) =>
      if id in y.store.files then y.(ops := y.ops + [Marking(id, y.store.files[id].key)]) else y
    case StartResume => y.(ops := y.ops + [Seeding])
    case Advance(i, ok, effect, targets) =>
      if i >= |y.ops| then y
      else y.(store := Execute(y.store, y.ops[i], ok, effect), ops := y.ops[i := Continue(y.store, y.ops[i], ok, targets)])
    case Abandon(i) => if i < |y.ops| then y.(ops := y.ops[i := Ended]) else y
    case Crash => y.(ops := [])
    case Conflict(id) =>
      if LiveId(y.store, id) && id !in y.store.intents then
        y.(store := y.store.(intents := y.store.intents[id := Intent(y.store.files[id].key, false)]))
      else y
  }

  ghost function Run(events: seq<Event>): System {
    if events == [] then EMPTY_SYSTEM else Step(Run(events[..|events| - 1]), events[|events| - 1])
  }

  // ----- what every interleaving keeps -----

  /** Live files have their objects, finalized intents have none, intents belong to files. */
  predicate StoreSafe(s: Store, next: nat) {
    && (forall id :: id in s.files ==> id + 1 < next && s.files[id].key == id + 1)
    && (forall id :: id in s.files && !s.files[id].deleted ==> s.files[id].key in s.objects)
    && (forall id :: id in s.intents ==> id in s.files && s.intents[id].key == s.files[id].key)
    && (forall id :: id in s.intents && s.intents[id].done ==> s.files[id].deleted && s.intents[id].key !in s.objects)
  }

  predicate DeletedFile(s: Store, id: FileId, key: Key) {
    id in s.files && s.files[id] == File(key, true)
  }

  predicate AllDeleted(s: Store, targets: seq<Target>) {
    forall t :: t in targets ==> DeletedFile(s, t.id, t.key)
  }

  /** What an operation relies on when it runs next. */
  predicate OpSafe(s: Store, next: nat, op: Op) {
    match op
    case Putting(id, key) => key == id + 1 < next && id !in s.files
    case Inserting(id, key) => key == id + 1 < next && id !in s.files && key in s.objects
    case Undoing(key) => 0 < key < next && key - 1 !in s.files
    case Marking(id, key) => id in s.files && s.files[id].key == key
    case Erasing(id, key) => DeletedFile(s, id, key)
    case Finalizing(id) => id in s.files && s.files[id].deleted && s.files[id].key !in s.objects
    case Seeding => true
    case Selecting => true
    case Sweeping(targets) => AllDeleted(s, targets)
    case Checked(t, rest) => DeletedFile(s, t.id, t.key) && AllDeleted(s, rest)
    case Closing(t, rest) => DeletedFile(s, t.id, t.key) && t.key !in s.objects && AllDeleted(s, rest)
    case Ended => true
  }

  /** The key an upload still owns. */
  function Owned(op: Op): Option<Key> {
    match op
    case Putting(_, key) => Some(key)
    case Inserting(_, key) => Some(key)
    case Undoing(key) => Some(key)
    case _ => None
  }

  predicate Apart(ops: seq<Op>) {
    forall i, j :: 0 <= i < j < |ops| && Owned(ops[i]).Some? ==> Owned(ops[i]) != Owned(ops[j])
  }

  predicate Safe(y: System) {
    && StoreSafe(y.store, y.next)
    && (forall i :: 0 <= i < |y.ops| ==> OpSafe(y.store, y.next, y.ops[i]))
    && Apart(y.ops)
  }

  /** How a statement may change the store without disturbing others: files are only added under an
      owned key or marked deleted, objects added only under it and removed only when no live file has
      them. */
  predicate Gentle(s: Store, s1: Store, owned: Option<Key>) {
    && (forall id :: id in s.files ==> id in s1.files && s1.files[id].key == s.files[id].key && (s.files[id].deleted ==> s1.files[id].deleted))
    && (forall id :: id in s1.files && id !in s.files ==> owned == Some(id + 1))
    && (forall k :: k in s1.objects && k !in s.objects ==> owned == Some(k))
    && (forall k :: k in s.objects && k !in s1.objects ==> owned == Some(k) || (k > 0 && k - 1 in s.files))
  }

  lemma OthersStaySafe(s: Store, s1: Store, next: nat, owned: Option<Key>, op: Op)
    requires Gentle(s, s1, owned) && OpSafe(s, next, op) && StoreSafe(s, next)
    requires owned.Some? ==> Owned(op) != owned && owned.value > 0 && owned.value - 1 !in s.files
    ensures OpSafe(s1, next, op)
  {
  }

  lemma UploadIsSafe(s: Store, next: nat, op: Op, ok: bool, effect: bool, targets: seq<Target>)
    requires StoreSafe(s, next) && OpSafe(s, next, op) && (op.Putting? || op.Inserting? || op.Undoing?)
    ensures var s1 := Execute(s, op, ok, effect);
      StoreSafe(s1, next) && Gentle(s, s1, Owned(op)) && OpSafe(s1, next, Continue(s, op, ok, targets))
  {
  }

  lemma RemovalIsSafe(s: Store, next: nat, op: Op, ok: bool, effect: bool, targets: seq<Target>)
    requires StoreSafe(s, next) && OpSafe(s, next, op) && (op.Marking? || op.Erasing? || op.Finalizing?)
    ensures var s1 := Execute(s, op, ok, effect);
      StoreSafe(s1, next) && Gentle(s, s1, Owned(op)) && OpSafe(s1, next, Continue(s, op, ok, targets))
  {
  }

  lemma SweepIsSafe(s: Store, next: nat, op: Op, ok: bool, effect: bool, targets: seq<Target>)
    requires StoreSafe(s, next) && OpSafe(s, next, op) && (op.Sweeping? || op.Checked? || op.Closing?)
    ensures var s1 := Execute(s, op, ok, effect);
      StoreSafe(s1, next) && Gentle(s, s1, Owned(op)) && OpSafe(s1, next, Continue(s, op, ok, targets))
  {
  }

  lemma SeedIsSafe(s: Store, next: nat, op: Op, ok: bool, effect: bool, targets: seq<Target>)
    requires StoreSafe(s, next) && OpSafe(s, next, op) && (op.Seeding? || op.Selecting? || op.Ended?)
    ensures var s1 := Execute(s, op, ok, effect);
      StoreSafe(s1, next) && Gentle(s, s1, Owned(op)) && OpSafe(s1, next, Continue(s, op, ok, targets))
  {
  }

  /** One statement keeps the store safe, is gentle, and leaves its own operation safe. */
  lemma StatementIsSafe(s: Store, next: nat, op: Op, ok: bool, effect: bool, targets: seq<Target>)
    requires StoreSafe(s, next) && OpSafe(s, next, op)
    ensures var s1 := Execute(s, op, ok, effect);
      StoreSafe(s1, next) && Gentle(s, s1, Owned(op)) && OpSafe(s1, next, Continue(s, op, ok, targets))
  {
    hide StoreSafe, OpSafe, Gentle, Execute, Continue;
    if op.Putting? || op.Inserting? || op.Undoing? {
      UploadIsSafe(s, next, op, ok, effect, targets);
    } else if op.Marking? || op.Erasing? || op.Finalizing? {
      RemovalIsSafe(s, next, op, ok, effect, targets);
    } else if op.Sweeping? || op.Checked? || op.Closing? {
      SweepIsSafe(s, next, op, ok, effect, targets);
    } else {
      SeedIsSafe(s, next, op, ok, effect, targets);
    }
  }

  lemma OwnedStays(s: Store, op: Op, ok: bool, targets: seq<Target>)
    ensures Owned(Continue(s, op, ok, targets)).Some? ==> Owned(Continue(s, op, ok, targets)) == Owned(op)
  {
  }

  lemma AdvanceKeepsSafe(y: System, i: nat, ok: bool, effect: bool, targets: seq<Target>)
    requires Safe(y) && i < |y.ops|
    ensures Safe(Step(y, Advance(i, ok, effect, targets)))
  {
    hide StoreSafe, Gentle, Execute, Continue, OpSafe;
    var op, y1 := y.ops[i], Step(y, Advance(i, ok, effect, targets));
    StatementIsSafe(y.store, y.next, op, ok, effect, targets);
    OwnedStays(y.store, op, ok, targets);
    OwnedIsFree(y.store, y.next, op);
    forall j | 0 <= j < |y1.ops|
      ensures OpSafe(y1.store, y1.next, y1.ops[j])
    {
      if j != i {
        assert y1.ops[j] == y.ops[j];
        OthersStaySafe(y.store, y1.store, y.next, Owned(op), y.ops[j]);
      }
    }
  }

  lemma OwnedIsFree(s: Store, next: nat, op: Op)
    requires OpSafe(s, next, op)
    ensures Owned(op).Some? ==> Owned(op).value > 0 && Owned(op).value - 1 !in s.files
  {
  }

  lemma StartsKeepSafe(y: System, e: Event)
    requires Safe(y) && !e.Advance? && !e.Conflict?
    ensures Safe(Step(y, e))
  {
  }

  lemma ConflictKeepsSafe(y: System, id: FileId)
    requires Safe(y)
    ensures Safe(Step(y, Conflict(id)))
  {
  }

  lemma {:induction false} RunsAreSafe(events: seq<Event>)
    ensures Safe(Run(events))
  {
    if events != [] {
      hide Safe, Step;
      var before, e := events[..|events| - 1], events[|events| - 1];
      RunsAreSafe(before);
      if e.Advance? {
        if e.i < |Run(before).ops| {
          AdvanceKeepsSafe(Run(before), e.i, e.ok, e.effect, e.targets);
        } else {
          AdvancePastEnd(Run(before), e);
        }
      } else if e.Conflict? {
        ConflictKeepsSafe(Run(before), e.id);
      } else {
        StartsKeepSafe(Run(before), e);
      }
    }
  }

  lemma AdvancePastEnd(y: System, e: Event)
    requires e.Advance? && e.i >= |y.ops|
    ensures Step(y, e) == y
  {
  }

  /** File safety: in every interleaving of uploads, removals, recovery passes, failures and crashes,
      every live file has its object and every finalized intent's object is gone. */
  lemma LiveFilesKeepTheirObjects(events: seq<Event>, id: FileId)
    ensures var s := Run(events).store;
      && (LiveId(s, id) ==> s.files[id].key in s.objects)
      && (id in s.intents && s.intents[id].done ==> s.intents[id].key !in s.objects && !LiveId(s, id))
  {
    RunsAreSafe(events);
  }

  /** Recovery converges: after any run, one undisturbed pass whose storage calls succeed finalizes the
      intent of every deleted file, erases its object, and leaves the live files alone. */
  lemma RecoveryConverges(events: seq<Event>, id: FileId)
    requires id in Run(events).store.files
    ensures var s := Run(events).store; var after := AfterPass(Seeded(s), {});
      && after.files == s.files
      && (s.files[id].deleted ==> id in after.intents && after.intents[id].done && s.files[id].key !in after.objects)
      && (!s.files[id].deleted ==> s.files[id].key in after.objects)
  {
    RunsAreSafe(events);
    var s := Run(events).store;
    var seeded := Seeded(s);
    if s.files[id].deleted {
      assert !LiveKey(seeded, s.files[id].key);
      assert seeded.intents[id].done || Finishes(seeded, {}, id);
    }
  }

  // ----- undisturbed operations are the handler's -----

  /** An operation's next n statements with nothing in between, its storage calls failing for these keys
      without effect. */
  ghost function Alone(s: Store, op: Op, failing: set<Key>, targets: seq<Target>, n: nat): (Store, Op) {
    if n == 0 then (s, op)
    else
      var (s1, op1) := Alone(s, op, failing, targets, n - 1);
      var ok := Works(op1, failing);
      (Execute(s1, op1, ok, false), Continue(s1, op1, ok, targets))
  }

  /** The next statement succeeds unless it is a storage call for a failing key. */
  predicate Works(op: Op, failing: set<Key>) {
    match op
    case Putting(_, key) => key !in failing
    case Erasing(_, key) => key !in failing
    case Checked(t, _) => t.key !in failing
    case _ => true
  }

  lemma {:induction false} AloneLater(s: Store, op: Op, failing: set<Key>, targets: seq<Target>, m: nat, n: nat)
    ensures Alone(s, op, failing, targets, m + n) ==
      Alone(Alone(s, op, failing, targets, m).0, Alone(s, op, failing, targets, m).1, failing, targets, n)
  {
    hide Execute, Continue, Works;
    if n > 0 { AloneLater(s, op, failing, targets, m, n - 1); }
  }

  /** An upload that is let alone stores its object and then its row; when the insert is refused it takes the
      object back. */
  lemma UploadAlone(s: Store, id: FileId, key: Key)
    ensures Alone(s, Putting(id, key), {}, [], 2) == (s.(files := s.files[id := File(key, false)], objects := s.objects + {key}), Ended)
    ensures Continue(s, Inserting(id, key), false, []) == Undoing(key)
    ensures Alone(s, Undoing(key), {}, [], 1) == (s.(objects := s.objects - {key}), Ended)
  {
    assert Alone(s, Putting(id, key), {}, [], 0) == (s, Putting(id, key));
    assert Alone(s, Putting(id, key), {}, [], 1) == (Stored(s, key), Inserting(id, key));
    assert Alone(s, Undoing(key), {}, [], 0) == (s, Undoing(key));
  }

  /** A removal that is let alone does what the handler's remove does, to the end or up to the failing deletion. */
  lemma RemoveAlone(s: Store, id: FileId, failing: set<Key>)
    requires id in s.files
    ensures var key := s.files[id].key; var marked := Marked(s, id, key);
      Alone(s, Marking(id, key), failing, [], 3).0 == if key in failing then marked else Finalized(Erased(marked, key), id)
    ensures Alone(s, Marking(id, s.files[id].key), failing, [], 3).1 == Ended
  {
    hide Marked, Erased, Finalized;
    var key := s.files[id].key;
    var op := Marking(id, key);
    assert Alone(s, op, failing, [], 0) == (s, op);
    assert Alone(s, op, failing, [], 1) == (Marked(s, id, key), Erasing(id, key));
    if key in failing {
      assert Alone(s, op, failing, [], 2) == (Marked(s, id, key), Ended);
    } else {
      assert Alone(s, op, failing, [], 2) == (Erased(Marked(s, id, key), key), Finalizing(id));
    }
  }

  /** The statements about one target: skipped when a live file has its key, else tried, and closed when the
      deletion succeeds. */
  lemma TargetAlone(s: Store, t: Target, rest: seq<Target>, failing: set<Key>, targets: seq<Target>) returns (n: nat)
    ensures Alone(s, Sweeping([t] + rest), failing, targets, n) ==
      (if !LiveKey(s, t.key) && t.key !in failing then Finalized(Erased(s, t.key), t.id) else s, Sweeping(rest))
  {
    hide LiveKey, Erased, Finalized;
    var op := Sweeping([t] + rest);
    assert ([t] + rest)[0] == t && ([t] + rest)[1..] == rest;
    assert Alone(s, op, failing, targets, 0) == (s, op);
    if LiveKey(s, t.key) {
      n := 1;
    } else {
      assert Alone(s, op, failing, targets, 1) == (s, Checked(t, rest));
      if t.key in failing {
        n := 2;
      } else {
        assert Alone(s, op, failing, targets, 2) == (Erased(s, t.key), Closing(t, rest));
        n := 3;
      }
    }
  }

  lemma {:induction false} SweepAlone(s: Store, failing: set<Key>, targets: seq<Target>, i: nat) returns (n: nat)
    requires i <= |targets| && Selects(s, targets)
    ensures Alone(s, Sweeping(targets), failing, targets, n) == (Swept(s, failing, targets[..i]), Sweeping(targets[i..]))
  {
    hide Swept, Selects, Finalized, Erased, LiveKey, Continue, Execute;
    if i == 0 {
      n := 0;
      SweptNone(s, failing);
      assert targets[..0] == [] && targets[0..] == targets;
    } else {
      var m := SweepAlone(s, failing, targets, i - 1);
      var mid := Swept(s, failing, targets[..i - 1]);
      SweptOneMore(s, failing, targets, i - 1);
      assert targets[i - 1..] == [targets[i - 1]] + targets[i..];
      var k := TargetAlone(mid, targets[i - 1], targets[i..], failing, targets);
      AloneLater(s, Sweeping(targets), failing, targets, m, k);
      n := m + k;
    }
  }

  lemma PassStarts(s: Store, failing: set<Key>, targets: seq<Target>)
    requires Selects(Seeded(s), targets)
    ensures Alone(s, Seeding, failing, targets, 2) == (Seeded(s), Sweeping(targets))
  {
    hide Selects, Seeded;
    assert Alone(s, Seeding, failing, targets, 0) == (s, Seeding);
    assert Alone(s, Seeding, failing, targets, 1) == (Seeded(s), Selecting);
  }

  lemma PassStops(s: Store, failing: set<Key>, targets: seq<Target>)
    ensures Alone(s, Sweeping([]), failing, targets, 1) == (s, Ended)
  {
    assert Alone(s, Sweeping([]), failing, targets, 0) == (s, Sweeping([]));
  }

  /** A recovery pass that is let alone does what the handler's pass does, and ends. */
  lemma PassAlone(s: Store, failing: set<Key>, targets: seq<Target>) returns (n: nat)
    requires Selects(Seeded(s), targets)
    ensures Alone(s, Seeding, failing, targets, n) == (AfterPass(Seeded(s), failing), Ended)
  {
    hide Swept, Selects, Seeded, AfterPass, Alone;
    PassStarts(s, failing, targets);
    var m := SweepAlone(Seeded(s), failing, targets, |targets|);
    SweptAll(Seeded(s), failing, targets);
    assert targets[..|targets|] == targets && targets[|targets|..] == [];
    AloneLater(s, Seeding, failing, targets, 2, m);
    AloneLater(s, Seeding, failing, targets, 2 + m, 1);
    PassStops(AfterPass(Seeded(s), failing), failing, targets);
    n := 2 + m + 1;
  }

  // ----- deleted files have intents -----

  predicate Recorded(s: Store) {
    forall id :: id in s.files && s.files[id].deleted ==> id in s.intents
  }

  lemma StatementRecords(s: Store, next: nat, op: Op, ok: bool, effect: bool)
    requires Recorded(s) && OpSafe(s, next, op)
    ensures Recorded(Execute(s, op, ok, effect))
  {
  }

  /** In every interleaving a deleted file has an intent, so that a recovery pass finds it: the mark and the
      intent are written together. */
  lemma {:induction false} DeletedFilesAreRecorded(events: seq<Event>)
    ensures Recorded(Run(events).store)
  {
    if events != [] {
      var before, e := events[..|events| - 1], events[|events| - 1];
      DeletedFilesAreRecorded(before);
      RunsAreSafe(before);
      var y := Run(before);
      if e.Advance? && e.i < |y.ops| {
        assert OpSafe(y.store, y.next, y.ops[e.i]);
        StatementRecords(y.store, y.next, y.ops[e.i], e.ok, e.effect);
      }
      hide Execute, Continue, OpSafe, StoreSafe;
    }
  }
}
