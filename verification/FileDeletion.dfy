/** Crash-safe file deletion (internal/files/handler.go, upload, remove, finalizeDeletion and
    ResumePendingDeletions), with any interleaving of requests and recovery passes. Ids and storage keys
    are drawn fresh; the orphan cleanup is not part of this model. */
module FileDeletion {
  import opened Base

  type FileId = nat
  type Key = nat

  /** A metadata row; readers see it until it is marked deleted. */
  datatype File = File(key: Key, deleted: bool)

  datatype Intent = Intent(key: Key, done: bool)

  datatype Store = Store(files: map<FileId, File>, intents: map<FileId, Intent>, objects: set<Key>)

  predicate LiveId(s: Store, id: FileId) { id in s.files && !s.files[id].deleted }

  predicate LiveKey(s: Store, key: Key) { exists id :: id in s.files && !s.files[id].deleted && s.files[id].key == key }

  // ----- the statements -----

  /** The transaction of remove. */
  function Marked(s: Store, id: FileId, key: Key): Store {
    s.(intents := if id in s.intents then s.intents else s.intents[id := Intent(key, false)],
       files := if id in s.files then s.files[id := s.files[id].(deleted := true)] else s.files)
  }

  /** finalizeDeletion. */
  function Finalized(s: Store, id: FileId): Store {
    if id in s.intents && !s.intents[id].done then s.(intents := s.intents[id := s.intents[id].(done := true)]) else s
  }

  function Erased(s: Store, key: Key): Store { s.(objects := s.objects - {key}) }

  /** Every deleted file gets an intent. */
  function Seeded(s: Store): Store {
    s.(intents := (map id | id in s.files && s.files[id].deleted :: Intent(s.files[id].key, false)) + s.intents)
  }

  datatype Target = Target(id: FileId, key: Key)

  /** A pending intent whose file is absent or marked deleted. */
  predicate Processable(s: Store, t: Target) {
    t.id in s.intents && s.intents[t.id] == Intent(t.key, false) && !LiveId(s, t.id)
  }

  /** The rows of the target query, each once, in any order. */
  ghost predicate Selects(s: Store, targets: seq<Target>) {
    && (forall i :: 0 <= i < |targets| ==> Processable(s, targets[i]))
    && (forall i, j :: 0 <= i < j < |targets| ==> targets[i] != targets[j])
    && (forall t :: Processable(s, t) ==> t in targets)
  }

  // ----- one pass, undisturbed -----

  /** The intents a pass finalizes when the deletions of these keys fail. */
  predicate Finishes(s: Store, failing: set<Key>, id: FileId)
    requires id in s.intents
  {
    Processable(s, Target(id, s.intents[id].key)) && !LiveKey(s, s.intents[id].key) && s.intents[id].key !in failing
  }

  class Handler {
    var files: map<FileId, File>
    var intents: map<FileId, Intent>
    var objects: set<Key>

    function State(): Store
      reads this
    {
      Store(files, intents, objects)
    }

    constructor ()
      ensures State() == Store(map[], map[], {})
    {
      files, intents, objects := map[], map[], {};
    }

    /** upload, from the stored object on: `taken` makes the insert fail, and the object is taken back. */
    method Upload(id: FileId, key: Key, taken: bool) returns (ok: bool)
      modifies this
      ensures ok <==> !taken
      ensures ok ==> State() == old(State()).(files := old(files)[id := File(key, false)], objects := old(objects) + {key})
      ensures !ok ==> State() == Erased(old(State()), key)
    {
      objects := objects + {key};
      if taken {
        objects := objects - {key};
        return false;
      }
      files := files[id := File(key, false)];
      return true;
    }

    /** remove: intent and mark in one transaction, then the object, then the final state; a storage
        failure leaves the intent pending. */
    method Remove(id: FileId, failing: set<Key>) returns (ok: bool)
      modifies this
      ensures ok <==> id in old(files) && old(files)[id].key !in failing
      ensures id !in old(files) ==> State() == old(State())
      ensures id in old(files) ==>
        var marked := Marked(old(State()), id, old(files)[id].key);
        State() == if ok then Finalized(Erased(marked, old(files)[id].key), id) else marked
    {
      if id !in files { return false; }
      var key := files[id].key;
      if id !in intents { intents := intents[id := Intent(key, false)]; }
      files := files[id := files[id].(deleted := true)];
      if key in failing { return false; }
      objects := objects - {key};
      FinalizeDeletion(id);
      return true;
    }

    method FinalizeDeletion(id: FileId)
      modifies this
      ensures State() == Finalized(old(State()), id)
    {
      if id in intents && !intents[id].done { intents := intents[id := intents[id].(done := true)]; }
    }

    /** The rows of the target query. */
    method SelectTargets() returns (targets: seq<Target>)
      ensures Selects(State(), targets)
    {
      targets := [];
      var todo := intents.Keys;
      while todo != {}
        invariant todo <= intents.Keys
        invariant forall i :: 0 <= i < |targets| ==> Processable(State(), targets[i]) && targets[i].id !in todo
        invariant forall i, j :: 0 <= i < j < |targets| ==> targets[i] != targets[j]
        invariant forall t :: Processable(State(), t) && t.id !in todo ==> t in targets
        decreases |todo|
      {
        var id :| id in todo;
        todo := todo - {id};
        var t := Target(id, intents[id].key);
        if !intents[id].done && (id !in files || files[id].deleted) { targets := targets + [t]; }
      }
    }

    /** ResumePendingDeletions: without interference a pass finalizes exactly the pending intents whose
        file is not live, whose key no live file uses and whose object could be deleted, and erases
        exactly their objects; nothing else changes. */
    method ResumePendingDeletions(failing: set<Key>) returns (processed: nat)
      modifies this
      ensures State() == AfterPass(Seeded(old(State())), failing)
      ensures processed == |FinishedIn(Seeded(old(State())), failing)|
    {
      hide LiveKey, Finishes;
      intents := (map id | id in files && files[id].deleted :: Intent(files[id].key, false)) + intents;
      ghost var seeded := State();
      assert seeded == Seeded(old(State()));
      var targets := SelectTargets();
      SweptNone(seeded, failing);
      processed := 0;
      for i := 0 to |targets|
        invariant State() == Swept(seeded, failing, targets[..i])
        invariant processed == |FinishedBy(seeded, failing, targets[..i])|
      {
        hide Swept, FinishedBy, Selects, Seeded, Finalized, Erased;
        var t := targets[i];
        SweptOneMore(seeded, failing, targets, i);
        if !LiveKey(State(), t.key) && t.key !in failing {
          EraseObject(t.key);
          FinalizeDeletion(t.id);
          processed := processed + 1;
        }
      }
      assert targets[..|targets|] == targets;
      SweptAll(seeded, failing, targets);
    }

    method EraseObject(key: Key)
      modifies this
      ensures State() == Erased(old(State()), key)
    {
      objects := objects - {key};
    }
  }

  /** The intents a pass finalizes. */
  function FinishedIn(s: Store, failing: set<Key>): set<FileId> {
    set id | id in s.intents && Finishes(s, failing, id)
  }

  function AfterPass(s: Store, failing: set<Key>): Store {
    s.(intents := map id | id in s.intents :: s.intents[id].(done := s.intents[id].done || Finishes(s, failing, id)),
       objects := s.objects - set id | id in s.intents && Finishes(s, failing, id) :: s.intents[id].key)
  }

  /** The store once these targets have been processed. */
  ghost function Swept(s: Store, failing: set<Key>, targets: seq<Target>): Store {
    s.(intents := map id | id in s.intents :: s.intents[id].(done := s.intents[id].done || id in FinishedBy(s, failing, targets)),
       objects := s.objects - ErasedBy(s, failing, targets))
  }

  lemma SweptNone(s: Store, failing: set<Key>)
    ensures Swept(s, failing, []) == s && FinishedBy(s, failing, []) == {}
  {
  }

  lemma SweptOneMore(s: Store, failing: set<Key>, targets: seq<Target>, i: nat)
    requires i < |targets| && Selects(s, targets)
    ensures var t, before := targets[i], Swept(s, failing, targets[..i]);
      && (Swept(s, failing, targets[..i + 1]) ==
          if !LiveKey(before, t.key) && t.key !in failing then Finalized(Erased(before, t.key), t.id) else before)
      && (|FinishedBy(s, failing, targets[..i + 1])| ==
          |FinishedBy(s, failing, targets[..i])| + if !LiveKey(before, t.key) && t.key !in failing then 1 else 0)
  {
    hide ErasedBy, FinishedBy, Finishes;
    var t, before := targets[i], Swept(s, failing, targets[..i]);
    assert Processable(s, t);
    assert LiveKey(before, t.key) == LiveKey(s, t.key);
    hide LiveKey, Selects;
    ErasedOneMore(s, failing, targets, i);
    FinishedOneMore(s, failing, targets, i);
    var after := if !LiveKey(s, t.key) && t.key !in failing then Finalized(Erased(before, t.key), t.id) else before;
    assert Swept(s, failing, targets[..i + 1]).intents == after.intents;
  }

  lemma SweptAll(s: Store, failing: set<Key>, targets: seq<Target>)
    requires Selects(s, targets)
    ensures Swept(s, failing, targets) == AfterPass(s, failing) && FinishedBy(s, failing, targets) == FinishedIn(s, failing)
  {
  }

  /** The keys erased while processing these targets. */
  ghost function ErasedBy(s: Store, failing: set<Key>, targets: seq<Target>): set<Key> {
    set t | t in targets && t.id in s.intents && Finishes(s, failing, t.id) :: s.intents[t.id].key
  }

  lemma ErasedOneMore(s: Store, failing: set<Key>, targets: seq<Target>, i: nat)
    requires i < |targets| && Processable(s, targets[i])
    ensures ErasedBy(s, failing, targets[..i + 1]) ==
      ErasedBy(s, failing, targets[..i]) + if !LiveKey(s, targets[i].key) && targets[i].key !in failing then {targets[i].key} else {}
  {
  }

  /** The intents finalized while processing these targets. */
  ghost function FinishedBy(s: Store, failing: set<Key>, targets: seq<Target>): set<FileId> {
    set t | t in targets && t.id in s.intents && Finishes(s, failing, t.id) :: t.id
  }

  lemma FinishedOneMore(s: Store, failing: set<Key>, targets: seq<Target>, i: nat)
    requires i < |targets| && Selects(s, targets)
    ensures var more, less, t := FinishedBy(s, failing, targets[..i + 1]), FinishedBy(s, failing, targets[..i]), targets[i];
      && more == less + (if !LiveKey(s, t.key) && t.key !in failing then {t.id} else {})
      && t.id !in less
  {
  }

  /** Without storage failures a pass leaves pending only intents whose id or key belongs to a live file,
      and never takes the object of a live file. */
  lemma OnlyConflictsStayPending(s: Store, id: FileId)
    requires id in Seeded(s).intents
    ensures var after := AfterPass(Seeded(s), {});
      && (!after.intents[id].done ==> LiveId(s, id) || LiveKey(s, after.intents[id].key))
      && (forall f :: f in s.files && !s.files[f].deleted && s.files[f].key in s.objects ==> s.files[f].key in after.objects)
  {
  }

  // ----- what the statements leave -----

  /** The removal's transaction marks the file and leaves a pending intent for its object, unless the file has
      one already; a reader no longer sees the file, and nothing else changes. */
  lemma RemovalIsRecorded(s: Store, id: FileId)
    requires id in s.files
    ensures var marked := Marked(s, id, s.files[id].key);
      && !LiveId(marked, id) && id in marked.intents
      && marked.intents == (if id in s.intents then s.intents else s.intents[id := Intent(s.files[id].key, false)])
      && marked.files == s.files[id := File(s.files[id].key, true)] && marked.objects == s.objects
  {
  }

  /** The removal of a file whose object goes ends with the file unseen, its object gone and its intent done. */
  lemma RemovalCompletes(s: Store, id: FileId)
    requires id in s.files && (id in s.intents ==> s.intents[id].key == s.files[id].key)
    ensures var key := s.files[id].key; var done := Finalized(Erased(Marked(s, id, key), key), id);
      && !LiveId(done, id) && done.objects == s.objects - {key} && done.intents == s.intents[id := Intent(key, true)]
      && done.files == s.files[id := File(key, true)]
  {
  }

  /** Recovery first gives every deleted file an intent, and no other file one. */
  lemma SeedingExactly(s: Store, id: FileId)
    ensures var seeded := Seeded(s);
      && seeded.files == s.files && seeded.objects == s.objects
      && (id in s.intents ==> id in seeded.intents && seeded.intents[id] == s.intents[id])
      && (id !in s.intents ==> (id in seeded.intents <==> id in s.files && s.files[id].deleted))
      && (id !in s.intents && id in seeded.intents ==> seeded.intents[id] == Intent(s.files[id].key, false))
  {
  }

  /** An undisturbed pass, told from the tables: it finalizes a pending intent if and only if its file is not
      live, no live file has its key and its object could be deleted, and takes exactly these objects. */
  lemma PassExactly(s: Store, failing: set<Key>, id: FileId, key: Key)
    ensures var after := AfterPass(Seeded(s), failing);
      && after.files == s.files
      && (id in after.intents <==> id in s.intents || (id in s.files && s.files[id].deleted))
      && (id in after.intents && after.intents[id].done <==> Settled(s, failing, id))
      && (key in after.objects <==> key in s.objects && forall i :: !(Pending(s, i) && KeyOf(s, i) == key && Settled(s, failing, i)))
  {
    hide LiveKey;
    forall i
      ensures i in Seeded(s).intents <==> i in s.intents || (i in s.files && s.files[i].deleted)
      ensures i in Seeded(s).intents ==> Seeded(s).intents[i].key == KeyOf(s, i)
    {
    }
    assert forall k :: LiveKey(Seeded(s), k) == LiveKey(s, k) by { SameLiveKeys(s); }
  }

  lemma SameLiveKeys(s: Store)
    ensures forall k :: LiveKey(Seeded(s), k) == LiveKey(s, k)
  {
  }

  /** The key an intent names, or would be given. */
  function KeyOf(s: Store, id: FileId): Key {
    if id in s.intents then s.intents[id].key else if id in s.files then s.files[id].key else 0
  }

  /** An intent that is not done, or a deleted file without one. */
  predicate Pending(s: Store, id: FileId) {
    if id in s.intents then !s.intents[id].done else id in s.files && s.files[id].deleted
  }

  predicate Settled(s: Store, failing: set<Key>, id: FileId) {
    || (id in s.intents && s.intents[id].done)
    || (Pending(s, id) && !LiveId(s, id) && !LiveKey(s, KeyOf(s, id)) && KeyOf(s, id) !in failing)
  }
}
