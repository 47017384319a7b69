/** What the definition tables hold after a log: collections, webhooks and functions as their last accepted
    definition says (internal/replicated/fsm.go, applyCollection, deleteCollection, applyWebhookPut and
    applyFunctionPut). */
module StoredDefinitions {
  import opened Base
  import opened Physical
  import opened Jobs
  import opened Tables
  import opened Consequences
  import opened JobConsequences
  import opened Fsm
  import opened Runs
  import opened Invariants

  // ----- what the log says -----

  /** The operation deletes the collection with this ID, found by name. */
  predicate DropsCollection(t: Tables, command: Command, c: string) {
    command.CollectionDelete? && command.name in t.names && t.names[command.name] == c
  }

  /** The definitions accepted for a collection since it was last deleted. */
  function CollectionHistory(log: Log, n: nat, c: string): seq<Definition>
    requires n <= |log|
  {
    if n == 0 then []
    else
      var before := CollectionHistory(log, n - 1, c);
      if !AcceptedAt(log, n - 1) then before
      else
        var command := log[n - 1].body.op.command;
        if DropsCollection(Canon(log, n - 1).db.tables, command, c) then []
        else if command.CollectionPut? && command.definition.id == c then before + [command.definition]
        else before
  }

  function WebhookHistory(log: Log, n: nat, x: string): seq<Webhook>
    requires n <= |log|
  {
    if n == 0 then []
    else
      var before := WebhookHistory(log, n - 1, x);
      if !AcceptedAt(log, n - 1) then before
      else
        var command := log[n - 1].body.op.command;
        if command == WebhookDelete(x) then []
        else if command.WebhookPut? && command.id == x then before + [command.webhook]
        else before
  }

  function FunctionHistory(log: Log, n: nat, x: string): seq<Function>
    requires n <= |log|
  {
    if n == 0 then []
    else
      var before := FunctionHistory(log, n - 1, x);
      if !AcceptedAt(log, n - 1) then before
      else
        var command := log[n - 1].body.op.command;
        if command == FunctionDelete(x) then []
        else if command.FunctionPut? && command.id == x then before + [command.function_]
        else before
  }

  /** The stored collection is the last definition, created when the first one was. */
  predicate CollectionIs(t: Tables, c: string, history: seq<Definition>) {
    if history == [] then c !in t.collections
    else
      var last := history[|history| - 1];
      c in t.collections && last.id == c
      && t.collections[c] == Collection(last.name, last.kind, last.fields, history[0].createdAt, last.updatedAt)
  }

  predicate WebhookIs(t: Tables, x: string, history: seq<Webhook>) {
    if history == [] then x !in t.webhooks
    else x in t.webhooks && t.webhooks[x] == history[|history| - 1].(createdAt := history[0].createdAt)
  }

  predicate FunctionIs(t: Tables, x: string, history: seq<Function>) {
    if history == [] then x !in t.functions
    else x in t.functions && t.functions[x] == history[|history| - 1].(createdAt := history[0].createdAt)
  }

  // ----- one definition -----

  /** An accepted collection definition changes one row of the collection table, to what it says. */
  lemma CollectionPutStores(t: Tables, d: Definition)
    requires Indexed(t) && ApplyCollection(t, d).Ok?
    ensures var t1 := ApplyCollection(t, d).value;
      && t1.collections == t.collections[d.id := Collection(d.name, d.kind, d.fields,
           if d.id in t.collections then t.collections[d.id].createdAt else d.createdAt, d.updatedAt)]
      && t1.webhooks == t.webhooks && t1.functions == t.functions
  {
    hide Rebuild, Creatable, FieldsInsertable, WholeDefinition;
  }

  lemma CollectionDropped(t: Tables, name: string)
    ensures var t1 := DeleteCollection(t, name);
      && t1.collections == (if name in t.names then t.collections - {t.names[name]} else t.collections)
      && t1.webhooks == t.webhooks && t1.functions == t.functions
  {
  }

  lemma WebhookStores(t: Tables, x: string, w: Webhook)
    requires PutWebhook(t, x, w).Ok?
    ensures var t1 := PutWebhook(t, x, w).value;
      && t1.webhooks == t.webhooks[x := if x in t.webhooks then w.(createdAt := t.webhooks[x].createdAt) else w]
      && t1.collections == t.collections && t1.functions == t.functions
  {
  }

  lemma FunctionStores(t: Tables, x: string, f: Function)
    requires PutFunction(t, x, f).Ok?
    ensures var t1 := PutFunction(t, x, f).value;
      && t1.functions == t.functions[x := if x in t.functions then f.(createdAt := t.functions[x].createdAt) else f]
      && t1.collections == t.collections && t1.webhooks == t.webhooks
  {
  }

  /** Which automation definitions are accepted. */
  lemma AutomationOutcome(t: Tables, x: string, w: Webhook, f: Function)
    ensures PutWebhook(t, x, w).Ok? <==> x != "" && w.name != "" && w.url != "" && w.cipher != ""
    ensures PutFunction(t, x, f).Ok? <==> x != "" && f.name != "" && f.provider == "aws-lambda" && f.target != "" && f.region != ""
    ensures PutWebhook(t, x, w).Err? ==> PutWebhook(t, x, w).fault == Broken
    ensures PutFunction(t, x, f).Err? ==> PutFunction(t, x, f).fault == Broken
  {
  }

  // ----- one operation -----

  /** Everything an operation does to the definition tables. */
  predicate Defines(t: Tables, t1: Tables, command: Command) {
    match command
    case CollectionPut(d) =>
      && t1.collections == t.collections[d.id := Collection(d.name, d.kind, d.fields,
           if d.id in t.collections then t.collections[d.id].createdAt else d.createdAt, d.updatedAt)]
      && t1.webhooks == t.webhooks && t1.functions == t.functions
    case CollectionDelete(name) =>
      && t1.collections == (if name in t.names then t.collections - {t.names[name]} else t.collections)
      && t1.webhooks == t.webhooks && t1.functions == t.functions
    case WebhookPut(x, w) =>
      && t1.webhooks == t.webhooks[x := if x in t.webhooks then w.(createdAt := t.webhooks[x].createdAt) else w]
      && t1.collections == t.collections && t1.functions == t.functions
    case WebhookDelete(x) => t1.webhooks == t.webhooks - {x} && t1.collections == t.collections && t1.functions == t.functions
    case FunctionPut(x, f) =>
      && t1.functions == t.functions[x := if x in t.functions then f.(createdAt := t.functions[x].createdAt) else f]
      && t1.collections == t.collections && t1.webhooks == t.webhooks
    case FunctionDelete(x) => t1.functions == t.functions - {x} && t1.collections == t.collections && t1.webhooks == t.webhooks
    case _ => SameDefinitions(t, t1)
  }

  lemma OperationDefines(t: Tables, op: Operation)
    requires Indexed(t) && Materialize(t, op).Ok?
    ensures Defines(t, Materialize(t, op).value, op.command)
  {
    hide Indexed, MutateRecords, TransitJobs, ApplyCollection, DeleteCollection, PutWebhook, PutFunction;
    match op.command
    case CollectionPut(d) => CollectionPutStores(t, d);
    case CollectionDelete(name) => CollectionDropped(t, name);
    case WebhookPut(x, w) => WebhookStores(t, x, w);
    case FunctionPut(x, f) => FunctionStores(t, x, f);
    case RecordPut(_) => RecordsKeepTargets(t, op);
    case RecordDelete(_) => RecordsKeepTargets(t, op);
    case RecordBatchPut(_) => RecordsKeepTargets(t, op);
    case _ =>
  }

  lemma CollectionStep(t: Tables, t1: Tables, command: Command, c: string, history: seq<Definition>)
    requires Defines(t, t1, command) && CollectionIs(t, c, history)
    ensures CollectionIs(t1, c,
      if DropsCollection(t, command, c) then []
      else if command.CollectionPut? && command.definition.id == c then history + [command.definition]
      else history)
  {
  }

  lemma WebhookStep(t: Tables, t1: Tables, command: Command, x: string, history: seq<Webhook>)
    requires Defines(t, t1, command) && WebhookIs(t, x, history)
    ensures WebhookIs(t1, x,
      if command == WebhookDelete(x) then []
      else if command.WebhookPut? && command.id == x then history + [command.webhook]
      else history)
  {
  }

  lemma FunctionStep(t: Tables, t1: Tables, command: Command, x: string, history: seq<Function>)
    requires Defines(t, t1, command) && FunctionIs(t, x, history)
    ensures FunctionIs(t1, x,
      if command == FunctionDelete(x) then []
      else if command.FunctionPut? && command.id == x then history + [command.function_]
      else history)
  {
  }

  lemma AcceptedDefines(log: Log, n: nat)
    requires Ordered(log) && n < |log| && AcceptedAt(log, n)
    ensures log[n].body.Committed?
    ensures Defines(Canon(log, n).db.tables, Canon(log, n + 1).db.tables, log[n].body.op.command)
  {
    hide Defines, Indexed, Materialize, Consistent;
    CanonFacts(log, n);
    CanonConsistent(log, n);
    ConsistentIsIndexed(Canon(log, n).db.tables);
    OperationDefines(Canon(log, n).db.tables, log[n].body.op);
  }

  lemma ConsistentIsIndexed(t: Tables)
    requires Consistent(t)
    ensures Indexed(t) && Stored(t)
  {
  }

  /** After any log a collection is there if and only if it was defined since it was last deleted, and then it
      is what its last accepted definition says, created when the first of them was. */
  lemma {:induction false} CollectionLaw(log: Log, n: nat, c: string)
    requires Ordered(log) && n <= |log|
    ensures CollectionIs(Canon(log, n).db.tables, c, CollectionHistory(log, n, c))
  {
    hide Canon, CollectionIs, AcceptedAt, DropsCollection, Defines;
    if n == 0 {
      NothingDefined(log, c);
    } else {
      CollectionLaw(log, n - 1, c);
      if AcceptedAt(log, n - 1) {
        AcceptedDefines(log, n - 1);
        CollectionStep(Canon(log, n - 1).db.tables, Canon(log, n).db.tables, log[n - 1].body.op.command, c, CollectionHistory(log, n - 1, c));
      } else {
        NotAcceptedIsNoop(log, n - 1);
      }
    }
  }

  /** The same of webhooks and functions. */
  lemma {:induction false} AutomationLaw(log: Log, n: nat, x: string)
    requires Ordered(log) && n <= |log|
    ensures WebhookIs(Canon(log, n).db.tables, x, WebhookHistory(log, n, x))
    ensures FunctionIs(Canon(log, n).db.tables, x, FunctionHistory(log, n, x))
  {
    hide Canon, WebhookIs, FunctionIs, AcceptedAt, Defines;
    if n == 0 {
      NothingDefined(log, x);
    } else {
      AutomationLaw(log, n - 1, x);
      if AcceptedAt(log, n - 1) {
        AcceptedDefines(log, n - 1);
        var t, t1, command := Canon(log, n - 1).db.tables, Canon(log, n).db.tables, log[n - 1].body.op.command;
        WebhookStep(t, t1, command, x, WebhookHistory(log, n - 1, x));
        FunctionStep(t, t1, command, x, FunctionHistory(log, n - 1, x));
      } else {
        NotAcceptedIsNoop(log, n - 1);
      }
    }
  }

  lemma NothingDefined(log: Log, x: string)
    ensures var t := Canon(log, 0).db.tables; CollectionIs(t, x, []) && WebhookIs(t, x, []) && FunctionIs(t, x, [])
  {
  }

  // ----- which collection definitions are accepted -----

  predicate Complete(d: Definition) {
    d.id != "" && d.name != "" && d.createdAt != UNSET && d.updatedAt != UNSET && forall i :: 0 <= i < |d.fields| ==> d.fields[i].id != ""
  }

  /** Field IDs and names are distinct, and no other collection has one of the IDs. */
  predicate FieldsFree(t: Tables, d: Definition) {
    && (forall i, j :: 0 <= i < j < |d.fields| ==> d.fields[i].id != d.fields[j].id && d.fields[i].name != d.fields[j].name)
    && forall c, f, g :: c in t.collections && c != d.id && f in t.collections[c].fields && g in d.fields ==> f.id != g.id
  }

  lemma CompleteIsWhole(d: Definition)
    ensures WholeDefinition(d) <==> Complete(d)
  {
    if WholeDefinition(d) {
      forall i | 0 <= i < |d.fields|
        ensures d.fields[i].id != ""
      {
        assert d.fields[i] in d.fields;
      }
    }
  }

  lemma FreeIsInsertable(t: Tables, d: Definition)
    ensures FieldsInsertable(t, d.id, d.fields) <==> FieldsFree(t, d)
  {
    forall c | c in t.collections
      ensures (Ids(t.collections[c].fields) !! Ids(d.fields)) <==> forall f, g :: f in t.collections[c].fields && g in d.fields ==> f.id != g.id
    {
      DisjointIds(t.collections[c].fields, d.fields);
    }
    hide Ids;
  }

  lemma DisjointIds(a: seq<Field>, b: seq<Field>)
    ensures (Ids(a) !! Ids(b)) <==> forall f, g :: f in a && g in b ==> f.id != g.id
  {
    if Ids(a) !! Ids(b) {
      forall f, g | f in a && g in b
        ensures f.id != g.id
      {
        assert f.id in Ids(a) && g.id in Ids(b);
      }
    }
  }

  /** Exactly which collection definitions are accepted, and how the others fail: a conflict when the name
      belongs to another collection, broken when the definition is incomplete, not of the base kind, repeats or
      takes field IDs, has unknown types, or, for a redefinition, when a stored record does not fit. */
  lemma CollectionOutcome(t: Tables, d: Definition)
    requires Stored(t)
    ensures var r := ApplyCollection(t, d);
      if !Complete(d) then r == Err(Broken)
      else if d.name in t.names && t.names[d.name] != d.id then r == Err(CollectionConflict)
      else if d.kind != "base" || !FieldsFree(t, d) then r == Err(Broken)
      else if d.name !in t.names then
        if d.id !in t.collections && (forall f :: f in d.fields ==> f.kind in KINDS) then r.Ok? else r == Err(Broken)
      else
        d.id in t.collections && d.id in t.rows
        && var before, table := t.collections[d.id].fields, t.rows[d.id];
           if (forall f :: f in d.fields ==> f.kind in KINDS)
             && (forall k, f :: k in table && f in d.fields ==> Fitting(f, Carried(before, table[k], f)))
             && CarriedApart(before, d.fields, table) then r.Ok? else r == Err(Broken)
  {
    hide KINDS, Fitting, Carried, CarriedApart, WholeDefinition, Complete, FieldsInsertable, Sound, Apart, Rebuild;
    CompleteIsWhole(d);
    FreeIsInsertable(t, d);
    if d.name in t.names && t.names[d.name] == d.id {
      RebuildExactly(t.collections[d.id].fields, d.fields, t.rows[d.id]);
      RebuildBreaks(t.collections[d.id].fields, d.fields, t.rows[d.id]);
    }
  }

  lemma RebuildBreaks(before: seq<Field>, fields: seq<Field>, table: Table)
    ensures Rebuild(before, fields, table).Err? ==> Rebuild(before, fields, table) == Err(Broken)
  {
    hide TableFits, Creatable;
  }

  /** Deleting a definition, present or not, is always accepted; a payload that does not decode never is. */
  lemma DeletionsOutcome(t: Tables, op: Operation)
    ensures op.command.CollectionDelete? || op.command.WebhookDelete? || op.command.FunctionDelete? ==> Materialize(t, op).Ok?
    ensures op.command.Unusable? ==> Materialize(t, op) == Err(Broken)
  {
    hide DeleteCollection;
  }
}
