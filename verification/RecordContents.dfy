/** What records hold: the values, timestamps and idempotency keys that committed payloads leave in the row
    store (internal/replicated/fsm.go, putRecord, deleteRecord and encodeField), over whole logs. */
module RecordContents {
  import opened Base
  import opened Physical
  import opened Jobs
  import opened Tables
  import opened Consequences
  import opened Fsm
  import opened Runs
  import opened Invariants
  import opened Versions
  import opened JobConsequences
  import opened StoredDefinitions

  // ----- one payload value and its cell -----

  /** The payload carries a value for the field. */
  predicate Given(values: map<string, Json>, name: string) {
    name in values && values[name] != JNull
  }

  /** The cell holds the value the payload carries under the field's name, or NULL where it carries none:
      JSON of any shape, a boolean as itself or as a number that is not zero, a number, or a text. */
  predicate Holds(f: Field, values: map<string, Json>, c: Cell) {
    if !Given(values, f.name) then c == Null
    else
      var v := values[f.name];
      if f.kind == "json" then c == JsonText(v)
      else if f.kind == "boolean" then (v.JBool? && c == Flag(v.b)) || (v.JNum? && c == Flag(v.n != 0.0))
      else if f.kind == "number" then v.JNum? && c == Num(v.n)
      else v.JStr? && c == Txt(v.s)
  }

  /** The payload's value is one the field's column takes. */
  predicate Suits(f: Field, values: map<string, Json>) {
    if !Given(values, f.name) then !f.required
    else
      var v := values[f.name];
      if f.kind == "json" then true
      else if f.kind == "boolean" then v.JBool? || v.JNum?
      else if f.kind == "number" then v.JNum?
      else v.JStr?
  }

  /** No other record holds the value in a unique field. */
  predicate Unclaimed(f: Field, values: map<string, Json>, table: Table, r: string) {
    f.unique && Given(values, f.name) ==>
      forall x :: x in table && x != r && f.id in table[x].cells ==> !Holds(f, values, table[x].cells[f.id])
  }

  lemma EncodedHolds(f: Field, values: map<string, Json>)
    requires f.kind in KINDS && Accepts(f.kind, Encode(f.kind, ValueOf(values, f.name)))
    ensures Holds(f, values, Encode(f.kind, ValueOf(values, f.name)))
  {
  }

  lemma EncodedSuits(f: Field, values: map<string, Json>)
    requires f.kind in KINDS
    ensures var c := Encode(f.kind, ValueOf(values, f.name));
      Suits(f, values) <==> Accepts(f.kind, c) && (f.required ==> c != Null)
    ensures Given(values, f.name) && Accepts(f.kind, Encode(f.kind, ValueOf(values, f.name))) ==> Encode(f.kind, ValueOf(values, f.name)) != Null
    ensures !Given(values, f.name) ==> Encode(f.kind, ValueOf(values, f.name)) == Null
  {
  }

  lemma CellAt(fields: seq<Field>, values: map<string, Json>, i: nat)
    requires DistinctIds(fields) && i < |fields|
    ensures var f := fields[i]; f.id in Cells(fields, values) && Cells(fields, values)[f.id] == Encode(f.kind, ValueOf(values, f.name))
  {
    hide Encode, ValueOf;
    assert forall j :: i < j < |fields| ==> fields[j].id != fields[i].id;
  }

  lemma CellsAt(fields: seq<Field>, values: map<string, Json>)
    requires DistinctIds(fields)
    ensures Cells(fields, values).Keys == Ids(fields)
    ensures forall f :: f in fields ==> Cells(fields, values)[f.id] == Encode(f.kind, ValueOf(values, f.name))
  {
    OnlyFieldCells(fields, values);
    hide Cells, DistinctIds, Encode, ValueOf;
    forall f | f in fields
      ensures f.id in Cells(fields, values) && Cells(fields, values)[f.id] == Encode(f.kind, ValueOf(values, f.name))
    {
      var i :| 0 <= i < |fields| && fields[i] == f;
      CellAt(fields, values, i);
    }
  }

  lemma OnlyFieldCells(fields: seq<Field>, values: map<string, Json>)
    ensures forall id :: id in Cells(fields, values) ==> id in Ids(fields)
  {
    hide Encode, ValueOf;
  }

  // ----- one put -----

  /** The row of a record, if it is there. */
  function RowOf(t: Tables, c: string, r: string): Option<Row> {
    if c in t.rows && r in t.rows[c] then Some(t.rows[c][r]) else None
  }

  function FieldsOf(t: Tables, c: string): seq<Field> {
    if c in t.collections then t.collections[c].fields else []
  }

  /** The row holds exactly the payload's values. */
  predicate HoldsAll(fields: seq<Field>, values: map<string, Json>, row: Row) {
    row.cells.Keys == Ids(fields) && forall f :: f in fields ==> f.id in row.cells && Holds(f, values, row.cells[f.id])
  }

  /** What an accepted put leaves: the payload's values, version and update time under its ID, the creation
      time of the record, and every other record as it was. */
  lemma PutStores(t: Tables, p: Record)
    requires Stored(t) && PutRecord(t, p).Ok?
    ensures var t1 := PutRecord(t, p).value; var before, row := RowOf(t, p.collection, p.id), RowOf(t1, p.collection, p.id);
      && row.Some? && HoldsAll(FieldsOf(t, p.collection), p.values, row.value)
      && row.value.version == p.version && row.value.updated == p.updatedAt
      && row.value.created == (if before.Some? then before.value.created else p.createdAt)
    ensures forall c, r :: c != p.collection || r != p.id ==> RowOf(PutRecord(t, p).value, c, r) == RowOf(t, c, r)
    ensures PutRecord(t, p).value.collections == t.collections
  {
    hide PutRecord, Stored, TableFits, RowFits, Cells, Encode, Holds;
    var c := p.collection;
    PutWrites(t, p);
    KindsOf(t, c);
    PutCells(t.collections[c].fields, p.values, PutRecord(t, p).value.rows[c][p.id]);
  }

  lemma PutCells(fields: seq<Field>, values: map<string, Json>, row: Row)
    requires DistinctIds(fields) && (forall f :: f in fields ==> f.kind in KINDS)
    requires RowFits(fields, row) && row.cells == Cells(fields, values)
    ensures HoldsAll(fields, values, row)
  {
    hide RowFits, Cells, Encode, Holds, KINDS;
    CellsAt(fields, values);
    forall f | f in fields
      ensures f.id in row.cells && Holds(f, values, row.cells[f.id])
    {
      FitsAccepts(fields, row, f);
      EncodedHolds(f, values);
    }
  }

  lemma FitsAccepts(fields: seq<Field>, row: Row, f: Field)
    requires RowFits(fields, row) && f in fields
    ensures f.id in row.cells && Accepts(f.kind, row.cells[f.id])
  {
  }

  lemma KindsOf(t: Tables, c: string)
    requires Stored(t) && c in t.collections
    ensures c in t.rows && DistinctIds(t.collections[c].fields) && TableFits(t.collections[c].fields, t.rows[c])
    ensures forall f :: f in t.collections[c].fields ==> f.kind in KINDS
  {
    hide TableFits, Ids;
  }

  lemma PutWrites(t: Tables, p: Record)
    requires PutRecord(t, p).Ok?
    ensures var t1 := PutRecord(t, p).value; var c := p.collection;
      && c in t.collections && c in t.rows && t1.collections == t.collections
      && t1.rows == t.rows[c := t.rows[c][p.id := t1.rows[c][p.id]]]
      && RowFits(t.collections[c].fields, t1.rows[c][p.id])
      && t1.rows[c][p.id] == Row(p.version, if p.id in t.rows[c] then t.rows[c][p.id].created else p.createdAt, p.updatedAt,
                                 Cells(t.collections[c].fields, p.values))
  {
    hide Cells, RowFits, UniqueFits;
  }

  // ----- exactly which puts are accepted -----

  predicate Known(t: Tables, c: string) { c in t.collections && t.collections[c].fields != [] }

  function VersionOf(row: Option<Row>): int { if row.Some? then row.value.version else 0 }

  /** Every value suits its column and no unique one is taken. */
  predicate Storable(fields: seq<Field>, values: map<string, Json>, table: Table, r: string) {
    forall f :: f in fields ==> Suits(f, values) && Unclaimed(f, values, table, r)
  }

  /** A create under an idempotency key that a record of the collection holds. */
  predicate KeyReused(t: Tables, p: Record) {
    RowOf(t, p.collection, p.id) == None && p.idempotencyKey != "" && (p.collection, p.idempotencyKey) in t.idem
  }

  lemma RowFitsExactly(fields: seq<Field>, values: map<string, Json>, row: Row)
    requires DistinctIds(fields) && (forall f :: f in fields ==> f.kind in KINDS) && row.cells == Cells(fields, values)
    ensures RowFits(fields, row) <==> forall f :: f in fields ==> Suits(f, values)
  {
    hide Cells, Encode, Suits, Accepts, ValueOf;
    CellsAt(fields, values);
    forall f | f in fields
      ensures Suits(f, values) <==> Accepts(f.kind, row.cells[f.id]) && (f.required ==> row.cells[f.id] != Null)
    {
      EncodedSuits(f, values);
      assert row.cells[f.id] == Encode(f.kind, ValueOf(values, f.name));
    }
  }

  /** Two cells of a field are equal when both hold the payload's value. */
  lemma SameHolding(f: Field, values: map<string, Json>, c: Cell, d: Cell)
    requires Holds(f, values, c)
    ensures Holds(f, values, d) <==> c == d
    ensures c != Null <==> Given(values, f.name)
  {
  }

  lemma UniqueFitsExactly(fields: seq<Field>, values: map<string, Json>, table: Table, r: string, row: Row)
    requires UniqueFits(fields, table) && HoldsAll(fields, values, row)
    requires forall x :: x in table ==> table[x].cells.Keys == Ids(fields)
    ensures UniqueFits(fields, table[r := row]) <==> forall f :: f in fields ==> Unclaimed(f, values, table, r)
  {
    hide Holds, Ids, UniqueFits;
    var next := table[r := row];
    forall f | f in fields
      ensures Unclaimed(f, values, table, r) <==>
        (f.unique && row.cells[f.id] != Null ==> forall x :: x in table && x != r && f.id in table[x].cells ==> table[x].cells[f.id] != row.cells[f.id])
    {
      UnclaimedExactly(f, values, table, r, row.cells[f.id]);
    }
    UniqueAfter(fields, table, r, row);
  }

  lemma UnclaimedExactly(f: Field, values: map<string, Json>, table: Table, r: string, c: Cell)
    requires Holds(f, values, c)
    ensures Unclaimed(f, values, table, r) <==>
      (f.unique && c != Null ==> forall x :: x in table && x != r && f.id in table[x].cells ==> table[x].cells[f.id] != c)
  {
    hide Holds;
    SameHolding(f, values, c, c);
    forall x | x in table && f.id in table[x].cells
      ensures Holds(f, values, table[x].cells[f.id]) <==> table[x].cells[f.id] == c
    {
      SameHolding(f, values, c, table[x].cells[f.id]);
    }
  }

  lemma UniqueAfter(fields: seq<Field>, table: Table, r: string, row: Row)
    requires UniqueFits(fields, table) && forall f :: f in fields ==> f.id in row.cells
    ensures UniqueFits(fields, table[r := row]) <==>
      forall f :: f in fields && f.unique && row.cells[f.id] != Null ==>
        forall x :: x in table && x != r && f.id in table[x].cells ==> table[x].cells[f.id] != row.cells[f.id]
  {
    var next := table[r := row];
    if UniqueFits(fields, next) {
      forall f, x | f in fields && f.unique && row.cells[f.id] != Null && x in table && x != r && f.id in table[x].cells
        ensures table[x].cells[f.id] != row.cells[f.id]
      {
        assert next[x] == table[x] && next[r] == row;
      }
    }
  }

  lemma TableFitsExactly(fields: seq<Field>, values: map<string, Json>, table: Table, r: string, row: Row)
    requires DistinctIds(fields) && (forall f :: f in fields ==> f.kind in KINDS) && row.cells == Cells(fields, values)
    requires TableFits(fields, table)
    ensures TableFits(fields, table[r := row]) <==> Storable(fields, values, table, r)
  {
    hide Cells, Encode, Suits, Unclaimed, Holds, UniqueFits, RowFits, DistinctIds;
    CellsAt(fields, values);
    RowFitsExactly(fields, values, row);
    FitsIsBoth(fields, table, r, row);
    if RowFits(fields, row) {
      forall f | f in fields
        ensures Holds(f, values, row.cells[f.id])
      {
        FitsAccepts(fields, row, f);
        EncodedHolds(f, values);
      }
      UniqueFitsExactly(fields, values, table, r, row);
    }
  }

  lemma FitsIsBoth(fields: seq<Field>, table: Table, r: string, row: Row)
    requires TableFits(fields, table) && row.cells.Keys == Ids(fields)
    ensures TableFits(fields, table[r := row]) <==> RowFits(fields, row) && UniqueFits(fields, table[r := row])
    ensures UniqueFits(fields, table) && forall x :: x in table ==> table[x].cells.Keys == Ids(fields)
  {
    hide RowFits, UniqueFits, Ids;
    assert table[r := row][r] == row;
  }

  /** Exactly which puts are accepted, and how the others fail: stale at any but the next version, broken when
      the collection is unknown or a value does not fit, stale when a create reuses a held key. */
  lemma PutOutcome(t: Tables, p: Record)
    requires Stored(t)
    ensures var c := p.collection; var next := VersionOf(RowOf(t, c, p.id)) + 1;
      if !Known(t, c) then PutRecord(t, p) == Err(Broken)
      else if p.version != next then PutRecord(t, p) == Err(StalePrecondition)
      else if !Storable(FieldsOf(t, c), p.values, t.rows[c], p.id) then PutRecord(t, p) == Err(Broken)
      else if KeyReused(t, p) then PutRecord(t, p) == Err(StalePrecondition)
      else PutRecord(t, p).Ok?
  {
    hide Stored, TableFits, Storable, Cells, RowFits, DistinctIds;
    var c := p.collection;
    if Known(t, c) {
      KindsOf(t, c);
      var row := Row(p.version, if p.id in t.rows[c] then t.rows[c][p.id].created else p.createdAt, p.updatedAt, Cells(FieldsOf(t, c), p.values));
      TableFitsExactly(FieldsOf(t, c), p.values, t.rows[c], p.id, row);
    }
  }

  // ----- deletes -----

  /** A delete removes the record at its current version, changes nothing for an absent one, and is stale at
      any other version. */
  lemma DeleteOutcomeExactly(t: Tables, p: Record)
    requires Stored(t)
    ensures var r := DeleteRecord(t, p); var row := RowOf(t, p.collection, p.id);
      if p.collection !in t.collections then r == Err(Broken)
      else if row == None then r == Ok(t)
      else if row.value.version != p.version then r == Err(StalePrecondition)
      else r.Ok? && RowOf(r.value, p.collection, p.id) == None
    ensures DeleteRecord(t, p).Ok? ==> forall c, r :: c != p.collection || r != p.id ==> RowOf(DeleteRecord(t, p).value, c, r) == RowOf(t, c, r)
  {
    hide Sound, Apart;
  }

  // ----- a list of puts -----

  /** The payloads among the first n that put one record, in order. */
  function PutsIn(ps: seq<Record>, n: nat, c: string, r: string): seq<Record>
    requires n <= |ps|
  {
    if n == 0 then []
    else PutsIn(ps, n - 1, c, r) + (if ps[n - 1].collection == c && ps[n - 1].id == r then [ps[n - 1]] else [])
  }

  function PutsOfRecord(command: Command, c: string, r: string): seq<Record> {
    match command
    case RecordPut(p) => PutsIn([p], 1, c, r)
    case RecordBatchPut(ps) => PutsIn(ps, |ps|, c, r)
    case _ => []
  }

  /** What puts of one record make of its row: the last one's values, version and update time, and the
      creation time of the record, or of the first put when it was absent. */
  predicate Written(fields: seq<Field>, before: Option<Row>, after: Option<Row>, puts: seq<Record>) {
    if puts == [] then after == before
    else
      var last := puts[|puts| - 1];
      && after.Some? && HoldsAll(fields, last.values, after.value)
      && after.value.version == last.version && after.value.updated == last.updatedAt
      && after.value.created == (if before.Some? then before.value.created else puts[0].createdAt)
  }

  lemma WrittenMore(fields: seq<Field>, before: Option<Row>, mid: Option<Row>, after: Option<Row>, puts: seq<Record>, more: seq<Record>)
    requires Written(fields, before, mid, puts) && Written(fields, mid, after, more)
    ensures Written(fields, before, after, puts + more)
  {
    hide HoldsAll;
    if more == [] {
      assert puts + more == puts;
    } else if puts == [] {
      assert puts + more == more;
    }
  }

  lemma EmitKeepsStorage(t: Tables, p: Record, op: string, ordinal: Option<nat>)
    requires Emit(t, p, op, ordinal).Ok?
    ensures SameStorage(t, Emit(t, p, op, ordinal).value)
  {
    hide EmitEvent, EmitAudit, EnqueueJobs, EventOf, AuditOf;
  }

  lemma SameStorageSameRow(t: Tables, t1: Tables, c: string, r: string)
    requires SameStorage(t, t1)
    ensures RowOf(t1, c, r) == RowOf(t, c, r) && FieldsOf(t1, c) == FieldsOf(t, c)
  {
  }

  lemma PutIsWritten(t: Tables, p: Record, op: string, ordinal: Option<nat>, c: string, r: string)
    requires Stored(t) && ApplyRecordPut(t, p, op, ordinal).Ok?
    ensures var t1 := ApplyRecordPut(t, p, op, ordinal).value;
      && t1.collections == t.collections
      && Written(FieldsOf(t, c), RowOf(t, c, r), RowOf(t1, c, r), PutsIn([p], 1, c, r))
  {
    hide Stored, PutRecord, Emit, HoldsAll, RowOf, FieldsOf;
    PutStores(t, p);
    var mid := PutRecord(t, p).value;
    EmitKeepsStorage(mid, p, op, ordinal);
    SameStorageSameRow(mid, Emit(mid, p, op, ordinal).value, c, r);
    assert PutsIn([p], 0, c, r) == [];
  }

  /** The last payload of a batch, over what the ones before it left. */
  lemma LastOfBatch(t: Tables, ps: seq<Record>, op: string, n: nat)
    requires Consistent(t) && 0 < n <= |ps| && ApplyBatch(t, ps, op, n).Ok?
    ensures ApplyBatch(t, ps, op, n - 1).Ok? && Stored(ApplyBatch(t, ps, op, n - 1).value)
    ensures ApplyRecordPut(ApplyBatch(t, ps, op, n - 1).value, ps[n - 1], op, Some(n - 1)) == ApplyBatch(t, ps, op, n)
  {
    hide Consistent, ApplyRecordPut, Stored;
    BatchOk(t, ps, op, n - 1);
    BatchKeepsConsistent(t, ps, op, n - 1);
    ConsistentIsIndexed(ApplyBatch(t, ps, op, n - 1).value);
  }

  lemma {:induction false} BatchIsWritten(t: Tables, ps: seq<Record>, op: string, n: nat, c: string, r: string)
    requires Consistent(t) && n <= |ps| && ApplyBatch(t, ps, op, n).Ok?
    ensures var t1 := ApplyBatch(t, ps, op, n).value;
      && t1.collections == t.collections
      && Written(FieldsOf(t, c), RowOf(t, c, r), RowOf(t1, c, r), PutsIn(ps, n, c, r))
  {
    hide Consistent, ApplyRecordPut, ApplyBatch, Written, RowOf, FieldsOf, PutsIn, Stored;
    if n == 0 {
      NothingWritten(t, ps, op, c, r);
    } else {
      LastOfBatch(t, ps, op, n);
      BatchIsWritten(t, ps, op, n - 1, c, r);
      var mid, t1 := ApplyBatch(t, ps, op, n - 1).value, ApplyBatch(t, ps, op, n).value;
      PutIsWritten(mid, ps[n - 1], op, Some(n - 1), c, r);
      SameFields(t, mid, c);
      OnePut(ps, n, c, r);
      WrittenMore(FieldsOf(t, c), RowOf(t, c, r), RowOf(mid, c, r), RowOf(t1, c, r), PutsIn(ps, n - 1, c, r), PutsIn([ps[n - 1]], 1, c, r));
    }
  }

  lemma NothingWritten(t: Tables, ps: seq<Record>, op: string, c: string, r: string)
    ensures ApplyBatch(t, ps, op, 0) == Ok(t)
    ensures Written(FieldsOf(t, c), RowOf(t, c, r), RowOf(t, c, r), PutsIn(ps, 0, c, r))
  {
  }

  lemma SameFields(t: Tables, t1: Tables, c: string)
    requires t1.collections == t.collections
    ensures FieldsOf(t1, c) == FieldsOf(t, c)
  {
  }

  lemma OnePut(ps: seq<Record>, n: nat, c: string, r: string)
    requires 0 < n <= |ps|
    ensures PutsIn(ps, n, c, r) == PutsIn(ps, n - 1, c, r) + PutsIn([ps[n - 1]], 1, c, r)
  {
    assert PutsIn([ps[n - 1]], 0, c, r) == [];
  }

  // ----- one operation -----

  /** An accepted record operation: a delete removes its record, puts write theirs, nothing else moves. */
  lemma RecordsWrite(t: Tables, op: Operation, c: string, r: string)
    requires Consistent(t) && OnRecords(op.command) && Materialize(t, op).Ok?
    ensures var t1 := Materialize(t, op).value;
      if Deletes(t, op.command, c, r) then RowOf(t1, c, r) == None
      else Written(FieldsOf(t, c), RowOf(t, c, r), RowOf(t1, c, r), PutsOfRecord(op.command, c, r))
  {
    hide ApplyRecordPut, DeleteRecord, Emit, ApplyBatch, Consistent, RowOf, Written, FieldsOf;
    ConsistentIsIndexed(t);
    match op.command
    case RecordPut(p) => PutIsWritten(t, p, op.id, None, c, r);
    case RecordDelete(p) => DeleteWrites(t, p, op.id, c, r);
    case RecordBatchPut(ps) => BatchIsWritten(t, ps, op.id, |ps|, c, r);
  }

  lemma DeleteWrites(t: Tables, p: Record, op: string, c: string, r: string)
    requires Stored(t) && ApplyRecordDelete(t, p, op, None).Ok?
    ensures var t1 := ApplyRecordDelete(t, p, op, None).value;
      if p.collection == c && p.id == r then RowOf(t1, c, r) == None
      else Written(FieldsOf(t, c), RowOf(t, c, r), RowOf(t1, c, r), [])
  {
    hide Stored, DeleteRecord, Emit, RowOf, FieldsOf;
    DeleteOutcomeExactly(t, p);
    var mid := DeleteRecord(t, p).value;
    EmitKeepsStorage(mid, p, op, None);
    SameStorageSameRow(mid, Emit(mid, p, op, None).value, c, r);
  }

  /** A definition of a collection keeps its records with their versions and times, and the values of the
      fields it had before; the new fields are empty. */
  predicate Rebuilt(before: seq<Field>, fields: seq<Field>, row: Option<Row>, after: Option<Row>) {
    if row == None then after == None
    else
      && after.Some? && after.value.cells.Keys == Ids(fields)
      && after.value.version == row.value.version && after.value.created == row.value.created && after.value.updated == row.value.updated
      && forall f :: f in Ids(fields) ==>
           if f in Ids(before) then f in row.value.cells && after.value.cells[f] == row.value.cells[f] else after.value.cells[f] == Null
  }

  lemma RedefinitionRebuilds(t: Tables, d: Definition, r: string)
    requires Stored(t) && d.name in t.names && ApplyCollection(t, d).Ok?
    ensures var t1 := ApplyCollection(t, d).value;
      && Rebuilt(FieldsOf(t, d.id), d.fields, RowOf(t, d.id, r), RowOf(t1, d.id, r))
      && forall c :: c != d.id ==> RowOf(t1, c, r) == RowOf(t, c, r)
  {
    hide Stored, Rebuild, TableFits, Creatable, FieldsInsertable, WholeDefinition, SoundCollection, ApplyCollection, Indexed;
    StoredParts(t);
    UpdatedIs(t, d);
    KindsOf(t, d.id);
    RebuildKeepsRetained(t.collections[d.id].fields, d.fields, t.rows[d.id]);
    if r in t.rows[d.id] { RowKeys(t, d.id, r); }
  }

  lemma CreationIsEmpty(t: Tables, d: Definition, c: string, r: string)
    requires Stored(t) && d.name !in t.names && ApplyCollection(t, d).Ok?
    ensures RowOf(ApplyCollection(t, d).value, c, r) == RowOf(t, c, r)
    ensures RowOf(t, d.id, r) == None
  {
    hide Creatable, FieldsInsertable, WholeDefinition, Sound, Apart, ApplyCollection;
    CreatedIs(t, d);
  }

  lemma CollectionPutRebuilds(t: Tables, d: Definition, c: string, r: string)
    requires Stored(t) && ApplyCollection(t, d).Ok?
    ensures var t1 := ApplyCollection(t, d).value;
      if c == d.id then Rebuilt(FieldsOf(t, c), d.fields, RowOf(t, c, r), RowOf(t1, c, r)) else RowOf(t1, c, r) == RowOf(t, c, r)
  {
    hide Stored, ApplyCollection, RowOf, FieldsOf, Ids;
    if d.name in t.names { RedefinitionRebuilds(t, d, r); } else { CreationIsEmpty(t, d, c, r); }
  }

  lemma RowKeys(t: Tables, c: string, r: string)
    requires Stored(t) && c in t.collections && r in t.rows[c]
    ensures t.rows[c][r].cells.Keys == Ids(t.collections[c].fields)
  {
    KindsOf(t, c);
    hide Stored, RowFits, UniqueFits, Ids;
  }

  /** Everything an operation does to one record's row. */
  predicate Moves(t: Tables, t1: Tables, command: Command, c: string, r: string) {
    if Deletes(t, command, c, r) then RowOf(t1, c, r) == None
    else if command.CollectionPut? && command.definition.id == c then
      Rebuilt(FieldsOf(t, c), command.definition.fields, RowOf(t, c, r), RowOf(t1, c, r))
    else Written(FieldsOf(t, c), RowOf(t, c, r), RowOf(t1, c, r), PutsOfRecord(command, c, r))
  }

  lemma OthersKeepRow(t: Tables, op: Operation, c: string, r: string)
    requires !OnRecords(op.command) && !op.command.CollectionPut? && !op.command.CollectionDelete? && Materialize(t, op).Ok?
    ensures RowOf(Materialize(t, op).value, c, r) == RowOf(t, c, r)
  {
    hide Materialize;
    OthersKeepRows(t, op);
  }

  lemma DroppedRows(t: Tables, name: string, c: string, r: string)
    ensures RowOf(DeleteCollection(t, name), c, r) == if name in t.names && t.names[name] == c then None else RowOf(t, c, r)
  {
  }

  lemma OperationMoves(t: Tables, op: Operation, c: string, r: string)
    requires Consistent(t) && Materialize(t, op).Ok?
    ensures Moves(t, Materialize(t, op).value, op.command, c, r)
  {
    hide Consistent, RowOf, FieldsOf, MutateRecords, TransitJobs, ApplyCollection, DeleteCollection, PutWebhook, PutFunction, Rebuilt, HoldsAll, Stored;
    ConsistentIsIndexed(t);
    if OnRecords(op.command) {
      RecordsWrite(t, op, c, r);
    } else if op.command.CollectionPut? {
      CollectionPutRebuilds(t, op.command.definition, c, r);
    } else if op.command.CollectionDelete? {
      DroppedRows(t, op.command.name, c, r);
    } else {
      OthersKeepRow(t, op, c, r);
    }
  }

  lemma AcceptedMoves(log: Log, n: nat, c: string, r: string)
    requires Ordered(log) && n < |log| && AcceptedAt(log, n)
    ensures log[n].body.Committed? && Moves(Canon(log, n).db.tables, Canon(log, n + 1).db.tables, log[n].body.op.command, c, r)
  {
    hide Moves, Materialize, Consistent;
    CanonFacts(log, n);
    CanonConsistent(log, n);
    OperationMoves(Canon(log, n).db.tables, log[n].body.op, c, r);
  }

  // ----- whole logs -----

  /** The fields of a collection by its last accepted definition. */
  function DefinedFields(log: Log, n: nat, c: string): seq<Field>
    requires n <= |log|
  {
    var history := CollectionHistory(log, n, c);
    if history == [] then [] else history[|history| - 1].fields
  }

  lemma FieldsAreDefined(log: Log, n: nat, c: string)
    requires Ordered(log) && n <= |log|
    ensures FieldsOf(Canon(log, n).db.tables, c) == DefinedFields(log, n, c)
  {
    hide CollectionHistory, Canon;
    CollectionLaw(log, n, c);
  }

  /** The accepted puts of a record since it was last deleted. */
  function Puts(log: Log, n: nat, c: string, r: string): seq<Record>
    requires n <= |log|
  {
    if n == 0 then []
    else if !AcceptedAt(log, n - 1) then Puts(log, n - 1, c, r)
    else if Deletes(Canon(log, n - 1).db.tables, log[n - 1].body.op.command, c, r) then []
    else Puts(log, n - 1, c, r) + PutsOfRecord(log[n - 1].body.op.command, c, r)
  }

  /** The row is there with the version and times these puts give it, or absent when there are none. */
  predicate Dated(row: Option<Row>, puts: seq<Record>) {
    if puts == [] then row == None
    else
      var last := puts[|puts| - 1];
      row.Some? && row.value.version == last.version && row.value.updated == last.updatedAt && row.value.created == puts[0].createdAt
  }

  lemma DatedStep(t: Tables, t1: Tables, command: Command, c: string, r: string, puts: seq<Record>)
    requires Moves(t, t1, command, c, r) && Dated(RowOf(t, c, r), puts)
    ensures Dated(RowOf(t1, c, r), if Deletes(t, command, c, r) then [] else puts + PutsOfRecord(command, c, r))
  {
    hide HoldsAll, FieldsOf, RowOf, Deletes;
    assert puts + [] == puts;
  }

  /** After any log a record is there if and only if it was put since it was last deleted; its version and
      update time are its last accepted put's, its creation time that of the first. */
  lemma {:induction false} RecordLaw(log: Log, n: nat, c: string, r: string)
    requires Ordered(log) && n <= |log|
    ensures Dated(RowOf(Canon(log, n).db.tables, c, r), Puts(log, n, c, r))
  {
    hide Canon, Moves, RowOf, Dated, Deletes, AcceptedAt, PutsOfRecord;
    if n == 0 {
      NoRowAtStart(log, c, r);
    } else {
      RecordLaw(log, n - 1, c, r);
      if AcceptedAt(log, n - 1) {
        AcceptedMoves(log, n - 1, c, r);
        DatedStep(Canon(log, n - 1).db.tables, Canon(log, n).db.tables, log[n - 1].body.op.command, c, r, Puts(log, n - 1, c, r));
      } else {
        NotAcceptedIsNoop(log, n - 1);
      }
    }
  }

  lemma NoRowAtStart(log: Log, c: string, r: string)
    ensures RowOf(Canon(log, 0).db.tables, c, r) == None && Dated(None, [])
  {
  }

  /** The cell of a field by the log alone: the value of the record's last put under the name and kind the
      field had then, kept by definitions that keep the field; NULL for a field defined since. */
  ghost predicate Carries(log: Log, n: nat, c: string, r: string, f: string, cell: Cell)
    requires n <= |log|
  {
    if n == 0 then false
    else if !AcceptedAt(log, n - 1) then Carries(log, n - 1, c, r, f, cell)
    else
      var command := log[n - 1].body.op.command;
      var puts := PutsOfRecord(command, c, r);
      if puts != [] then exists g :: g in DefinedFields(log, n - 1, c) && g.id == f && Holds(g, puts[|puts| - 1].values, cell)
      else if command.CollectionPut? && command.definition.id == c && f !in Ids(DefinedFields(log, n - 1, c)) then cell == Null
      else Carries(log, n - 1, c, r, f, cell)
  }

  /** The cells of a row are what the log carries for them. */
  ghost predicate CarriesAll(log: Log, n: nat, c: string, r: string, row: Option<Row>)
    requires n <= |log|
  {
    row.Some? ==>
      && row.value.cells.Keys == Ids(DefinedFields(log, n, c))
      && forall f :: f in row.value.cells ==> Carries(log, n, c, r, f, row.value.cells[f])
  }

  lemma FieldsStep(log: Log, n: nat, c: string)
    requires n < |log| && AcceptedAt(log, n)
    ensures var command := log[n].body.op.command;
      DropsCollection(Canon(log, n).db.tables, command, c) ||
      DefinedFields(log, n + 1, c) ==
        if command.CollectionPut? && command.definition.id == c then command.definition.fields else DefinedFields(log, n, c)
  {
    hide Canon, AcceptedAt;
  }

  lemma CarriesPut(log: Log, n: nat, c: string, r: string, row: Option<Row>)
    requires n < |log| && AcceptedAt(log, n) && PutsOfRecord(log[n].body.op.command, c, r) != []
    requires var puts := PutsOfRecord(log[n].body.op.command, c, r);
      row.Some? && HoldsAll(DefinedFields(log, n, c), puts[|puts| - 1].values, row.value)
    requires DefinedFields(log, n + 1, c) == DefinedFields(log, n, c)
    ensures CarriesAll(log, n + 1, c, r, row)
  {
    hide Canon, AcceptedAt, CollectionHistory, PutsOfRecord, Holds, DefinedFields;
  }

  lemma CarriesRebuilt(log: Log, n: nat, c: string, r: string, before: Option<Row>, after: Option<Row>)
    requires n < |log| && AcceptedAt(log, n) && CarriesAll(log, n, c, r, before)
    requires log[n].body.op.command.CollectionPut? && log[n].body.op.command.definition.id == c
    requires Rebuilt(DefinedFields(log, n, c), log[n].body.op.command.definition.fields, before, after)
    requires DefinedFields(log, n + 1, c) == log[n].body.op.command.definition.fields
    ensures CarriesAll(log, n + 1, c, r, after)
  {
    hide Canon, AcceptedAt, CollectionHistory, Holds, DefinedFields, Ids;
  }

  lemma CarriesOn(log: Log, n: nat, c: string, r: string, row: Option<Row>)
    requires n < |log| && AcceptedAt(log, n) && CarriesAll(log, n, c, r, row)
    requires var command := log[n].body.op.command; PutsOfRecord(command, c, r) == [] && !(command.CollectionPut? && command.definition.id == c)
    requires DefinedFields(log, n + 1, c) == DefinedFields(log, n, c)
    ensures CarriesAll(log, n + 1, c, r, row)
  {
    hide Canon, AcceptedAt, CollectionHistory, PutsOfRecord, Holds, DefinedFields;
  }

  lemma PutsAreNoDefinitions(command: Command, c: string, r: string)
    ensures PutsOfRecord(command, c, r) != [] ==> command.RecordPut? || command.RecordBatchPut?
    ensures command.CollectionPut? ==> PutsOfRecord(command, c, r) == []
  {
  }

  lemma DroppedIsDeleted(t: Tables, command: Command, c: string, r: string)
    ensures DropsCollection(t, command, c) ==> Deletes(t, command, c, r)
  {
  }

  lemma ValueStep(log: Log, n: nat, c: string, r: string)
    requires Ordered(log) && n < |log| && AcceptedAt(log, n)
    requires CarriesAll(log, n, c, r, RowOf(Canon(log, n).db.tables, c, r))
    ensures CarriesAll(log, n + 1, c, r, RowOf(Canon(log, n + 1).db.tables, c, r))
  {
    AcceptedMoves(log, n, c, r);
    var t, t1, command := Canon(log, n).db.tables, Canon(log, n + 1).db.tables, log[n].body.op.command;
    hide Canon, AcceptedAt, RowOf, FieldsOf, Carries, DefinedFields, HoldsAll, Rebuilt, PutsOfRecord, Deletes, DropsCollection;
    FieldsAreDefined(log, n, c);
    FieldsStep(log, n, c);
    DroppedIsDeleted(t, command, c, r);
    PutsAreNoDefinitions(command, c, r);
    if Deletes(t, command, c, r) {
      hide CarriesAll;
      assert CarriesAll(log, n + 1, c, r, None) by { NoneCarries(log, n + 1, c, r); }
    } else if command.CollectionPut? && command.definition.id == c {
      CarriesRebuilt(log, n, c, r, RowOf(t, c, r), RowOf(t1, c, r));
    } else if PutsOfRecord(command, c, r) != [] {
      CarriesPut(log, n, c, r, RowOf(t1, c, r));
    } else {
      CarriesOn(log, n, c, r, RowOf(t, c, r));
    }
  }

  lemma NoneCarries(log: Log, n: nat, c: string, r: string)
    requires n <= |log|
    ensures CarriesAll(log, n, c, r, None)
  {
  }

  lemma CarriesUnmoved(log: Log, n: nat, c: string, r: string, row: Option<Row>)
    requires n < |log| && !AcceptedAt(log, n) && CarriesAll(log, n, c, r, row)
    ensures CarriesAll(log, n + 1, c, r, row)
  {
    hide Canon, AcceptedAt, Holds;
  }

  /** After any log, through every definition change, each record has exactly the fields of its collection's
      last definition, and each holds the value its last accepted put carried for it. */
  lemma {:induction false} ValueLaw(log: Log, n: nat, c: string, r: string)
    requires Ordered(log) && n <= |log|
    ensures CarriesAll(log, n, c, r, RowOf(Canon(log, n).db.tables, c, r))
  {
    hide Canon, AcceptedAt, RowOf, CarriesAll;
    if n == 0 {
      NoRowAtStart(log, c, r);
      NoneCarries(log, 0, c, r);
    } else {
      ValueLaw(log, n - 1, c, r);
      if AcceptedAt(log, n - 1) {
        ValueStep(log, n - 1, c, r);
      } else {
        NotAcceptedIsNoop(log, n - 1);
        CarriesUnmoved(log, n - 1, c, r, RowOf(Canon(log, n - 1).db.tables, c, r));
      }
    }
  }

  /** No accepted entry from m up to n deletes or puts the record or defines its collection. */
  predicate Quiet(log: Log, m: nat, n: nat, c: string, r: string)
    requires n <= |log|
  {
    forall k | m <= k < n && AcceptedAt(log, k) ::
      var command := log[k].body.op.command;
      && !Deletes(Canon(log, k).db.tables, command, c, r) && PutsOfRecord(command, c, r) == []
      && !(command.CollectionPut? && command.definition.id == c)
  }

  /** In particular, until the collection is defined anew, a record holds exactly the values its last accepted
      put carried. */
  lemma {:induction false} LastPutHolds(log: Log, p: nat, n: nat, c: string, r: string)
    requires Ordered(log) && p < n <= |log| && AcceptedAt(log, p) && Quiet(log, p + 1, n, c, r)
    requires PutsOfRecord(log[p].body.op.command, c, r) != []
    ensures var puts := PutsOfRecord(log[p].body.op.command, c, r); var row := RowOf(Canon(log, n).db.tables, c, r);
      row.Some? && HoldsAll(DefinedFields(log, p, c), puts[|puts| - 1].values, row.value)
    decreases n
  {
    hide Canon, Moves, RowOf, HoldsAll, AcceptedAt, PutsOfRecord, Deletes, DefinedFields;
    if n == p + 1 {
      AcceptedMoves(log, p, c, r);
      FieldsAreDefined(log, p, c);
      PutIsMove(Canon(log, p).db.tables, Canon(log, n).db.tables, log[p].body.op.command, c, r);
    } else {
      LastPutHolds(log, p, n - 1, c, r);
      if AcceptedAt(log, n - 1) {
        AcceptedMoves(log, n - 1, c, r);
        QuietIsNoMove(Canon(log, n - 1).db.tables, Canon(log, n).db.tables, log[n - 1].body.op.command, c, r);
      } else {
        NotAcceptedIsNoop(log, n - 1);
      }
    }
  }

  lemma PutIsMove(t: Tables, t1: Tables, command: Command, c: string, r: string)
    requires Moves(t, t1, command, c, r) && PutsOfRecord(command, c, r) != []
    ensures var puts := PutsOfRecord(command, c, r); RowOf(t1, c, r).Some? && HoldsAll(FieldsOf(t, c), puts[|puts| - 1].values, RowOf(t1, c, r).value)
  {
    hide HoldsAll, FieldsOf, RowOf, PutsIn;
  }

  lemma QuietIsNoMove(t: Tables, t1: Tables, command: Command, c: string, r: string)
    requires Moves(t, t1, command, c, r) && !Deletes(t, command, c, r) && PutsOfRecord(command, c, r) == []
    requires !(command.CollectionPut? && command.definition.id == c)
    ensures RowOf(t1, c, r) == RowOf(t, c, r)
  {
    hide FieldsOf, RowOf, PutsIn, Deletes;
  }

  // ----- idempotency keys -----

  /** The key belongs to the record. */
  predicate Keyed(t: Tables, c: string, r: string, k: string) {
    (c, k) in t.idem && t.idem[(c, k)] == r
  }

  /** Puts give an absent record the key of the first of them. */
  predicate KeyMoves(t: Tables, t1: Tables, c: string, r: string, k: string, puts: seq<Record>) {
    Keyed(t1, c, r, k) <==> Keyed(t, c, r, k) || (RowOf(t, c, r) == None && puts != [] && k != "" && puts[0].idempotencyKey == k)
  }

  lemma PutMovesKey(t: Tables, p: Record, c: string, r: string, k: string)
    requires PutRecord(t, p).Ok?
    ensures KeyMoves(t, PutRecord(t, p).value, c, r, k, PutsIn([p], 1, c, r))
  {
    hide TableFits, Cells;
    assert PutsIn([p], 0, c, r) == [];
  }

  lemma ApplyPutMovesKey(t: Tables, p: Record, op: string, ordinal: Option<nat>, c: string, r: string, k: string)
    requires ApplyRecordPut(t, p, op, ordinal).Ok?
    ensures KeyMoves(t, ApplyRecordPut(t, p, op, ordinal).value, c, r, k, PutsIn([p], 1, c, r))
  {
    hide PutRecord, Emit, PutsIn, RowOf;
    PutMovesKey(t, p, c, r, k);
    EmitKeepsStorage(PutRecord(t, p).value, p, op, ordinal);
  }

  lemma {:induction false} BatchMovesKey(t: Tables, ps: seq<Record>, op: string, n: nat, c: string, r: string, k: string)
    requires Consistent(t) && n <= |ps| && ApplyBatch(t, ps, op, n).Ok?
    ensures KeyMoves(t, ApplyBatch(t, ps, op, n).value, c, r, k, PutsIn(ps, n, c, r))
  {
    hide Consistent, ApplyRecordPut, ApplyBatch, KeyMoves, RowOf, FieldsOf, PutsIn, Stored, Written;
    if n == 0 {
      NothingKeyed(t, ps, op, c, r, k);
    } else {
      LastOfBatch(t, ps, op, n);
      BatchMovesKey(t, ps, op, n - 1, c, r, k);
      BatchIsWritten(t, ps, op, n - 1, c, r);
      var mid, t1 := ApplyBatch(t, ps, op, n - 1).value, ApplyBatch(t, ps, op, n).value;
      ApplyPutMovesKey(mid, ps[n - 1], op, Some(n - 1), c, r, k);
      OnePut(ps, n, c, r);
      KeyMovesMore(t, mid, t1, c, r, k, PutsIn(ps, n - 1, c, r), PutsIn([ps[n - 1]], 1, c, r));
    }
  }

  lemma NothingKeyed(t: Tables, ps: seq<Record>, op: string, c: string, r: string, k: string)
    ensures ApplyBatch(t, ps, op, 0) == Ok(t) && KeyMoves(t, t, c, r, k, PutsIn(ps, 0, c, r))
  {
  }

  lemma KeyMovesMore(t: Tables, mid: Tables, t1: Tables, c: string, r: string, k: string, puts: seq<Record>, more: seq<Record>)
    requires KeyMoves(t, mid, c, r, k, puts) && KeyMoves(mid, t1, c, r, k, more)
    requires Written(FieldsOf(t, c), RowOf(t, c, r), RowOf(mid, c, r), puts)
    ensures KeyMoves(t, t1, c, r, k, puts + more)
  {
    hide Keyed, RowOf, FieldsOf, HoldsAll;
    if puts == [] { assert puts + more == more; }
  }

  lemma DeleteMovesKey(t: Tables, p: Record, op: string, c: string, r: string, k: string)
    requires ApplyRecordDelete(t, p, op, None).Ok?
    ensures var t1 := ApplyRecordDelete(t, p, op, None).value;
      Keyed(t1, c, r, k) <==> Keyed(t, c, r, k) && !(p.collection == c && p.id == r && RowOf(t, c, r).Some?)
  {
    hide Emit;
    EmitKeepsStorage(DeleteRecord(t, p).value, p, op, None);
  }

  /** Everything an operation does to a record's key. */
  predicate MovesKey(t: Tables, t1: Tables, command: Command, c: string, r: string, k: string) {
    if Deletes(t, command, c, r) then Keyed(t1, c, r, k) ==> Keyed(t, c, r, k) && RowOf(t, c, r) == None
    else KeyMoves(t, t1, c, r, k, PutsOfRecord(command, c, r))
  }

  lemma CollectionKeepsKeys(t: Tables, d: Definition)
    requires ApplyCollection(t, d).Ok?
    ensures ApplyCollection(t, d).value.idem == t.idem
  {
    hide Rebuild, Creatable, FieldsInsertable, WholeDefinition;
  }

  lemma DropMovesKey(t: Tables, name: string, c: string, r: string, k: string)
    ensures var t1 := DeleteCollection(t, name);
      Keyed(t1, c, r, k) <==> Keyed(t, c, r, k) && !(name in t.names && t.names[name] == c)
  {
  }

  lemma DefinitionsKeepKeys(t: Tables, op: Operation, c: string, r: string, k: string)
    requires !OnRecords(op.command) && Materialize(t, op).Ok?
    ensures MovesKey(t, Materialize(t, op).value, op.command, c, r, k)
  {
    hide MutateRecords, TransitJobs, ApplyCollection, DeleteCollection, PutWebhook, PutFunction, RowOf, PutsIn;
    match op.command
    case CollectionPut(d) => CollectionKeepsKeys(t, d);
    case CollectionDelete(name) => DropMovesKey(t, name, c, r, k);
    case WebhookPut(x, w) => WebhookLeavesStorage(t, x, w);
    case FunctionPut(x, f) => FunctionLeavesStorage(t, x, f);
    case _ =>
  }

  lemma OperationMovesKey(t: Tables, op: Operation, c: string, r: string, k: string)
    requires Consistent(t) && Materialize(t, op).Ok?
    ensures MovesKey(t, Materialize(t, op).value, op.command, c, r, k)
  {
    hide Consistent, RowOf, Keyed, KeyMoves, ApplyBatch, ApplyRecordPut, ApplyRecordDelete, TransitJobs, Define, PutsIn;
    match op.command
    case RecordPut(p) => ApplyPutMovesKey(t, p, op.id, None, c, r, k);
    case RecordDelete(p) =>
      DeleteMovesKey(t, p, op.id, c, r, k);
      if p.collection != c || p.id != r { KeptKey(t, Materialize(t, op).value, c, r, k); }
    case RecordBatchPut(ps) => BatchMovesKey(t, ps, op.id, |ps|, c, r, k);
    case _ => DefinitionsKeepKeys(t, op, c, r, k);
  }

  lemma KeptKey(t: Tables, t1: Tables, c: string, r: string, k: string)
    requires Keyed(t1, c, r, k) <==> Keyed(t, c, r, k)
    ensures KeyMoves(t, t1, c, r, k, [])
  {
  }

  predicate KeyedBy(puts: seq<Record>, k: string) {
    puts != [] && k != "" && puts[0].idempotencyKey == k
  }

  /** After any log an idempotency key belongs to a record if and only if it is the key of the record's first
      accepted put since it was last deleted; so no two present records were created under one key. */
  lemma {:induction false} IdempotencyLaw(log: Log, n: nat, c: string, r: string, k: string)
    requires Ordered(log) && n <= |log|
    ensures Keyed(Canon(log, n).db.tables, c, r, k) <==> KeyedBy(Puts(log, n, c, r), k)
  {
    hide Canon, AcceptedAt, RowOf, Keyed, MovesKey, Deletes, PutsOfRecord, KeyedBy;
    if n == 0 {
      NoKeyAtStart(log, c, r, k);
    } else {
      IdempotencyLaw(log, n - 1, c, r, k);
      RecordLaw(log, n - 1, c, r);
      if AcceptedAt(log, n - 1) {
        AcceptedMovesKey(log, n - 1, c, r, k);
        KeyStep(Canon(log, n - 1).db.tables, Canon(log, n).db.tables, log[n - 1].body.op.command, c, r, k, Puts(log, n - 1, c, r));
      } else {
        NotAcceptedKeepsKeys(log, n - 1);
      }
    }
  }

  lemma NoKeyAtStart(log: Log, c: string, r: string, k: string)
    ensures !Keyed(Canon(log, 0).db.tables, c, r, k) && !KeyedBy([], k)
  {
  }

  lemma NotAcceptedKeepsKeys(log: Log, n: nat)
    requires Ordered(log) && n < |log| && !AcceptedAt(log, n)
    ensures Canon(log, n + 1).db.tables == Canon(log, n).db.tables
  {
    NotAcceptedIsNoop(log, n);
  }

  lemma AcceptedMovesKey(log: Log, n: nat, c: string, r: string, k: string)
    requires Ordered(log) && n < |log| && AcceptedAt(log, n)
    ensures log[n].body.Committed? && MovesKey(Canon(log, n).db.tables, Canon(log, n + 1).db.tables, log[n].body.op.command, c, r, k)
  {
    hide MovesKey, Materialize, Consistent;
    CanonFacts(log, n);
    CanonConsistent(log, n);
    OperationMovesKey(Canon(log, n).db.tables, log[n].body.op, c, r, k);
  }

  lemma KeyStep(t: Tables, t1: Tables, command: Command, c: string, r: string, k: string, puts: seq<Record>)
    requires MovesKey(t, t1, command, c, r, k) && Dated(RowOf(t, c, r), puts) && (Keyed(t, c, r, k) <==> KeyedBy(puts, k))
    ensures Keyed(t1, c, r, k) <==> KeyedBy(if Deletes(t, command, c, r) then [] else puts + PutsOfRecord(command, c, r), k)
  {
    hide Keyed, RowOf, PutsOfRecord, Deletes;
    if puts == [] { assert puts + PutsOfRecord(command, c, r) == PutsOfRecord(command, c, r); }
  }
}
