/** Physical record tables (internal/collections/physical.go) and the schema change that
    ApplyDefinition makes with them (internal/collections/definition.go).

    A physical column is named after a hash of its field ID; the hash is taken to be injective, so a
    row keys its cells by field ID. */
module Physical {
  import opened Base

  /** A JSON value as a payload carries it; JDoc stands for arrays and objects. */
  datatype Json = JNull | JBool(b: bool) | JNum(n: real) | JStr(s: string) | JDoc(doc: string)

  /** A stored cell; JsonText is the serialised form of a value, Raw one no column accepts. */
  datatype Cell = Null | Flag(b: bool) | Num(n: real) | Txt(s: string) | JsonText(v: Json) | Raw(doc: string)

  datatype Field = Field(id: string, name: string, kind: string, required: bool, unique: bool, default: string)

  datatype Row = Row(version: int, created: Time, updated: Time, cells: map<string, Cell>)

  type Table = map<string, Row>

  const TEXT_KINDS := {"text", "email", "url", "select", "relation", "datetime"}
  const KINDS := TEXT_KINDS + {"json", "number", "boolean"}

  function Ids(fields: seq<Field>): set<string> {
    set f | f in fields :: f.id
  }

  predicate DistinctIds(fields: seq<Field>) {
    forall i, j :: 0 <= i < j < |fields| ==> fields[i].id != fields[j].id
  }

  predicate DistinctNames(fields: seq<Field>) {
    forall i, j :: 0 <= i < j < |fields| ==> fields[i].name != fields[j].name
  }

  /** The column's type and CHECK constraints. An absent JSON value is stored as SQL NULL, never as
      the JSON text null. */
  predicate Accepts(kind: string, c: Cell) {
    match c
    case Null => true
    case Flag(_) => kind == "boolean"
    case Num(_) => kind == "number"
    case Txt(_) => kind in TEXT_KINDS
    case JsonText(v) => kind == "json" && v != JNull
    case Raw(_) => false
  }

  /** Every column constraint on one row: presence, type, NOT NULL. */
  predicate RowFits(fields: seq<Field>, row: Row) {
    forall f :: f in fields ==>
      f.id in row.cells && Accepts(f.kind, row.cells[f.id]) && (f.required ==> row.cells[f.id] != Null)
  }

  /** The UNIQUE constraints; NULLs never collide. */
  predicate UniqueFits(fields: seq<Field>, table: Table) {
    forall f, x, y :: f in fields && f.unique && x in table && y in table && x != y
      && f.id in table[x].cells && f.id in table[y].cells && table[x].cells[f.id] != Null
      ==> table[x].cells[f.id] != table[y].cells[f.id]
  }

  predicate TableFits(fields: seq<Field>, table: Table) {
    && (forall id :: id in table ==> RowFits(fields, table[id]) && table[id].cells.Keys == Ids(fields))
    && UniqueFits(fields, table)
  }

  /** CREATE TABLE succeeds: every column type is known and no column repeats. */
  predicate Creatable(fields: seq<Field>) {
    DistinctIds(fields) && forall f :: f in fields ==> f.kind in KINDS
  }

  /** The row that INSERT INTO next(to…) SELECT from… writes: listed columns are copied, the other
      columns of the new table are NULL. */
  function CopyRow(listed: set<string>, newFields: seq<Field>, row: Row): Row
  {
    row.(cells := map id | id in Ids(newFields) :: if id in listed && id in row.cells then row.cells[id] else Null)
  }

  function CopyTable(listed: set<string>, newFields: seq<Field>, table: Table): Table {
    map id | id in table :: CopyRow(listed, newFields, table[id])
  }

  /** rebuildPhysical: the replacement table, or a failure when a constraint refuses a copied row. */
  function Rebuild(oldFields: seq<Field>, newFields: seq<Field>, table: Table): Result<Table> {
    if !Creatable(newFields) then Err(Broken)
    else
      var next := CopyTable(Ids(oldFields) * Ids(newFields), newFields, table);
      if TableFits(newFields, next) then Ok(next) else Err(Broken)
  }

  datatype Change = ChangeType(name: string) | MakeRequired(name: string) | Remove(name: string)

  /** What one new field reports against the fields it replaces. */
  function FieldChanges(before: map<string, Field>, f: Field): seq<Change> {
    if f.id !in before then []
    else
      (if before[f.id].kind != f.kind then [ChangeType(before[f.id].name)] else [])
      + (if !before[f.id].required && f.required then [MakeRequired(f.name)] else [])
  }

  function ById(fields: seq<Field>): (m: map<string, Field>)
    ensures m.Keys == Ids(fields)
    ensures forall id :: id in m ==> m[id] in fields && m[id].id == id
  {
    if fields == [] then map[]
    else
      var last := fields[|fields| - 1];
      assert fields == fields[..|fields| - 1] + [last];
      ById(fields[..|fields| - 1])[last.id := last]
  }

  function NewChanges(before: map<string, Field>, newFields: seq<Field>): seq<Change> {
    if newFields == [] then []
    else NewChanges(before, newFields[..|newFields| - 1]) + FieldChanges(before, newFields[|newFields| - 1])
  }

  function Removals(oldFields: seq<Field>, seen: set<string>): seq<Change> {
    if oldFields == [] then []
    else
      Removals(oldFields[..|oldFields| - 1], seen)
      + (if oldFields[|oldFields| - 1].id in seen then [] else [Remove(oldFields[|oldFields| - 1].name)])
  }

  function Changes(oldFields: seq<Field>, newFields: seq<Field>): seq<Change> {
    NewChanges(ById(oldFields), newFields) + Removals(oldFields, Ids(oldFields) * Ids(newFields))
  }

  lemma TakeOneMore(fields: seq<Field>, i: nat)
    requires i < |fields|
    ensures fields[..i + 1] == fields[..i] + [fields[i]]
    ensures fields[..i + 1][..i] == fields[..i]
    ensures Ids(fields[..i + 1]) == Ids(fields[..i]) + {fields[i].id}
  {
  }

  /** destructiveChanges, with its two maps updated entry by entry. */
  method DestructiveChanges(oldFields: seq<Field>, newFields: seq<Field>) returns (changes: seq<Change>)
    ensures changes == Changes(oldFields, newFields)
  {
    var before: map<string, Field> := map[];
    for i := 0 to |oldFields|
      invariant before == ById(oldFields[..i])
    {
      TakeOneMore(oldFields, i);
      before := before[oldFields[i].id := oldFields[i]];
    }
    assert oldFields[..|oldFields|] == oldFields;
    var seen: set<string> := {};
    changes := [];
    for i := 0 to |newFields|
      invariant changes == NewChanges(before, newFields[..i])
      invariant seen == before.Keys * Ids(newFields[..i])
    {
      TakeOneMore(newFields, i);
      var f := newFields[i];
      if f.id in before {
        seen := seen + {f.id};
        changes := changes + FieldChanges(before, f);
      }
    }
    assert newFields[..|newFields|] == newFields;
    var removed := MissingFields(oldFields, seen);
    changes := changes + removed;
  }

  lemma RemovalsOneMore(fields: seq<Field>, i: nat, seen: set<string>)
    requires i < |fields|
    ensures fields[i].id in seen ==> Removals(fields[..i + 1], seen) == Removals(fields[..i], seen)
    ensures fields[i].id !in seen ==>
      Removals(fields[..i + 1], seen) == Removals(fields[..i], seen) + [Remove(fields[i].name)]
  {
    TakeOneMore(fields, i);
    var upTo := fields[..i + 1];
    assert upTo[|upTo| - 1] == fields[i];
    assert upTo[..|upTo| - 1] == fields[..i];
  }

  /** The second loop of destructiveChanges: the fields not seen in the new definition. */
  method MissingFields(oldFields: seq<Field>, seen: set<string>) returns (removed: seq<Change>)
    ensures removed == Removals(oldFields, seen)
  {
    removed := [];
    for i := 0 to |oldFields|
      invariant removed == Removals(oldFields[..i], seen)
    {
      RemovalsOneMore(oldFields, i, seen);
      if oldFields[i].id !in seen {
        removed := removed + [Remove(oldFields[i].name)];
      }
    }
    assert oldFields[..|oldFields|] == oldFields;
  }

  function Elements(s: seq<string>): set<string> {
    set x | x in s
  }

  /** The column list of the copy statement, built field by field. */
  method CopiedColumns(oldFields: seq<Field>, newFields: seq<Field>) returns (columns: seq<string>)
    ensures Elements(columns) == Ids(oldFields) * Ids(newFields)
    ensures DistinctIds(newFields) ==> forall i, j :: 0 <= i < j < |columns| ==> columns[i] != columns[j]
  {
    var before: set<string> := {};
    for i := 0 to |oldFields|
      invariant before == Ids(oldFields[..i])
    {
      TakeOneMore(oldFields, i);
      before := before + {oldFields[i].id};
    }
    assert oldFields[..|oldFields|] == oldFields;
    columns := [];
    for i := 0 to |newFields|
      invariant Elements(columns) == before * Ids(newFields[..i])
      invariant DistinctIds(newFields) ==> forall a, b :: 0 <= a < b < |columns| ==> columns[a] != columns[b]
    {
      TakeOneMore(newFields, i);
      var id := newFields[i].id;
      if id in before {
        assert Elements(columns + [id]) == Elements(columns) + {id};
        if DistinctIds(newFields) {
          assert id !in Ids(newFields[..i]);
          assert id !in Elements(columns);
        }
        columns := columns + [id];
      }
    }
    assert newFields[..|newFields|] == newFields;
  }

  /** rebuildPhysical over a table it replaces: the copy reads only the listed columns. */
  method RebuildPhysical(oldFields: seq<Field>, newFields: seq<Field>, table: Table) returns (r: Result<Table>)
    ensures r == Rebuild(oldFields, newFields, table)
  {
    for i := 0 to |newFields|
      invariant forall j :: 0 <= j < i ==> newFields[j].kind in KINDS
    {
      if newFields[i].kind !in KINDS { return Err(Broken); }
    }
    if !DistinctIds(newFields) { return Err(Broken); }
    var columns := CopiedColumns(oldFields, newFields);
    var next := CopyTable(Elements(columns), newFields, table);
    if !TableFits(newFields, next) { return Err(Broken); }
    return Ok(next);
  }

  // ----- what a rebuild keeps, and what the classifier reports -----

  /** A successful rebuild keeps each record's id, version and timestamps, keeps the value of every
      field present before and after, leaves the other new columns empty, and has exactly the columns
      of the new definition. */
  lemma RebuildKeepsRetained(oldFields: seq<Field>, newFields: seq<Field>, table: Table)
    requires TableFits(oldFields, table)
    requires Rebuild(oldFields, newFields, table).Ok?
    ensures var next := Rebuild(oldFields, newFields, table).value;
      && next.Keys == table.Keys
      && TableFits(newFields, next)
      && forall id :: id in table ==>
        && next[id].version == table[id].version
        && next[id].created == table[id].created
        && next[id].updated == table[id].updated
        && next[id].cells.Keys == Ids(newFields)
        && (forall f :: f in Ids(oldFields) * Ids(newFields) ==> next[id].cells[f] == table[id].cells[f])
        && (forall f :: f in Ids(newFields) - Ids(oldFields) ==> next[id].cells[f] == Null)
  {
  }

  lemma {:induction false} RemovalsExact(fields: seq<Field>, seen: set<string>, name: string)
    ensures Remove(name) in Removals(fields, seen) <==> exists f :: f in fields && f.name == name && f.id !in seen
    ensures forall c :: c in Removals(fields, seen) ==> c.Remove?
  {
    if fields != [] {
      var last := fields[|fields| - 1];
      assert fields == fields[..|fields| - 1] + [last];
      RemovalsExact(fields[..|fields| - 1], seen, name);
    }
  }

  lemma {:induction false} NewChangesExact(before: map<string, Field>, fields: seq<Field>)
    ensures NewChanges(before, fields) == [] <==>
      forall f :: f in fields && f.id in before ==> before[f.id].kind == f.kind && (f.required ==> before[f.id].required)
    ensures forall c :: c in NewChanges(before, fields) ==> !c.Remove?
  {
    if fields != [] {
      var last := fields[|fields| - 1];
      assert fields == fields[..|fields| - 1] + [last];
      NewChangesExact(before, fields[..|fields| - 1]);
    }
  }

  /** The columns a rebuild drops are exactly those the classifier reports as removed. */
  lemma DroppedIffReported(oldFields: seq<Field>, newFields: seq<Field>, f: Field)
    requires f in oldFields && DistinctNames(oldFields) && DistinctIds(oldFields)
    ensures f.id !in Ids(newFields) <==> Remove(f.name) in Changes(oldFields, newFields)
  {
    var seen := Ids(oldFields) * Ids(newFields);
    RemovalsExact(oldFields, seen, f.name);
    NewChangesExact(ById(oldFields), newFields);
    forall g | g in oldFields && g.name == f.name
      ensures g == f
    {
      var i :| 0 <= i < |oldFields| && oldFields[i] == f;
      var j :| 0 <= j < |oldFields| && oldFields[j] == g;
      assert i == j;
    }
    assert f.id in Ids(oldFields);
  }

  /** The classifier is silent exactly when every old field survives with its type and none of the
      survivors becomes required. */
  lemma SilentIffCompatible(oldFields: seq<Field>, newFields: seq<Field>)
    requires DistinctIds(oldFields)
    ensures Changes(oldFields, newFields) == [] <==>
      && Ids(oldFields) <= Ids(newFields)
      && forall f, g :: f in oldFields && g in newFields && f.id == g.id ==> f.kind == g.kind && (g.required ==> f.required)
  {
    var before := ById(oldFields);
    NewChangesExact(before, newFields);
    forall f | f in oldFields
      ensures before[f.id] == f
    {
      var g := before[f.id];
      var i :| 0 <= i < |oldFields| && oldFields[i] == f;
      var j :| 0 <= j < |oldFields| && oldFields[j] == g;
      assert i == j;
    }
    var seen := Ids(oldFields) * Ids(newFields);
    var removed := Removals(oldFields, seen);
    if removed != [] {
      RemovalsExact(oldFields, seen, removed[0].name);
      assert removed[0] in removed;
      var f :| f in oldFields && f.id !in seen;
      assert f.id in Ids(oldFields);
    } else {
      forall f | f in oldFields
        ensures f.id in Ids(newFields)
      {
        RemovalsExact(oldFields, seen, f.name);
        assert Remove(f.name) !in removed;
      }
    }
  }

  lemma {:induction false} NewChangesNamed(before: map<string, Field>, fields: seq<Field>, name: string)
    ensures ChangeType(name) in NewChanges(before, fields) <==>
      exists g :: g in fields && g.id in before && before[g.id].kind != g.kind && before[g.id].name == name
    ensures MakeRequired(name) in NewChanges(before, fields) <==>
      exists g :: g in fields && g.id in before && !before[g.id].required && g.required && g.name == name
  {
    if fields != [] {
      var last := fields[|fields| - 1];
      assert fields == fields[..|fields| - 1] + [last];
      NewChangesNamed(before, fields[..|fields| - 1], name);
    }
  }

  lemma StoredById(fields: seq<Field>)
    requires DistinctIds(fields)
    ensures forall f :: f in fields ==> ById(fields)[f.id] == f
  {
    forall f | f in fields
      ensures ById(fields)[f.id] == f
    {
      assert f.id in Ids(fields);
      var g := ById(fields)[f.id];
      var i :| 0 <= i < |fields| && fields[i] == f;
      var j :| 0 <= j < |fields| && fields[j] == g;
      assert i == j;
    }
  }

  /** Exactly what the classifier reports: a type change under the old name, a requirement under the new one, and
      a removal under the old one. */
  lemma ChangesExactly(oldFields: seq<Field>, newFields: seq<Field>, name: string)
    requires DistinctIds(oldFields)
    ensures ChangeType(name) in Changes(oldFields, newFields) <==>
      exists f, g :: f in oldFields && g in newFields && f.id == g.id && f.kind != g.kind && f.name == name
    ensures MakeRequired(name) in Changes(oldFields, newFields) <==>
      exists f, g :: f in oldFields && g in newFields && f.id == g.id && !f.required && g.required && g.name == name
    ensures Remove(name) in Changes(oldFields, newFields) <==>
      exists f :: f in oldFields && f.id !in Ids(newFields) && f.name == name
  {
    var before := ById(oldFields);
    StoredById(oldFields);
    NewChangesNamed(before, newFields, name);
    NewChangesExact(before, newFields);
    RemovalsExact(oldFields, Ids(oldFields) * Ids(newFields), name);
    hide ById, NewChanges, Removals;
    forall g | g in newFields
      ensures g.id in before <==> exists f :: f in oldFields && f.id == g.id
    {
      if f :| f in oldFields && f.id == g.id { assert f.id in Ids(oldFields); }
    }
    forall f | f in oldFields
      ensures f.id in Ids(oldFields)
    {
    }
  }

  /** What a rebuild carries over for a field: the record's value when the field was there before. */
  function Carried(oldFields: seq<Field>, row: Row, f: Field): Cell {
    if f.id in Ids(oldFields) && f.id in row.cells then row.cells[f.id] else Null
  }

  /** A column takes a value: NULL unless the field is required, else a value of its type. */
  predicate Fitting(f: Field, c: Cell) {
    if c == Null then !f.required
    else if f.kind == "boolean" then c.Flag?
    else if f.kind == "number" then c.Num?
    else if f.kind == "json" then c.JsonText? && c.v != JNull
    else f.kind in TEXT_KINDS && c.Txt?
  }

  lemma CopiedCell(oldFields: seq<Field>, newFields: seq<Field>, row: Row, f: Field)
    requires f in newFields
    ensures var copy := CopyRow(Ids(oldFields) * Ids(newFields), newFields, row);
      f.id in copy.cells && copy.cells[f.id] == Carried(oldFields, row, f)
  {
    assert f.id in Ids(newFields);
    hide Ids;
  }

  lemma FittingIsFits(f: Field, c: Cell)
    ensures f.kind in KINDS ==> (Fitting(f, c) <==> Accepts(f.kind, c) && (f.required ==> c != Null))
  {
  }

  lemma CopiedRowFits(oldFields: seq<Field>, newFields: seq<Field>, row: Row)
    requires forall f :: f in newFields ==> f.kind in KINDS
    ensures RowFits(newFields, CopyRow(Ids(oldFields) * Ids(newFields), newFields, row)) <==>
      forall f :: f in newFields ==> Fitting(f, Carried(oldFields, row, f))
  {
    hide KINDS, Fitting, Carried, CopyRow, Accepts;
    var copy := CopyRow(Ids(oldFields) * Ids(newFields), newFields, row);
    forall f | f in newFields
      ensures f.id in copy.cells && copy.cells[f.id] == Carried(oldFields, row, f)
      ensures Fitting(f, Carried(oldFields, row, f)) <==> Accepts(f.kind, copy.cells[f.id]) && (f.required ==> copy.cells[f.id] != Null)
    {
      CopiedCell(oldFields, newFields, row, f);
      FittingIsFits(f, copy.cells[f.id]);
    }
  }

  /** No two records carry the same value into a unique field. */
  predicate CarriedApart(oldFields: seq<Field>, newFields: seq<Field>, table: Table) {
    forall f, x, y :: f in newFields && f.unique && x in table && y in table && x != y && Carried(oldFields, table[x], f) != Null ==>
      Carried(oldFields, table[x], f) != Carried(oldFields, table[y], f)
  }

  lemma CopiedUnique(oldFields: seq<Field>, newFields: seq<Field>, table: Table)
    ensures UniqueFits(newFields, CopyTable(Ids(oldFields) * Ids(newFields), newFields, table)) <==> CarriedApart(oldFields, newFields, table)
  {
    hide Carried, CopyRow;
    var copy := CopyTable(Ids(oldFields) * Ids(newFields), newFields, table);
    forall f, x | f in newFields && x in table
      ensures x in copy && f.id in copy[x].cells && copy[x].cells[f.id] == Carried(oldFields, table[x], f)
    {
      CopiedCell(oldFields, newFields, table[x], f);
    }
    assert copy.Keys == table.Keys;
  }

  lemma CopiedKeys(listed: set<string>, newFields: seq<Field>, table: Table)
    ensures CopyTable(listed, newFields, table).Keys == table.Keys
    ensures forall x :: x in table ==>
      CopyTable(listed, newFields, table)[x] == CopyRow(listed, newFields, table[x]) && CopyRow(listed, newFields, table[x]).cells.Keys == Ids(newFields)
  {
    hide Ids;
  }

  /** A rebuild succeeds if and only if the new fields have distinct IDs and known types, and what every record
      carries over is taken by its column and apart in unique ones. */
  lemma RebuildExactly(oldFields: seq<Field>, newFields: seq<Field>, table: Table)
    ensures Rebuild(oldFields, newFields, table).Ok? <==>
      && DistinctIds(newFields) && (forall f :: f in newFields ==> f.kind in KINDS)
      && (forall r, f :: r in table && f in newFields ==> Fitting(f, Carried(oldFields, table[r], f)))
      && CarriedApart(oldFields, newFields, table)
  {
    hide KINDS, Fitting, Carried, CopyRow, CopyTable, Ids, DistinctIds, RowFits, UniqueFits, CarriedApart;
    if forall f :: f in newFields ==> f.kind in KINDS {
      CopiedKeys(Ids(oldFields) * Ids(newFields), newFields, table);
      CopiedUnique(oldFields, newFields, table);
      forall r | r in table
        ensures RowFits(newFields, CopyRow(Ids(oldFields) * Ids(newFields), newFields, table[r])) <==>
          forall f :: f in newFields ==> Fitting(f, Carried(oldFields, table[r], f))
      {
        CopiedRowFits(oldFields, newFields, table[r]);
      }
    }
  }
}
