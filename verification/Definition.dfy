/** Applying a collection definition to a stored collection (internal/collections/definition.go). */
module Definition {
  import opened Base
  import opened Physical

  /** One collection as stored: its fields in position order and its physical table. */
  datatype Stored = Stored(fields: seq<Field>, rows: Table)

  predicate ValidName(s: string) {
    && 1 <= |s| <= 63
    && 'a' <= s[0] <= 'z'
    && forall i :: 0 <= i < |s| ==> 'a' <= s[i] <= 'z' || '0' <= s[i] <= '9' || s[i] == '_'
  }

  /** validate, except the JSON default values. */
  predicate ValidFields(fields: seq<Field>) {
    && DistinctNames(fields)
    && forall f :: f in fields ==> ValidName(f.name) && f.kind in KINDS
  }

  predicate WellStored(s: Stored) {
    && DistinctIds(s.fields) && DistinctNames(s.fields)
    && (forall f :: f in s.fields ==> f.id != "")
    && TableFits(s.fields, s.rows)
  }

  /** The name to ID map read back from the stored fields. */
  function IdsByName(fields: seq<Field>): map<string, string>
    requires DistinctNames(fields)
  {
    map i | 0 <= i < |fields| :: fields[i].name := fields[i].id
  }

  /** One step of resolveFieldIDs followed by the re-identification loop: an ID already stored stays,
      a known name takes the stored ID, anything else gets a fresh ID. */
  function ResolveOne(f: Field, existing: map<string, string>, minted: string): Field {
    if f.id in existing.Values then f
    else if f.name in existing && existing[f.name] != "" then f.(id := existing[f.name])
    else f.(id := minted)
  }

  function Resolve(fields: seq<Field>, existing: map<string, string>, minted: seq<string>): (r: seq<Field>)
    requires |minted| == |fields|
    ensures |r| == |fields|
  {
    seq(|fields|, i requires 0 <= i < |fields| => ResolveOne(fields[i], existing, minted[i]))
  }

  /** Both loops, assigning field IDs in place. The second pass replaces each generated ID once more. */
  method ResolveFieldIDs(fields: array<Field>, existing: map<string, string>, minted: seq<string>, again: seq<string>)
    requires |minted| == |again| == fields.Length
    requires forall i :: 0 <= i < |minted| ==> minted[i] != "" && minted[i] !in existing.Values
    modifies fields
    ensures fields[..] == Resolve(old(fields[..]), existing, again)
  {
    for i := 0 to fields.Length
      invariant forall j :: 0 <= j < i ==> fields[j] == ResolveOne(old(fields[j]), existing, minted[j])
      invariant forall j :: i <= j < fields.Length ==> fields[j] == old(fields[j])
    {
      if fields[i].id !in existing.Values {
        if fields[i].name in existing && existing[fields[i].name] != "" {
          fields[i] := fields[i].(id := existing[fields[i].name]);
        } else {
          fields[i] := fields[i].(id := minted[i]);
        }
      }
    }
    for i := 0 to fields.Length
      invariant forall j :: 0 <= j < i ==> fields[j] == ResolveOne(old(fields[j]), existing, again[j])
      invariant forall j :: i <= j < fields.Length ==> fields[j] == ResolveOne(old(fields[j]), existing, minted[j])
    {
      var f := fields[i];
      if f.id != "" && f.id !in existing.Values && (f.name !in existing || existing[f.name] == "") {
        fields[i] := f.(id := again[i]);
      }
    }
  }

  /** The primary key of the field table and the UNIQUE(collection, name) constraint. */
  predicate Insertable(fields: seq<Field>, taken: set<string>) {
    DistinctIds(fields) && DistinctNames(fields) && Ids(fields) !! taken
  }

  /** ApplyDefinition on an existing collection. `read` are the fields LoadDefinition found before the
      transaction, `s` is what the transaction meets, `taken` are the field IDs of other collections and
      `minted` the generated IDs. Copying a column that is gone fails. */
  function ApplyDefinition(read: seq<Field>, s: Stored, fields: seq<Field>, taken: set<string>, minted: seq<string>): Result<Stored>
    requires DistinctNames(s.fields)
    requires |minted| == |fields|
  {
    if !ValidFields(fields) then Err(Broken)
    else if Changes(read, fields) != [] then Err(Broken)
    else
      var resolved := Resolve(fields, IdsByName(s.fields), minted);
      if !Insertable(resolved, taken) then Err(Broken)
      else if !(Ids(read) * Ids(resolved) <= Ids(s.fields)) then Err(Broken)
      else
        var rows :- Rebuild(read, resolved, s.rows);
        Ok(Stored(resolved, rows))
  }

  /** ApplyReplicatedDefinition on an existing collection: IDs are taken from the definition and the
      change classifier is not consulted. */
  function ApplyReplicatedDefinition(s: Stored, fields: seq<Field>, taken: set<string>): Result<Stored> {
    if !ValidFields(fields) then Err(Broken)
    else if exists f :: f in fields && f.id == "" then Err(Broken)
    else if !Insertable(fields, taken) then Err(Broken)
    else
      var rows :- Rebuild(s.fields, fields, s.rows);
      Ok(Stored(fields, rows))
  }

  lemma IdsByNameValues(fields: seq<Field>)
    requires DistinctNames(fields)
    ensures IdsByName(fields).Values == Ids(fields)
  {
    var m := IdsByName(fields);
    forall id
      ensures id in m.Values <==> id in Ids(fields)
    {
      if id in Ids(fields) {
        var i :| 0 <= i < |fields| && fields[i].id == id;
        assert fields[i].name in m && m[fields[i].name] == id;
      }
    }
  }

  /** A stored value sits under its field ID after the change too. */
  predicate Kept(s: Stored, next: Stored, id: string, f: string)
    requires id in s.rows && id in next.rows && f in s.rows[id].cells
  {
    f in next.rows[id].cells && next.rows[id].cells[f] == s.rows[id].cells[f]
  }

  /** A field read before the transaction and still stored keeps its ID, and its type as it was read. */
  lemma ReadFieldStays(read: seq<Field>, s: Stored, fields: seq<Field>, taken: set<string>, minted: seq<string>, f: Field)
    requires WellStored(s) && DistinctIds(read) && |minted| == |fields|
    requires ApplyDefinition(read, s, fields, taken, minted).Ok?
    requires f in read && f.id in Ids(s.fields)
    ensures var next := ApplyDefinition(read, s, fields, taken, minted).value;
      f.id in Ids(next.fields) && forall g :: g in next.fields && f.id == g.id ==> f.kind == g.kind
  {
    hide TableFits, Rebuild;
    IdsByNameValues(s.fields);
    SilentIffCompatible(read, fields);
    var next := ApplyDefinition(read, s, fields, taken, minted).value;
    assert f.id in Ids(fields);
    var i :| 0 <= i < |fields| && fields[i].id == f.id;
    assert fields[i] in fields;
    assert next.fields[i] == fields[i];
    assert next.fields[i] in next.fields;
    forall g | g in next.fields && f.id == g.id
      ensures g == fields[i]
    {
      var j :| 0 <= j < |next.fields| && next.fields[j] == g;
      assert i == j;
    }
  }

  /** An accepted definition keeps every record with its version and timestamps, and it keeps a value if
      and only if its field was read before the transaction, or it is null and its field is in the
      definition. */
  lemma AcceptedDefinitionKeepsExactly(read: seq<Field>, s: Stored, fields: seq<Field>, taken: set<string>, minted: seq<string>, id: string, f: string)
    requires WellStored(s) && DistinctIds(read) && |minted| == |fields|
    requires ApplyDefinition(read, s, fields, taken, minted).Ok?
    requires id in s.rows && f in Ids(s.fields)
    ensures var next := ApplyDefinition(read, s, fields, taken, minted).value;
      && next.rows.Keys == s.rows.Keys && TableFits(next.fields, next.rows)
      && next.rows[id] == s.rows[id].(cells := next.rows[id].cells)
      && (Kept(s, next, id, f) <==> f in Ids(read) || (f in Ids(next.fields) && s.rows[id].cells[f] == Null))
  {
    RebuiltWith(read, s, fields, taken, minted);
    hide ApplyDefinition, TableFits, Rebuild, CopyTable, DistinctIds, DistinctNames;
    var next := ApplyDefinition(read, s, fields, taken, minted).value;
    RecordsStay(read, s, fields, taken, minted);
    CopiedExactly(read, next.fields, s.rows, id, f);
    if f in Ids(read) {
      var g :| g in read && g.id == f;
      ReadFieldStays(read, s, fields, taken, minted, g);
    }
  }

  lemma RebuiltWith(read: seq<Field>, s: Stored, fields: seq<Field>, taken: set<string>, minted: seq<string>)
    requires DistinctNames(s.fields) && |minted| == |fields|
    requires ApplyDefinition(read, s, fields, taken, minted).Ok?
    ensures var next := ApplyDefinition(read, s, fields, taken, minted).value; Rebuild(read, next.fields, s.rows) == Ok(next.rows)
  {
    hide Rebuild, ValidFields, Insertable;
  }

  /** What a rebuild from the fields read copies, whatever the columns of the table are. */
  lemma CopiedExactly(read: seq<Field>, fields: seq<Field>, table: Table, id: string, f: string)
    requires Rebuild(read, fields, table).Ok? && id in table && f in table[id].cells
    ensures var next := Rebuild(read, fields, table).value;
      && next.Keys == table.Keys && TableFits(fields, next)
      && next[id] == table[id].(cells := next[id].cells)
      && (f in next[id].cells && next[id].cells[f] == table[id].cells[f] <==>
          f in Ids(fields) && (f in Ids(read) || table[id].cells[f] == Null))
  {
    hide TableFits, Creatable, Ids;
  }

  /** So nothing is lost if and only if every field that holds a value was read before the transaction and
      the others are in the definition; in particular when no field was added in between. */
  lemma AcceptedDefinitionLosesNothingIff(read: seq<Field>, s: Stored, fields: seq<Field>, taken: set<string>, minted: seq<string>)
    requires WellStored(s) && DistinctIds(read) && |minted| == |fields|
    requires ApplyDefinition(read, s, fields, taken, minted).Ok?
    ensures var next := ApplyDefinition(read, s, fields, taken, minted).value;
      && next.rows.Keys == s.rows.Keys
      && ((forall id, f :: id in s.rows && f in Ids(s.fields) ==> Kept(s, next, id, f)) <==>
          (forall id, f :: id in s.rows && f in Ids(s.fields) - Ids(read) ==> f in Ids(next.fields) && s.rows[id].cells[f] == Null))
  {
    hide ApplyDefinition, TableFits, Ids, DistinctIds;
    var next := ApplyDefinition(read, s, fields, taken, minted).value;
    RecordsStay(read, s, fields, taken, minted);
    forall id, f | id in s.rows && f in Ids(s.fields)
      ensures Kept(s, next, id, f) <==> f in Ids(read) || (f in Ids(next.fields) && s.rows[id].cells[f] == Null)
    {
      AcceptedDefinitionKeepsExactly(read, s, fields, taken, minted, id, f);
    }
  }

  lemma RecordsStay(read: seq<Field>, s: Stored, fields: seq<Field>, taken: set<string>, minted: seq<string>)
    requires WellStored(s) && |minted| == |fields|
    requires ApplyDefinition(read, s, fields, taken, minted).Ok?
    ensures ApplyDefinition(read, s, fields, taken, minted).value.rows.Keys == s.rows.Keys
    ensures forall id :: id in s.rows ==> s.rows[id].cells.Keys == Ids(s.fields)
  {
  }

  /** A definition accepted with nothing in between loses no stored value: every record survives with its
      version and timestamps, and every value it held sits under the same field ID with the same type. */
  lemma AcceptedDefinitionLosesNothing(s: Stored, fields: seq<Field>, taken: set<string>, minted: seq<string>)
    requires WellStored(s) && |minted| == |fields|
    requires ApplyDefinition(s.fields, s, fields, taken, minted).Ok?
    ensures var next := ApplyDefinition(s.fields, s, fields, taken, minted).value;
      && next.rows.Keys == s.rows.Keys
      && (forall f, g :: f in s.fields && g in next.fields && f.id == g.id ==> f.kind == g.kind)
      && forall id, f :: id in s.rows && f in Ids(s.fields) ==>
        Kept(s, next, id, f) && next.rows[id] == s.rows[id].(cells := next.rows[id].cells)
  {
    hide ApplyDefinition, TableFits, Rebuild;
    var next := ApplyDefinition(s.fields, s, fields, taken, minted).value;
    RecordsStay(s.fields, s, fields, taken, minted);
    forall f | f in s.fields
      ensures forall g :: g in next.fields && f.id == g.id ==> f.kind == g.kind
    {
      assert f.id in Ids(s.fields);
      ReadFieldStays(s.fields, s, fields, taken, minted, f);
    }
    forall id, f | id in s.rows && f in Ids(s.fields)
      ensures Kept(s, next, id, f) && next.rows[id] == s.rows[id].(cells := next.rows[id].cells)
    {
      AcceptedDefinitionKeepsExactly(s.fields, s, fields, taken, minted, id, f);
    }
  }

  /** A field added between the reading and the transaction is dropped with its values, although the
      classifier reports nothing. */
  lemma FieldAddedMeanwhileIsLost(a: Field, b: Field, row: Row, id: string)
    requires a.id != "" && b.id != "" && a.id != b.id && a.name != b.name && ValidName(a.name) && a.kind in KINDS
    requires row.cells.Keys == {a.id, b.id} && row.cells[b.id] != Null && TableFits([a, b], map[id := row])
    ensures var s := Stored([a, b], map[id := row]);
      var r := ApplyDefinition([a], s, [a], {}, [""]);
      WellStored(s) && r.Ok? && !Kept(s, r.value, id, b.id)
  {
    hide TableFits, KINDS, Changes, Resolve, IdsByName, Rebuild, CopyTable, Ids, DistinctIds, DistinctNames, ValidFields, WellStored, Insertable;
    var s := Stored([a, b], map[id := row]);
    TwoFields(a, b);
    BothStored(a, b, row, id);
    SameFieldRebuilds(a, b, row, id);
    OneFieldIsFine(a);
    assert Ids([a]) * Ids([a]) <= Ids([a, b]);
    assert s.rows[id] == row;
  }

  lemma BothStored(a: Field, b: Field, row: Row, id: string)
    requires a.id != "" && b.id != "" && a.id != b.id && a.name != b.name && TableFits([a, b], map[id := row])
    ensures WellStored(Stored([a, b], map[id := row]))
  {
    hide TableFits;
  }

  lemma OneFieldIsFine(a: Field)
    requires ValidName(a.name) && a.kind in KINDS
    ensures ValidFields([a]) && Insertable([a], {})
  {
  }

  lemma TwoFields(a: Field, b: Field)
    requires a.id != "" && a.id != b.id && a.name != b.name
    ensures Ids([a]) == {a.id} && Ids([a, b]) == {a.id, b.id}
    ensures DistinctIds([a]) && DistinctNames([a]) && DistinctIds([a, b]) && DistinctNames([a, b])
    ensures Changes([a], [a]) == []
    ensures Resolve([a], IdsByName([a, b]), [""]) == [a]
  {
    assert a in [a] && a in [a, b] && b in [a, b];
    SilentIffCompatible([a], [a]);
    ResolvesToItself(a, b);
  }

  lemma ResolvesToItself(a: Field, b: Field)
    requires a.name != b.name
    ensures Resolve([a], IdsByName([a, b]), [""]) == [a]
  {
    assert [a, b][0] == a && IdsByName([a, b])[a.name] == a.id;
  }

  lemma SameFieldRebuilds(a: Field, b: Field, row: Row, id: string)
    requires a.kind in KINDS && a.id != b.id && row.cells.Keys == {a.id, b.id} && TableFits([a, b], map[id := row])
    ensures Rebuild([a], [a], map[id := row]) == Ok(CopyTable({a.id}, [a], map[id := row]))
    ensures var next := CopyTable({a.id}, [a], map[id := row]); id in next && b.id !in next[id].cells
  {
    hide KINDS;
    assert Ids([a]) == {a.id} by { assert a in [a]; }
    assert Ids([a]) * Ids([a]) == {a.id};
    OneColumnFits(a, b, row, id);
  }

  lemma OneColumnFits(a: Field, b: Field, row: Row, id: string)
    requires a.id in row.cells && TableFits([a, b], map[id := row])
    ensures TableFits([a], CopyTable({a.id}, [a], map[id := row]))
  {
    assert map[id := row][id] == row;
    assert a in [a, b] && RowFits([a, b], row);
  }

  /** The replicated path keeps a value exactly when its field ID is in the definition: a definition
      without the field drops the column. */
  lemma ReplicatedDefinitionKeepsExactly(s: Stored, fields: seq<Field>, taken: set<string>, id: string, f: string)
    requires WellStored(s) && id in s.rows && f in Ids(s.fields)
    requires ApplyReplicatedDefinition(s, fields, taken).Ok?
    ensures var rows := ApplyReplicatedDefinition(s, fields, taken).value.rows;
      && rows.Keys == s.rows.Keys
      && (f in rows[id].cells && rows[id].cells[f] == s.rows[id].cells[f] <==> f in Ids(fields))
  {
    RebuildKeepsRetained(s.fields, fields, s.rows);
  }

  // ----- which definitions are accepted -----

  /** A field name: a lower-case letter, then letters, digits and underscores, at most 63 in all. */
  predicate Named(s: string) {
    s != "" && |s| < 64 && s[0] in LETTERS && forall i :: 0 < i < |s| ==> s[i] in LETTERS || s[i] in DIGITS || s[i] == '_'
  }

  const LETTERS: set<char> := {
    'a', 'b', 'c', 'd', 'e', 'f', 'g', 'h', 'i', 'j', 'k', 'l', 'm', 'n', 'o', 'p', 'q', 'r', 's', 't', 'u', 'v', 'w', 'x', 'y', 'z'
  }
  const DIGITS: set<char> := {'0', '1', '2', '3', '4', '5', '6', '7', '8', '9'}

  /** No two alike, each well named and of a known type. */
  predicate Wellformed(fields: seq<Field>) {
    && (forall i :: 0 <= i < |fields| ==> Named(fields[i].name) && fields[i].kind in KINDS)
    && forall i, j :: 0 <= i < |fields| && 0 <= j < |fields| && fields[i].name == fields[j].name ==> i == j
  }

  lemma LettersAre(c: char)
    ensures c in LETTERS <==> 'a' <= c <= 'z'
    ensures c in DIGITS <==> '0' <= c <= '9'
  {
  }

  lemma NamesAre(s: string)
    ensures ValidName(s) <==> Named(s)
  {
    hide LETTERS, DIGITS;
    forall i | 0 <= i < |s|
      ensures s[i] in LETTERS <==> 'a' <= s[i] <= 'z'
      ensures s[i] in DIGITS <==> '0' <= s[i] <= '9'
    {
      LettersAre(s[i]);
    }
  }

  lemma ValidExactly(fields: seq<Field>)
    ensures ValidFields(fields) <==> Wellformed(fields)
  {
    hide KINDS, ValidName, Named;
    forall i | 0 <= i < |fields|
      ensures ValidName(fields[i].name) <==> Named(fields[i].name)
    {
      NamesAre(fields[i].name);
    }
    if ValidFields(fields) {
      forall i | 0 <= i < |fields|
        ensures Named(fields[i].name) && fields[i].kind in KINDS
      {
        assert fields[i] in fields;
      }
    }
  }

  /** The ID a field ends up with: its own when that is stored, else the stored ID of its name, else a new one. */
  lemma ResolvedIds(stored: seq<Field>, fields: seq<Field>, minted: seq<string>, i: nat)
    requires DistinctNames(stored) && (forall g :: g in stored ==> g.id != "") && |minted| == |fields| && i < |fields|
    ensures var id := Resolve(fields, IdsByName(stored), minted)[i].id;
      && (fields[i].id in Ids(stored) ==> id == fields[i].id)
      && (forall g :: g in stored && fields[i].id !in Ids(stored) && g.name == fields[i].name ==> id == g.id)
      && (fields[i].id !in Ids(stored) && (forall g :: g in stored ==> g.name != fields[i].name) ==> id == minted[i])
    ensures Resolve(fields, IdsByName(stored), minted)[i] == fields[i].(id := Resolve(fields, IdsByName(stored), minted)[i].id)
  {
    IdsByNameValues(stored);
    hide Ids;
    forall g | g in stored
      ensures g.name in IdsByName(stored) && IdsByName(stored)[g.name] == g.id
    {
      var k :| 0 <= k < |stored| && stored[k] == g;
      assert IdsByName(stored)[stored[k].name] == stored[k].id;
    }
  }

  /** A definition is accepted if and only if it is well formed, keeps every field read with its type and makes
      none of them required, its resolved IDs are distinct and free, the columns to copy are there, and every
      stored row fits. */
  lemma AcceptedExactly(read: seq<Field>, s: Stored, fields: seq<Field>, taken: set<string>, minted: seq<string>)
    requires DistinctNames(s.fields) && DistinctIds(read) && |minted| == |fields|
    ensures var resolved := Resolve(fields, IdsByName(s.fields), minted);
      ApplyDefinition(read, s, fields, taken, minted).Ok? <==>
        && Wellformed(fields)
        && Ids(read) <= Ids(fields)
        && (forall f, g :: f in read && g in fields && f.id == g.id ==> f.kind == g.kind && (g.required ==> f.required))
        && DistinctIds(resolved) && DistinctNames(resolved) && Ids(resolved) !! taken
        && Ids(read) * Ids(resolved) <= Ids(s.fields)
        && Rebuild(read, resolved, s.rows).Ok?
  {
    hide Rebuild, Changes, ValidFields, Wellformed, Resolve, Ids, DistinctIds, DistinctNames;
    ValidExactly(fields);
    SilentIffCompatible(read, fields);
  }

  /** A replicated definition is accepted if and only if it is well formed, every field has an ID, these are
      distinct and free, and every stored row fits. */
  lemma ReplicatedAcceptedExactly(s: Stored, fields: seq<Field>, taken: set<string>)
    ensures ApplyReplicatedDefinition(s, fields, taken).Ok? <==>
      && Wellformed(fields) && (forall f :: f in fields ==> f.id != "")
      && DistinctIds(fields) && DistinctNames(fields) && Ids(fields) !! taken
      && Rebuild(s.fields, fields, s.rows).Ok?
  {
    hide Rebuild, ValidFields, Wellformed, Ids, DistinctIds, DistinctNames;
    ValidExactly(fields);
  }

  /** The fields an accepted definition leaves are its own, under their resolved IDs. */
  lemma AcceptedFields(read: seq<Field>, s: Stored, fields: seq<Field>, taken: set<string>, minted: seq<string>)
    requires DistinctNames(s.fields) && |minted| == |fields| && ApplyDefinition(read, s, fields, taken, minted).Ok?
    ensures ApplyDefinition(read, s, fields, taken, minted).value.fields == Resolve(fields, IdsByName(s.fields), minted)
  {
    hide Rebuild, Changes, ValidFields, Resolve, Ids, DistinctIds;
  }
}
