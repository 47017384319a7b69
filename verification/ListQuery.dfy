/** The list statement and its arguments (internal/query/query.go, Compile; internal/records/handler.go,
    listSQL), and their alignment through placeholder rebinding (internal/store/dialect.go). */
module ListQuery {
  import opened Base
  import opened Text
  import opened Rebind
  import opened RebindLaws
  import opened Physical
  import opened Snapshot

  // ----- filters -----

  datatype Op = Eq | Ne | Ge | Le | Gt | Lt | Contains

  datatype Clause = Clause(field: string, op: Op, value: Json)

  /** A queryable field: its physical column and type. */
  datatype Target = Target(column: string, kind: string)

  datatype Arg = TextArg(s: string) | NumberArg(n: real) | FlagArg(b: bool) | IntArg(i: int) | LimitArg(limit: nat)

  datatype QueryFault = UnknownField(name: string) | InvalidClause(name: string) | UnknownSort | CursorNeedsIdSort | InvalidCursor

  datatype Outcome<+T> = Built(value: T) | Refused(fault: QueryFault)

  /** One condition of a WHERE clause. */
  datatype Cond = NullTest(column: string, isNull: bool) | Compare(column: string, operator: string, operand: Arg)

  /** compatible. */
  predicate Compatible(kind: string, op: Op, value: Json) {
    match value
    case JNull => op == Eq || op == Ne
    case JNum(_) => kind == "number" && op != Contains
    case JBool(_) => kind == "boolean" && (op == Eq || op == Ne)
    case JStr(_) => kind != "number" && kind != "boolean"
    case JDoc(_) => false
  }

  function OpText(d: Dialect, op: Op): string {
    match op
    case Eq => "="
    case Ne => "!="
    case Ge => ">="
    case Le => "<="
    case Gt => ">"
    case Lt => "<"
    case Contains => if d.SQLite? then "LIKE" else "ILIKE"
  }

  /** The argument a value becomes; SQLite takes booleans as integers. */
  function Operand(d: Dialect, op: Op, value: Json): Arg
    requires value.JNum? || value.JBool? || value.JStr?
  {
    match value
    case JNum(n) => NumberArg(n)
    case JBool(b) => if d.SQLite? then IntArg(if b then 1 else 0) else FlagArg(b)
    case JStr(s) => TextArg(if op == Contains then "%" + s + "%" else s)
  }

  function Accept(d: Dialect, fields: map<string, Target>, c: Clause): Outcome<Cond> {
    if c.field !in fields then Refused(UnknownField(c.field))
    else
      var f := fields[c.field];
      if !Compatible(f.kind, c.op, c.value) then Refused(InvalidClause(c.field))
      else if c.value == JNull then Built(NullTest(f.column, c.op == Eq))
      else Built(Compare(f.column, OpText(d, c.op), Operand(d, c.op, c.value)))
  }

  /** The conditions of the first n clauses, or the first refusal. */
  function AcceptAll(d: Dialect, fields: map<string, Target>, clauses: seq<Clause>, n: nat): Outcome<seq<Cond>>
    requires n <= |clauses|
  {
    if n == 0 then Built([])
    else
      match AcceptAll(d, fields, clauses, n - 1)
      case Refused(fault) => Refused(fault)
      case Built(conds) =>
        match Accept(d, fields, clauses[n - 1])
        case Refused(fault) => Refused(fault)
        case Built(cond) => Built(conds + [cond])
  }

  /** The operands of the comparisons, in order: what the placeholders stand for. */
  function Operands(conds: seq<Cond>): seq<Arg> {
    if conds == [] then []
    else
      var last := conds[|conds| - 1];
      Operands(conds[..|conds| - 1]) + if last.Compare? then [last.operand] else []
  }

  // ----- spelling -----

  function Doubled(s: string): string {
    if s == "" then "" else (if s[0] == '"' then "\"\"" else [s[0]]) + Doubled(s[1..])
  }

  /** quote. */
  function Quoted(identifier: string): string { "\"" + Doubled(identifier) + "\"" }

  function CondText(c: Cond, mark: string): string {
    match c
    case NullTest(column, isNull) => Quoted(column) + if isNull then " IS NULL" else " IS NOT NULL"
    case Compare(column, operator, _) => Quoted(column) + " " + operator + " " + mark
  }

  /** strings.Join. */
  function JoinWith(parts: seq<string>, sep: string): string {
    if parts == [] then ""
    else if |parts| == 1 then parts[0]
    else JoinWith(parts[..|parts| - 1], sep) + sep + parts[|parts| - 1]
  }

  /** The placeholder of a comparison: a mark, or the number of its operand. */
  function MarkFor(conds: seq<Cond>, k: nat, numbered: bool): string
    requires k < |conds|
  {
    if numbered then "$" + Itoa(|Operands(conds[..k])| + 1) else "?"
  }

  function CondTexts(conds: seq<Cond>, numbered: bool): (texts: seq<string>)
    ensures |texts| == |conds|
  {
    seq(|conds|, k requires 0 <= k < |conds| => CondText(conds[k], MarkFor(conds, k, numbered)))
  }

  function Where(conds: seq<Cond>, numbered: bool): string {
    JoinWith(CondTexts(conds, numbered), " AND ")
  }

  lemma OneMoreOperand(conds: seq<Cond>, c: Cond)
    ensures Operands(conds + [c]) == Operands(conds) + if c.Compare? then [c.operand] else []
  {
    var more := conds + [c];
    assert more[..|conds|] == conds && more[|conds|] == c;
  }

  /** A condition's placeholder does not depend on those after it. */
  lemma MarkStays(conds: seq<Cond>, c: Cond, k: nat, numbered: bool)
    requires k < |conds|
    ensures MarkFor(conds + [c], k, numbered) == MarkFor(conds, k, numbered)
  {
    hide Itoa, Operands;
    assert (conds + [c])[..k] == conds[..k];
  }

  lemma OneMoreText(conds: seq<Cond>, c: Cond, numbered: bool)
    ensures CondTexts(conds + [c], numbered) ==
      CondTexts(conds, numbered) + [CondText(c, if numbered then "$" + Itoa(|Operands(conds)| + 1) else "?")]
  {
    hide CondText, Itoa, Operands, MarkFor;
    forall k | 0 <= k < |conds|
      ensures MarkFor(conds + [c], k, numbered) == MarkFor(conds, k, numbered)
    {
      MarkStays(conds, c, k, numbered);
    }
    LastMark(conds, c, numbered);
  }

  lemma LastMark(conds: seq<Cond>, c: Cond, numbered: bool)
    ensures MarkFor(conds + [c], |conds|, numbered) == if numbered then "$" + Itoa(|Operands(conds)| + 1) else "?"
  {
    hide Itoa, Operands;
    assert (conds + [c])[..|conds|] == conds;
  }

  lemma OneMoreCond(conds: seq<Cond>, c: Cond, numbered: bool)
    ensures CondTexts(conds + [c], numbered) ==
      CondTexts(conds, numbered) + [CondText(c, if numbered then "$" + Itoa(|Operands(conds)| + 1) else "?")]
    ensures Operands(conds + [c]) == Operands(conds) + if c.Compare? then [c.operand] else []
  {
    hide CondText, Itoa, Operands, CondTexts;
    OneMoreOperand(conds, c);
    OneMoreText(conds, c, numbered);
  }

  lemma JoinOneMore(parts: seq<string>, x: string, sep: string)
    ensures JoinWith(parts + [x], sep) == if parts == [] then x else JoinWith(parts, sep) + sep + x
  {
  }

  lemma {:induction false} RefusalStays(d: Dialect, fields: map<string, Target>, clauses: seq<Clause>, n: nat, m: nat)
    requires n <= m <= |clauses| && AcceptAll(d, fields, clauses, n).Refused?
    ensures AcceptAll(d, fields, clauses, m) == AcceptAll(d, fields, clauses, n)
  {
    if n < m { RefusalStays(d, fields, clauses, n, m - 1); }
  }

  /** Compile: the condition text and the arguments, or the first clause's refusal. */
  method Compile(clauses: seq<Clause>, fields: map<string, Target>, d: Dialect) returns (r: Outcome<(string, seq<Arg>)>)
    ensures var conds := AcceptAll(d, fields, clauses, |clauses|);
      match conds
      case Refused(fault) => r == Refused(fault)
      case Built(cs) => r == Built((Where(cs, false), Operands(cs)))
  {
    hide CondText, Operand, OpText, Compatible;
    var parts: seq<string>, args: seq<Arg> := [], [];
    ghost var conds: seq<Cond> := [];
    assert CondTexts([], false) == [];
    for i := 0 to |clauses|
      invariant AcceptAll(d, fields, clauses, i) == Built(conds)
      invariant parts == CondTexts(conds, false) && args == Operands(conds)
    {
      var clause := clauses[i];
      if clause.field !in fields {
        RefusalStays(d, fields, clauses, i + 1, |clauses|);
        return Refused(UnknownField(clause.field));
      }
      var f := fields[clause.field];
      if !Compatible(f.kind, clause.op, clause.value) {
        RefusalStays(d, fields, clauses, i + 1, |clauses|);
        return Refused(InvalidClause(clause.field));
      }
      ValueKinds(f.kind, clause.op, clause.value);
      var cond := if clause.value == JNull then NullTest(f.column, clause.op == Eq)
                  else Compare(f.column, OpText(d, clause.op), Operand(d, clause.op, clause.value));
      OneMoreCond(conds, cond, false);
      conds := conds + [cond];
      parts := parts + [CondText(cond, "?")];
      if clause.value != JNull {
        args := args + [Operand(d, clause.op, clause.value)];
      }
    }
    return Built((JoinWith(parts, " AND "), args));
  }

  lemma ValueKinds(kind: string, op: Op, value: Json)
    requires Compatible(kind, op, value)
    ensures value == JNull || value.JNum? || value.JBool? || value.JStr?
  {
  }

  // ----- the statement -----

  datatype Column = Column(name: string, kind: string, column: string)

  /** The decoded cursor parameter: absent, undecodable, or a record id. */
  datatype Cursor = NoCursor | BadCursor | From(id: string)

  const ID_COLUMN := "_id"
  const BASE_COLUMNS := "_id,_version,_created,_updated"

  predicate ValidId(id: string) {
    5 <= |id| <= 80 && forall i :: 0 <= i < |id| ==> id[i] !in "/\\ \t\r\n"
  }

  function Targets(columns: seq<Column>): map<string, Target> {
    if columns == [] then
      map["id" := Target(ID_COLUMN, "text"), "createdAt" := Target("_created", "datetime"), "updatedAt" := Target("_updated", "datetime")]
    else
      var last := columns[|columns| - 1];
      Targets(columns[..|columns| - 1])[last.name := Target(last.column, last.kind)]
  }

  function Selected(columns: seq<Column>): string {
    if columns == [] then BASE_COLUMNS
    else Selected(columns[..|columns| - 1]) + "," + Quoted(columns[|columns| - 1].column)
  }

  /** A list query before it is spelled. */
  datatype Plan = Plan(columns: seq<Column>, table: string, conds: seq<Cond>, sort: string, descending: bool, limit: nat)

  function SortName(sort: string): (string, bool) {
    var trimmed := TrimSpace(sort);
    var descending := HasPrefix(trimmed, "-");
    var name := if descending then trimmed[1..] else trimmed;
    (if name == "" then "id" else name, descending)
  }

  function Planned(d: Dialect, table: string, columns: seq<Column>, clauses: seq<Clause>, sort: string, cursor: Cursor, limit: nat): Outcome<Plan> {
    var fields := Targets(columns);
    match AcceptAll(d, fields, clauses, |clauses|)
    case Refused(fault) => Refused(fault)
    case Built(conds) =>
      var (name, descending) := SortName(sort);
      if name !in fields then Refused(UnknownSort)
      else if cursor.NoCursor? then Built(Plan(columns, table, conds, fields[name].column, descending, limit))
      else if name != "id" || descending then Refused(CursorNeedsIdSort)
      else if cursor.BadCursor? || !ValidId(cursor.id) then Refused(InvalidCursor)
      else
        var after := Compare(ID_COLUMN, ">", TextArg(cursor.id));
        Built(Plan(columns, table, conds + [after], fields[name].column, descending, limit))
  }

  function Arguments(p: Plan): seq<Arg> { Operands(p.conds) + [LimitArg(p.limit)] }

  function Tail(p: Plan): string {
    " ORDER BY " + Quoted(p.sort) + (if p.descending then " DESC" else " ASC")
    + (if p.sort == ID_COLUMN then "" else "," + Quoted(ID_COLUMN) + " ASC") + " LIMIT "
  }

  /** The statement, its placeholders written as marks or as the numbers of their arguments. */
  function Statement(p: Plan, numbered: bool): string {
    "SELECT " + Selected(p.columns) + " FROM " + Quoted(p.table)
    + (if p.conds == [] then "" else " WHERE " + Where(p.conds, numbered))
    + Tail(p) + if numbered then "$" + Itoa(|Arguments(p)|) else "?"
  }

  lemma WhereEmpty(conds: seq<Cond>)
    ensures Where(conds, false) == "" <==> conds == []
  {
  }

  /** listSQL. */
  method ListSql(d: Dialect, table: string, columns: seq<Column>, clauses: seq<Clause>, sort: string, cursor: Cursor, limit: nat)
      returns (r: Outcome<(string, seq<Arg>)>)
    ensures match Planned(d, table, columns, clauses, sort, cursor, limit)
      case Refused(fault) => r == Refused(fault)
      case Built(p) => r == Built((Statement(p, false), Arguments(p)))
  {
    hide CondText, Quoted, Where, Operands, AcceptAll, TrimSpace, HasPrefix, ValidId;
    var fields := Targets([]);
    var selected := BASE_COLUMNS;
    for i := 0 to |columns|
      invariant fields == Targets(columns[..i]) && selected == Selected(columns[..i])
    {
      assert columns[..i + 1][..i] == columns[..i];
      selected := selected + "," + Quoted(columns[i].column);
      fields := fields[columns[i].name := Target(columns[i].column, columns[i].kind)];
    }
    assert columns[..|columns|] == columns;
    var compiled := Compile(clauses, fields, d);
    if compiled.Refused? { return Refused(compiled.fault); }
    var (where, args) := compiled.value;
    ghost var conds := AcceptAll(d, fields, clauses, |clauses|).value;
    var (name, descending) := SortName(sort);
    if name !in fields { return Refused(UnknownSort); }
    if !cursor.NoCursor? {
      if name != "id" || descending { return Refused(CursorNeedsIdSort); }
      if cursor.BadCursor? || !ValidId(cursor.id) { return Refused(InvalidCursor); }
      CursorCond(conds, cursor.id);
      WhereEmpty(conds);
      if where != "" { where := where + " AND "; }
      where := where + Quoted(ID_COLUMN) + " > ?";
      args := args + [TextArg(cursor.id)];
      conds := conds + [Compare(ID_COLUMN, ">", TextArg(cursor.id))];
    }
    WhereEmpty(conds);
    var statement := "SELECT " + selected + " FROM " + Quoted(table);
    assert statement + "" == statement;
    if where != "" { statement := statement + (" WHERE " + where); }
    var sorted := fields[name].column;
    ghost var p := Plan(columns, table, conds, sorted, descending, limit);
    var tail := " ORDER BY " + Quoted(sorted) + (if descending then " DESC" else " ASC");
    tail := tail + (if sorted != ID_COLUMN then "," + Quoted(ID_COLUMN) + " ASC" else "") + " LIMIT ";
    assert tail == Tail(p);
    statement := statement + tail + "?";
    args := args + [LimitArg(limit)];
    assert args == Arguments(p);
    assert statement == Statement(p, false);
    assert Planned(d, table, columns, clauses, sort, cursor, limit) == Built(p);
    return Built((statement, args));
  }

  lemma CursorCond(conds: seq<Cond>, id: string)
    ensures var more := conds + [Compare(ID_COLUMN, ">", TextArg(id))];
      && Operands(more) == Operands(conds) + [TextArg(id)]
      && Where(more, false) == (if conds == [] then "" else Where(conds, false) + " AND ") + Quoted(ID_COLUMN) + " > ?"
  {
    hide Quoted;
    var after := Compare(ID_COLUMN, ">", TextArg(id));
    OneMoreCond(conds, after, false);
    JoinOneMore(CondTexts(conds, false), CondText(after, "?"), " AND ");
    assert Quoted(ID_COLUMN) + " " + ">" + " " + "?" == Quoted(ID_COLUMN) + " > ?";
  }

  // ----- fragments of statements -----

  /** Bytes that start no region and no numbered placeholder. */
  predicate SafeChar(c: char) { c !in "'\"-/$" }

  predicate SafeText(s: string) { forall i :: 0 <= i < |s| ==> SafeChar(s[i]) && s[i] != '?' }

  predicate Identifier(t: string) { t != "" && t[0] == '"' && QuoteEnd(t, '"', 1) == Some(|t|) }

  predicate TameAt(ps: seq<Piece>, k: nat)
    requires k < |ps|
  {
    match ps[k]
    case Sql(c) => SafeChar(c)
    case Shield(t) => Identifier(t) && (k + 1 < |ps| ==> ps[k + 1].Sql?)
  }

  /** Safe code around quoted identifiers. */
  predicate Tame(ps: seq<Piece>) { forall k :: 0 <= k < |ps| ==> TameAt(ps, k) }

  lemma TameIsLexical(ps: seq<Piece>)
    requires Tame(ps)
    ensures Lexical(ps)
  {
    hide QuoteEnd, LineEnd, BlockEnd;
    forall k | 0 <= k < |ps|
      ensures Reads(ps[k], Follower(ps, k))
    {
      assert TameAt(ps, k);
      if k + 1 < |ps| { assert TameAt(ps, k + 1); }
    }
  }

  lemma TameIsUnmixed(ps: seq<Piece>)
    requires Tame(ps)
    ensures !Mixed(ps)
  {
    MixedExactly(ps);
    forall k: nat
      ensures !NumberedAt(ps, k)
    {
      if k < |ps| { assert TameAt(ps, k); }
    }
  }

  /** These pieces are tame, hold m marks, and spell one text with marks and another with the marks
      numbered from n + 1. */
  predicate Spells(ps: seq<Piece>, n: nat, m: nat, plain: string, numbered: string) {
    Tame(ps) && Marks(ps) == m && Concat(ps) == plain && Numbered(ps, n) == numbered
  }

  /** The text of one piece after n marks, and whether it is one. */
  function NumberedPiece(p: Piece, n: nat): string { if p == MARK then "$" + Itoa(n + 1) else TextOf(p) }

  function Weight(p: Piece): nat { if p == MARK then 1 else 0 }

  lemma NumberedCons(p: Piece, rest: seq<Piece>, n: nat)
    ensures Numbered([p] + rest, n) == NumberedPiece(p, n) + Numbered(rest, n + Weight(p))
    ensures Marks([p] + rest) == Weight(p) + Marks(rest)
  {
    hide Itoa;
    assert ([p] + rest)[1..] == rest;
  }

  lemma NothingNumbered(n: nat)
    ensures Numbered([], n) == "" && Marks([]) == 0
  {
  }

  lemma {:induction false} NumberedJoin(a: seq<Piece>, b: seq<Piece>, n: nat)
    ensures Numbered(a + b, n) == Numbered(a, n) + Numbered(b, n + Marks(a))
    ensures Marks(a + b) == Marks(a) + Marks(b)
  {
    hide *;
    if a == [] {
      NothingNumbered(n);
      assert a + b == b;
    } else {
      var p, rest := a[0], a[1..];
      assert a == [p] + rest && a + b == [p] + (rest + b);
      NumberedCons(p, rest, n);
      NumberedCons(p, rest + b, n);
      NumberedJoin(rest, b, n + Weight(p));
      Associate(NumberedPiece(p, n), Numbered(rest, n + Weight(p)), Numbered(b, n + Weight(p) + Marks(rest)));
    }
  }

  lemma Associate(a: string, b: string, c: string)
    ensures a + b + c == a + (b + c)
  {
  }

  lemma TameJoin(a: seq<Piece>, b: seq<Piece>)
    requires Tame(a) && Tame(b) && (a == [] || b == [] || a[|a| - 1].Sql? || b[0].Sql?)
    ensures Tame(a + b)
  {
    hide Identifier;
    forall k | 0 <= k < |a + b|
      ensures TameAt(a + b, k)
    {
      if k < |a| { assert TameAt(a, k); } else { assert TameAt(b, k - |a|); }
    }
  }

  lemma Joined(a: seq<Piece>, b: seq<Piece>, n: nat, m: nat, k: nat, p1: string, q1: string, p2: string, q2: string)
    requires Spells(a, n, m, p1, q1) && Spells(b, n + m, k, p2, q2)
    requires a == [] || b == [] || a[|a| - 1].Sql? || b[0].Sql?
    ensures Spells(a + b, n, m + k, p1 + p2, q1 + q2)
  {
    hide Tame, Marks, Concat, Numbered;
    TameJoin(a, b);
    ConcatJoin(a, b);
    NumberedJoin(a, b, n);
  }

  lemma {:induction false} CodeSpells(s: string, n: nat)
    requires SafeText(s)
    ensures Spells(Plain(s), n, 0, s, s)
  {
    if s != "" {
      CodeSpells(s[1..], n);
      assert Plain(s)[1..] == Plain(s[1..]);
      assert s == [s[0]] + s[1..];
      assert TameAt(Plain(s), 0);
      forall k | 0 <= k < |s|
        ensures TameAt(Plain(s), k)
      {
        assert Plain(s)[k] == Sql(s[k]);
      }
    }
  }

  lemma MarkSpells(n: nat)
    ensures Spells([MARK], n, 1, "?", "$" + Itoa(n + 1))
  {
  }

  /** Doubling the quotes keeps the region open up to the closing quote. */
  lemma {:induction false} DoubledStaysOpen(s: string, i: nat, rest: string)
    requires i <= |s| && s[i..] == Doubled(rest) + "\""
    ensures QuoteEnd(s, '"', i) == Some(|s|)
    decreases |rest|
  {
    if rest == "" {
      assert s[i] == '"' && |s| == i + 1;
    } else if rest[0] == '"' {
      assert s[i] == s[i..][0] == '"' && s[i + 1] == s[i..][1] == '"';
      assert s[i + 2..] == Doubled(rest[1..]) + "\"";
      DoubledStaysOpen(s, i + 2, rest[1..]);
    } else {
      assert s[i] == s[i..][0] == rest[0];
      assert s[i + 1..] == Doubled(rest[1..]) + "\"";
      DoubledStaysOpen(s, i + 1, rest[1..]);
    }
  }

  /** A quoted identifier is one region whatever its name contains. */
  lemma QuotedSpells(identifier: string, n: nat)
    ensures Spells([Shield(Quoted(identifier))], n, 0, Quoted(identifier), Quoted(identifier))
  {
    var t := Quoted(identifier);
    assert t[1..] == Doubled(identifier) + "\"";
    DoubledStaysOpen(t, 1, identifier);
    var ps := [Shield(t)];
    assert ps[1..] == [];
    assert TameAt(ps, 0);
  }

  // ----- the pieces of the statement -----

  const OPERATORS := {"=", "!=", ">=", "<=", ">", "<", "LIKE", "ILIKE"}

  predicate KnownOperators(conds: seq<Cond>) {
    forall k :: 0 <= k < |conds| && conds[k].Compare? ==> conds[k].operator in OPERATORS
  }

  function CondPieces(c: Cond): seq<Piece> {
    match c
    case NullTest(column, isNull) => [Shield(Quoted(column))] + Plain(if isNull then " IS NULL" else " IS NOT NULL")
    case Compare(column, operator, _) => [Shield(Quoted(column))] + Plain(" " + operator + " ") + [MARK]
  }

  function CondsPieces(conds: seq<Cond>): seq<Piece> {
    if conds == [] then []
    else
      CondsPieces(conds[..|conds| - 1]) + Plain(if |conds| == 1 then "" else " AND ") + CondPieces(conds[|conds| - 1])
  }

  lemma OperatorIsSafe(operator: string)
    requires operator in OPERATORS
    ensures SafeText(" " + operator + " ")
  {
  }

  lemma CondSpells(c: Cond, n: nat)
    requires c.Compare? ==> c.operator in OPERATORS
    ensures Spells(CondPieces(c), n, if c.Compare? then 1 else 0, CondText(c, "?"), CondText(c, "$" + Itoa(n + 1)))
    ensures CondPieces(c)[|CondPieces(c)| - 1].Sql?
  {
    hide Itoa, Spells, Quoted, Plain;
    QuotedSpells(c.column, n);
    var name := [Shield(Quoted(c.column))];
    match c
    case NullTest(column, isNull) =>
      var test := if isNull then " IS NULL" else " IS NOT NULL";
      CodeSpells(test, n);
      LastCode(test);
      Joined(name, Plain(test), n, 0, 0, Quoted(column), Quoted(column), test, test);
    case Compare(column, operator, _) =>
      var middle := " " + operator + " ";
      OperatorIsSafe(operator);
      CodeSpells(middle, n);
      LastCode(middle);
      MarkSpells(n);
      Joined(name, Plain(middle), n, 0, 0, Quoted(column), Quoted(column), middle, middle);
      Joined(name + Plain(middle), [MARK], n, 0, 1, Quoted(column) + middle, Quoted(column) + middle, "?", "$" + Itoa(n + 1));
      assert forall m :: Quoted(column) + middle + m == CondText(c, m);
  }

  lemma LastCode(s: string)
    ensures forall k :: 0 <= k < |s| ==> Plain(s)[k].Sql?
  {
  }

  lemma WhereOneMore(conds: seq<Cond>, c: Cond, numbered: bool)
    ensures Where(conds + [c], numbered) ==
      Where(conds, numbered) + (if conds == [] then "" else " AND ")
      + CondText(c, if numbered then "$" + Itoa(|Operands(conds)| + 1) else "?")
    ensures |Operands(conds + [c])| == |Operands(conds)| + if c.Compare? then 1 else 0
  {
    hide CondText, Itoa;
    OneMoreCond(conds, c, numbered);
    JoinOneMore(CondTexts(conds, numbered), CondText(c, if numbered then "$" + Itoa(|Operands(conds)| + 1) else "?"), " AND ");
  }

  lemma CondsPiecesOneMore(before: seq<Cond>, last: Cond)
    ensures CondsPieces(before + [last]) == CondsPieces(before) + Plain(if before == [] then "" else " AND ") + CondPieces(last)
    ensures CondsPieces([]) == []
  {
    hide Plain, CondPieces;
    assert (before + [last])[..|before|] == before;
  }

  lemma {:induction false} CondsSpell(conds: seq<Cond>)
    requires KnownOperators(conds)
    ensures Spells(CondsPieces(conds), 0, |Operands(conds)|, Where(conds, false), Where(conds, true))
    ensures conds != [] ==> CondsPieces(conds)[|CondsPieces(conds)| - 1].Sql?
  {
    hide Itoa, Spells, CondText, CondPieces, Plain, Where, Operands, CondsPieces;
    if conds == [] {
      EmptySpells();
      CondsPiecesOneMore([], NullTest("", true));
    } else {
      var before, last := conds[..|conds| - 1], conds[|conds| - 1];
      var n, mark := |Operands(before)|, "$" + Itoa(|Operands(before)| + 1);
      var joint := if before == [] then "" else " AND ";
      assert conds == before + [last];
      CondsPiecesOneMore(before, last);
      CondsSpell(before);
      CondSpells(last, n);
      CodeSpells(joint, n);
      LastCode(joint);
      Joined(CondsPieces(before), Plain(joint), 0, n, 0, Where(before, false), Where(before, true), joint, joint);
      Joined(CondsPieces(before) + Plain(joint), CondPieces(last), 0, n, if last.Compare? then 1 else 0,
             Where(before, false) + joint, Where(before, true) + joint, CondText(last, "?"), CondText(last, mark));
      WhereOneMore(before, last, false);
      WhereOneMore(before, last, true);
    }
  }

  lemma EmptySpells()
    ensures Spells([], 0, 0, "", "") && Operands([]) == [] && Where([], false) == Where([], true) == ""
  {
  }

  function SelectedPieces(columns: seq<Column>): seq<Piece> {
    if columns == [] then Plain(BASE_COLUMNS)
    else SelectedPieces(columns[..|columns| - 1]) + Plain(",") + [Shield(Quoted(columns[|columns| - 1].column))]
  }

  lemma {:induction false} SelectedSpells(columns: seq<Column>)
    ensures Spells(SelectedPieces(columns), 0, 0, Selected(columns), Selected(columns))
  {
    hide Spells, Quoted, Plain;
    if columns == [] {
      CodeSpells(BASE_COLUMNS, 0);
    } else {
      var before, last := columns[..|columns| - 1], columns[|columns| - 1].column;
      SelectedSpells(before);
      CodeSpells(",", 0);
      LastCode(",");
      QuotedSpells(last, 0);
      Joined(SelectedPieces(before), Plain(","), 0, 0, 0, Selected(before), Selected(before), ",", ",");
      Joined(SelectedPieces(before) + Plain(","), [Shield(Quoted(last))], 0, 0, 0,
             Selected(before) + ",", Selected(before) + ",", Quoted(last), Quoted(last));
    }
  }

  function Between(a: string, identifier: string, b: string): seq<Piece> {
    Plain(a) + [Shield(Quoted(identifier))] + Plain(b)
  }

  /** An identifier between two non-empty runs of safe code. */
  lemma BetweenSpells(a: string, identifier: string, b: string, n: nat)
    requires SafeText(a) && SafeText(b) && a != "" && b != ""
    ensures var text := a + Quoted(identifier) + b;
      Spells(Between(a, identifier, b), n, 0, text, text)
    ensures var ps := Between(a, identifier, b); ps != [] && ps[0].Sql? && ps[|ps| - 1].Sql?
  {
    hide Spells, Quoted, Plain;
    CodeSpells(a, n);
    CodeSpells(b, n);
    LastCode(a);
    LastCode(b);
    QuotedSpells(identifier, n);
    Joined(Plain(a), [Shield(Quoted(identifier))], n, 0, 0, a, a, Quoted(identifier), Quoted(identifier));
    Joined(Plain(a) + [Shield(Quoted(identifier))], Plain(b), n, 0, 0, a + Quoted(identifier), a + Quoted(identifier), b, b);
  }

  const AFTER_ID := " ASC LIMIT "

  function TailPieces(p: Plan): seq<Piece> {
    var direction := if p.descending then " DESC" else " ASC";
    if p.sort == ID_COLUMN then Between(" ORDER BY ", p.sort, direction + " LIMIT ")
    else Between(" ORDER BY ", p.sort, direction + ",") + ([Shield(Quoted(ID_COLUMN))] + Plain(AFTER_ID))
  }

  lemma TailSpells(p: Plan, n: nat)
    ensures Spells(TailPieces(p), n, 0, Tail(p), Tail(p))
    ensures TailPieces(p) != [] && TailPieces(p)[0].Sql? && TailPieces(p)[|TailPieces(p)| - 1].Sql?
  {
    hide Spells, Quoted, Between, Plain;
    var direction := if p.descending then " DESC" else " ASC";
    if p.sort == ID_COLUMN {
      BetweenSpells(" ORDER BY ", p.sort, direction + " LIMIT ", n);
      assert " ORDER BY " + Quoted(p.sort) + (direction + " LIMIT ") == Tail(p);
    } else {
      var first, second := " ORDER BY " + Quoted(p.sort) + (direction + ","), Quoted(ID_COLUMN) + AFTER_ID;
      BetweenSpells(" ORDER BY ", p.sort, direction + ",", n);
      QuotedSpells(ID_COLUMN, n);
      CodeSpells(AFTER_ID, n);
      LastCode(AFTER_ID);
      Joined([Shield(Quoted(ID_COLUMN))], Plain(AFTER_ID), n, 0, 0, Quoted(ID_COLUMN), Quoted(ID_COLUMN), AFTER_ID, AFTER_ID);
      Joined(Between(" ORDER BY ", p.sort, direction + ","), [Shield(Quoted(ID_COLUMN))] + Plain(AFTER_ID), n, 0, 0,
             first, first, second, second);
      assert first + second == Tail(p);
    }
  }

  function HeadPieces(p: Plan): seq<Piece> {
    Plain("SELECT ") + SelectedPieces(p.columns) + Plain(" FROM ") + [Shield(Quoted(p.table))]
  }

  lemma HeadSpells(p: Plan)
    ensures var text := "SELECT " + Selected(p.columns) + " FROM " + Quoted(p.table); Spells(HeadPieces(p), 0, 0, text, text)
  {
    hide Spells, Quoted, Plain, Selected, SelectedPieces;
    var first, columns, second, table := "SELECT ", Selected(p.columns), " FROM ", Quoted(p.table);
    CodeSpells(first, 0);
    CodeSpells(second, 0);
    LastCode(first);
    LastCode(second);
    SelectedSpells(p.columns);
    QuotedSpells(p.table, 0);
    Joined(Plain(first), SelectedPieces(p.columns), 0, 0, 0, first, first, columns, columns);
    Joined(Plain(first) + SelectedPieces(p.columns), Plain(second), 0, 0, 0, first + columns, first + columns, second, second);
    Joined(Plain(first) + SelectedPieces(p.columns) + Plain(second), [Shield(table)], 0, 0, 0,
           first + columns + second, first + columns + second, table, table);
  }

  function WherePieces(conds: seq<Cond>): seq<Piece> {
    if conds == [] then [] else Plain(" WHERE ") + CondsPieces(conds)
  }

  lemma WhereSpells(conds: seq<Cond>)
    requires KnownOperators(conds)
    ensures Spells(WherePieces(conds), 0, |Operands(conds)|,
                   if conds == [] then "" else " WHERE " + Where(conds, false),
                   if conds == [] then "" else " WHERE " + Where(conds, true))
    ensures conds != [] ==> WherePieces(conds)[0].Sql? && WherePieces(conds)[|WherePieces(conds)| - 1].Sql?
  {
    hide Spells, Plain, Where, CondsPieces, Operands;
    CondsSpell(conds);
    if conds == [] {
      EmptySpells();
    } else {
      CodeSpells(" WHERE ", 0);
      LastCode(" WHERE ");
      Joined(Plain(" WHERE "), CondsPieces(conds), 0, 0, |Operands(conds)|, " WHERE ", " WHERE ", Where(conds, false), Where(conds, true));
    }
  }

  function Pieces(p: Plan): seq<Piece> { HeadPieces(p) + WherePieces(p.conds) + TailPieces(p) + [MARK] }

  lemma StatementSpells(p: Plan)
    requires KnownOperators(p.conds)
    ensures Spells(Pieces(p), 0, |Arguments(p)|, Statement(p, false), Statement(p, true))
  {
    hide Spells, HeadPieces, WherePieces, TailPieces, Where, Operands, Quoted, Selected, Tail, Itoa;
    var head := "SELECT " + Selected(p.columns) + " FROM " + Quoted(p.table);
    var where0 := if p.conds == [] then "" else " WHERE " + Where(p.conds, false);
    var where1 := if p.conds == [] then "" else " WHERE " + Where(p.conds, true);
    var n := |Operands(p.conds)|;
    HeadSpells(p);
    WhereSpells(p.conds);
    TailSpells(p, n);
    MarkSpells(n);
    EmptyWhere(p.conds);
    Joined(HeadPieces(p), WherePieces(p.conds), 0, 0, n, head, head, where0, where1);
    Joined(HeadPieces(p) + WherePieces(p.conds), TailPieces(p), 0, n, 0, head + where0, head + where1, Tail(p), Tail(p));
    Joined(HeadPieces(p) + WherePieces(p.conds) + TailPieces(p), [MARK], 0, n, 1,
           head + where0 + Tail(p), head + where1 + Tail(p), "?", "$" + Itoa(n + 1));
  }

  lemma EmptyWhere(conds: seq<Cond>)
    ensures conds == [] ==> WherePieces(conds) == []
  {
  }

  // ----- alignment -----

  /** The number written at a comparison is the position of its operand. */
  lemma {:induction false} NumberNamesOperand(conds: seq<Cond>, k: nat)
    requires k < |conds| && conds[k].Compare?
    ensures |Operands(conds[..k])| < |Operands(conds)|
    ensures Operands(conds)[|Operands(conds[..k])|] == conds[k].operand
  {
    var before := conds[..|conds| - 1];
    if k < |before| {
      NumberNamesOperand(before, k);
      assert before[..k] == conds[..k];
    }
  }

  lemma {:induction false} AcceptedOperators(d: Dialect, fields: map<string, Target>, clauses: seq<Clause>, n: nat)
    requires n <= |clauses| && AcceptAll(d, fields, clauses, n).Built?
    ensures KnownOperators(AcceptAll(d, fields, clauses, n).value)
  {
    if n > 0 { AcceptedOperators(d, fields, clauses, n - 1); }
  }

  /** The comparison arguments are the values of the non-null clauses, in clause order. */
  function ClauseOperands(d: Dialect, clauses: seq<Clause>): seq<Arg> {
    if clauses == [] then []
    else
      var last := clauses[|clauses| - 1];
      ClauseOperands(d, clauses[..|clauses| - 1])
      + if last.value.JNum? || last.value.JBool? || last.value.JStr? then [Operand(d, last.op, last.value)] else []
  }

  lemma {:induction false} AcceptedOperands(d: Dialect, fields: map<string, Target>, clauses: seq<Clause>, n: nat)
    requires n <= |clauses| && AcceptAll(d, fields, clauses, n).Built?
    ensures Operands(AcceptAll(d, fields, clauses, n).value) == ClauseOperands(d, clauses[..n])
  {
    hide Operand, OpText;
    if n > 0 {
      AcceptedOperands(d, fields, clauses, n - 1);
      assert clauses[..n][..n - 1] == clauses[..n - 1];
      var c := clauses[n - 1];
      ValueKinds(fields[c.field].kind, c.op, c.value);
      var before, cond := AcceptAll(d, fields, clauses, n - 1).value, Accept(d, fields, c).value;
      assert (before + [cond])[..|before|] == before;
    }
  }

  /** Argument alignment. For every accepted filter, sort and cursor the arguments are the values of the
      non-null clauses in order, then the cursor, then the limit; the statement holds exactly that many
      placeholders; and rebinding it numbers each comparison by the position of its own operand and the
      limit by the last position. */
  lemma ArgumentsAlign(d: Dialect, table: string, columns: seq<Column>, clauses: seq<Clause>, sort: string, cursor: Cursor, limit: nat)
    requires Planned(d, table, columns, clauses, sort, cursor, limit).Built?
    ensures var p := Planned(d, table, columns, clauses, sort, cursor, limit).value; var args := Arguments(p);
      && args == ClauseOperands(d, clauses) + (if cursor.From? then [TextArg(cursor.id)] else []) + [LimitArg(limit)]
      && Marks(Lex(Statement(p, false), 0).pieces) == |args|
      && Rebound(Statement(p, false)) == Bound(Statement(p, true))
      && (forall k :: 0 <= k < |p.conds| && p.conds[k].Compare? ==>
            |Operands(p.conds[..k])| < |args| && args[|Operands(p.conds[..k])|] == p.conds[k].operand)
  {
    hide Where, Statement, Rebound, Lex, SortName, Targets, ValidId;
    var p := Planned(d, table, columns, clauses, sort, cursor, limit).value;
    PlanOperands(d, table, columns, clauses, sort, cursor, limit);
    StatementBinds(p);
    forall k | 0 <= k < |p.conds| && p.conds[k].Compare?
      ensures |Operands(p.conds[..k])| < |Operands(p.conds)| && Operands(p.conds)[|Operands(p.conds[..k])|] == p.conds[k].operand
    {
      NumberNamesOperand(p.conds, k);
    }
  }

  lemma PlanOperands(d: Dialect, table: string, columns: seq<Column>, clauses: seq<Clause>, sort: string, cursor: Cursor, limit: nat)
    requires Planned(d, table, columns, clauses, sort, cursor, limit).Built?
    ensures var p := Planned(d, table, columns, clauses, sort, cursor, limit).value;
      && KnownOperators(p.conds) && p.limit == limit
      && Operands(p.conds) == ClauseOperands(d, clauses) + if cursor.From? then [TextArg(cursor.id)] else []
  {
    hide SortName, Operand, OpText, Accept, ValidId, ClauseOperands;
    var fields := Targets(columns);
    AcceptedOperators(d, fields, clauses, |clauses|);
    AcceptedOperands(d, fields, clauses, |clauses|);
    assert clauses[..|clauses|] == clauses;
    var conds := AcceptAll(d, fields, clauses, |clauses|).value;
    if cursor.From? {
      var after := Compare(ID_COLUMN, ">", TextArg(cursor.id));
      assert (conds + [after])[..|conds|] == conds;
    }
  }

  /** A planned statement is read back piece by piece and rebinds to its numbered form. */
  lemma StatementBinds(p: Plan)
    requires KnownOperators(p.conds)
    ensures Rebound(Statement(p, false)) == Bound(Statement(p, true))
    ensures Lex(Statement(p, false), 0) == Lexed(Pieces(p), true) && Marks(Pieces(p)) == |Arguments(p)|
  {
    hide Lex, Pieces, Statement, Arguments, Marks, Tame, Lexical;
    StatementSpells(p);
    TameIsLexical(Pieces(p));
    TameIsUnmixed(Pieces(p));
    assert Statement(p, false)[0..] == Statement(p, false);
    LexicalReadsBack(Statement(p, false), 0, Pieces(p));
  }
}
