/** When a row satisfies a filter: by its clauses, and by the conditions and arguments of the statement they are
    compiled to (internal/query/query.go, Compile, compatible and normalize). */
module FilterMeaning {
  import opened Base
  import opened Text
  import opened Physical
  import opened Snapshot
  import opened Rebind
  import opened ListQuery
  import opened SqlReader
  import opened ListMeaning

  // ----- values of rows -----

  /** A column's value as SQL compares it. */
  datatype Value = Missing | TextValue(s: string) | NumberValue(n: real) | FlagValue(b: bool)

  type Values = map<string, Value>

  function At(row: Values, column: string): Value { if column in row then row[column] else Missing }

  /** Byte order. */
  predicate Before(a: string, b: string) {
    b != "" && (a == "" || a[0] < b[0] || (a[0] == b[0] && Before(a[1..], b[1..])))
  }

  lemma {:induction false} BeforeTotal(a: string, b: string)
    ensures a == b || Before(a, b) || Before(b, a)
    ensures !(Before(a, b) && Before(b, a)) && !Before(a, a)
  {
    if a != "" && b != "" {
      BeforeTotal(a[1..], b[1..]);
      assert a == [a[0]] + a[1..] && b == [b[0]] + b[1..];
    }
    if a != "" { BeforeTotal(a[1..], a[1..]); }
  }

  lemma {:induction false} BeforeTransitive(a: string, b: string, c: string)
    requires Before(a, b) && Before(b, c)
    ensures Before(a, c)
  {
    if a != "" && a[0] == b[0] == c[0] { BeforeTransitive(a[1..], b[1..], c[1..]); }
  }

  // ----- wildcards -----

  /** Letters without case. */
  function Fold(c: char): char { if 'A' <= c <= 'Z' then c + ('a' - 'A') else c }

  /** The text matches the pattern, where % stands for any text and _ for any character; case makes no
      difference. */
  predicate Like(pattern: string, text: string)
    decreases |pattern| + |text|
  {
    if pattern == "" then text == ""
    else if pattern[0] == '%' then Like(pattern[1..], text) || (text != "" && Like(pattern, text[1..]))
    else text != "" && (pattern[0] == '_' || Fold(pattern[0]) == Fold(text[0])) && Like(pattern[1..], text[1..])
  }

  /** Some stretch of the text matches the pattern. */
  ghost predicate Contained(pattern: string, text: string) {
    exists i, j :: 0 <= i <= j <= |text| && Like(pattern, text[i..j])
  }

  // ----- the meaning of a clause -----

  predicate OrderedAs(op: Op, less: bool, equal: bool) {
    match op
    case Eq => equal
    case Ne => !equal
    case Ge => !less
    case Le => less || equal
    case Gt => !less && !equal
    case Lt => less
    case Contains => false
  }

  /** The clause holds of a value: null by equality or inequality alone; otherwise never of NULL, and by the
      order of numbers, truth values or texts, or by a stretch of the text. */
  ghost predicate ClauseHolds(c: Clause, v: Value) {
    match c.value
    case JNull => if c.op == Eq then v == Missing else v != Missing
    case JNum(n) => v.NumberValue? && OrderedAs(c.op, v.n < n, v.n == n)
    case JBool(b) => v.FlagValue? && OrderedAs(c.op, !v.b && b, v.b == b)
    case JStr(s) => v.TextValue? && if c.op == Contains then Contained(s, v.s) else OrderedAs(c.op, Before(v.s, s), v.s == s)
    case JDoc(_) => false
  }

  /** The field's value satisfies the clause. */
  ghost predicate Satisfied(fields: map<string, ListQuery.Target>, c: Clause, row: Values) {
    c.field in fields && ClauseHolds(c, At(row, fields[c.field].column))
  }

  // ----- the meaning of a condition -----

  /** How an argument compares with a value: below, equal or above, if they compare at all. SQLite keeps truth
      values as numbers. */
  datatype Order = Below | Equal | Above | Incomparable

  function Compared3(d: Dialect, v: Value, arg: Arg): Order {
    match arg
    case NumberArg(n) => if !v.NumberValue? then Incomparable else if v.n < n then Below else if v.n == n then Equal else Above
    case TextArg(s) => if !v.TextValue? then Incomparable else if Before(v.s, s) then Below else if v.s == s then Equal else Above
    case FlagArg(b) => if !v.FlagValue? || d.SQLite? then Incomparable else if v.b == b then Equal else if b then Below else Above
    case IntArg(i) =>
      if !v.FlagValue? || !d.SQLite? then Incomparable
      else
        var n := if v.b then 1 else 0;
        if n < i then Below else if n == i then Equal else Above
    case LimitArg(_) => Incomparable
  }

  /** SQLite's LIKE and PostgreSQL's ILIKE take no notice of case. */
  predicate LikeOperator(d: Dialect, operator: string) { operator == if d.SQLite? then "LIKE" else "ILIKE" }

  /** A comparison with an operator as it is spelled; NULL compares with nothing. */
  predicate Passes(d: Dialect, v: Value, operator: string, arg: Arg) {
    if LikeOperator(d, operator) then v.TextValue? && arg.TextArg? && Like(arg.s, v.s)
    else
      var o := Compared3(d, v, arg);
      || (operator == "=" && o == Equal)
      || (operator == "!=" && (o == Below || o == Above))
      || (operator == "<" && o == Below)
      || (operator == ">" && o == Above)
      || (operator == "<=" && (o == Below || o == Equal))
      || (operator == ">=" && (o == Above || o == Equal))
  }

  /** The row passes the tests of a statement; each comparison takes the next argument. */
  predicate Meets(d: Dialect, tests: seq<Test>, args: seq<Arg>, row: Values) {
    if tests == [] then true
    else
      match tests[0]
      case IsNull(column) => At(row, column) == Missing && Meets(d, tests[1..], args, row)
      case NotNull(column) => At(row, column) != Missing && Meets(d, tests[1..], args, row)
      case Compared(column, operator) =>
        args != [] && Passes(d, At(row, column), operator, args[0]) && Meets(d, tests[1..], args[1..], row)
  }

  /** One condition with its own operand. */
  predicate CondHolds(d: Dialect, c: Cond, row: Values) {
    match c
    case NullTest(column, isNull) => (At(row, column) == Missing) == isNull
    case Compare(column, operator, operand) => Passes(d, At(row, column), operator, operand)
  }

  // ----- tests and their arguments are the conditions -----

  lemma OperandsFirst(c: Cond, rest: seq<Cond>)
    ensures Operands([c] + rest) == (if c.Compare? then [c.operand] else []) + Operands(rest)
  {
    if rest == [] {
      assert [c] + rest == [c];
      assert [c][..0] == [];
    } else {
      var before, last := rest[..|rest| - 1], rest[|rest| - 1];
      OperandsFirst(c, before);
      assert ([c] + rest)[..|rest|] == [c] + before;
    }
  }

  /** The tests read from a statement, with its arguments in order, pass exactly when every condition holds
      with its own operand; further arguments make no difference. */
  lemma {:induction false} MeetsIsAll(d: Dialect, conds: seq<Cond>, more: seq<Arg>, row: Values)
    ensures Meets(d, TestsOf(conds), Operands(conds) + more, row) <==> forall k :: 0 <= k < |conds| ==> CondHolds(d, conds[k], row)
  {
    if conds != [] {
      hide Passes;
      var c, rest := conds[0], conds[1..];
      assert conds == [c] + rest;
      OperandsFirst(c, rest);
      MeetsIsAll(d, rest, more, row);
      assert TestsOf(conds)[1..] == TestsOf(rest);
      var args := Operands(conds) + more;
      if c.Compare? {
        assert args[1..] == Operands(rest) + more;
      } else {
        assert args == Operands(rest) + more;
      }
      assert (forall k :: 0 <= k < |conds| ==> CondHolds(d, conds[k], row)) <==>
        CondHolds(d, c, row) && forall k :: 0 <= k < |rest| ==> CondHolds(d, rest[k], row);
    }
  }

  // ----- substrings by wildcards -----

  lemma {:induction false} LikeAfterAny(pattern: string, text: string)
    ensures Like("%" + pattern, text) <==> exists i :: 0 <= i <= |text| && Like(pattern, text[i..])
    decreases |text|
  {
    assert ("%" + pattern)[1..] == pattern;
    assert text[0..] == text;
    if text != "" {
      LikeAfterAny(pattern, text[1..]);
      if i :| 0 <= i <= |text| && Like(pattern, text[i..]) {
        if i > 0 { assert text[i..] == text[1..][i - 1..]; }
      }
      if i :| 0 <= i <= |text[1..]| && Like(pattern, text[1..][i..]) {
        assert text[1..][i..] == text[i + 1..];
      }
    } else {
      assert forall i :: 0 <= i <= |text| ==> text[i..] == text;
    }
  }

  lemma {:induction false} LikeBeforeAny(pattern: string, text: string)
    ensures Like(pattern + "%", text) <==> exists j :: 0 <= j <= |text| && Like(pattern, text[..j])
    decreases |pattern| + |text|
  {
    if pattern == "" {
      AnyMatches(text);
      assert pattern + "%" == "%";
      assert text[..0] == "";
    } else {
      assert (pattern + "%")[1..] == pattern[1..] + "%";
      if pattern[0] == '%' {
        LikeBeforeAny(pattern[1..], text);
        if text != "" { LikeBeforeAny(pattern, text[1..]); }
        AnyPrefix(pattern, text);
      } else if text != "" {
        LikeBeforeAny(pattern[1..], text[1..]);
        OnePrefix(pattern, text);
      }
    }
  }

  lemma {:induction false} AnyMatches(text: string)
    ensures Like("%", text)
    decreases |text|
  {
    assert "%"[1..] == "";
    if text != "" { AnyMatches(text[1..]); }
  }

  /** A prefix matches a pattern that begins with % when one matches the rest, or one of the rest matches. */
  lemma AnyPrefix(pattern: string, text: string)
    requires pattern != "" && pattern[0] == '%'
    ensures (exists j :: 0 <= j <= |text| && Like(pattern, text[..j])) <==>
      (exists j :: 0 <= j <= |text| && Like(pattern[1..], text[..j]))
      || (text != "" && exists j :: 0 <= j <= |text[1..]| && Like(pattern, text[1..][..j]))
  {
    if j :| 0 <= j <= |text| && Like(pattern, text[..j]) {
      if !Like(pattern[1..], text[..j]) { assert text[..j][1..] == text[1..][..j - 1]; }
    }
    if j :| 0 <= j <= |text| && Like(pattern[1..], text[..j]) {
      assert Like(pattern, text[..j]);
    }
    if text != "" {
      if j :| 0 <= j <= |text[1..]| && Like(pattern, text[1..][..j]) {
        assert text[..j + 1][1..] == text[1..][..j];
        assert Like(pattern, text[..j + 1]);
      }
    }
  }

  lemma OnePrefix(pattern: string, text: string)
    requires pattern != "" && pattern[0] != '%' && text != ""
    ensures (exists j :: 0 <= j <= |text| && Like(pattern, text[..j])) <==>
      (pattern[0] == '_' || Fold(pattern[0]) == Fold(text[0])) && exists j :: 0 <= j <= |text[1..]| && Like(pattern[1..], text[1..][..j])
  {
    if j :| 0 <= j <= |text| && Like(pattern, text[..j]) {
      assert text[..j][1..] == text[1..][..j - 1];
    }
    if j :| 0 <= j <= |text[1..]| && Like(pattern[1..], text[1..][..j]) {
      assert text[..j + 1][1..] == text[1..][..j];
    }
  }

  /** A pattern between two % matches exactly the texts with a stretch that matches it. */
  lemma LikeContained(pattern: string, text: string)
    ensures Like("%" + pattern + "%", text) <==> Contained(pattern, text)
  {
    assert "%" + pattern + "%" == "%" + (pattern + "%");
    LikeAfterAny(pattern + "%", text);
    if i :| 0 <= i <= |text| && Like(pattern + "%", text[i..]) {
      LikeBeforeAny(pattern, text[i..]);
      var j :| 0 <= j <= |text[i..]| && Like(pattern, text[i..][..j]);
      assert text[i..][..j] == text[i..i + j];
    }
    if Contained(pattern, text) {
      var i, j :| 0 <= i <= j <= |text| && Like(pattern, text[i..j]);
      assert text[i..][..j - i] == text[i..j];
      LikeBeforeAny(pattern, text[i..]);
    }
  }

  // ----- conditions are clauses -----

  lemma ComparisonHolds(d: Dialect, c: Clause, v: Value)
    requires c.value.JNum? || c.value.JBool? || c.value.JStr?
    requires c.op != Contains
    ensures Passes(d, v, OpText(d, c.op), Operand(d, c.op, c.value)) <==> ClauseHolds(c, v)
  {
    if v.TextValue? && c.value.JStr? { BeforeTotal(v.s, c.value.s); }
  }

  /** An accepted clause and its condition hold of the same rows. */
  lemma AcceptedHolds(d: Dialect, fields: map<string, ListQuery.Target>, c: Clause, row: Values)
    requires Accept(d, fields, c).Built?
    ensures CondHolds(d, Accept(d, fields, c).value, row) <==> Satisfied(fields, c, row)
  {
    hide Before, Like;
    if c.value != JNull {
      var v := At(row, fields[c.field].column);
      ValueKinds(fields[c.field].kind, c.op, c.value);
      if c.op == Contains {
        if v.TextValue? { LikeContained(c.value.s, v.s); }
      } else {
        hide Passes, ClauseHolds, OpText, Operand;
        ComparisonHolds(d, c, v);
      }
    }
  }

  /** All conditions of an accepted filter hold of a row if and only if all its clauses do. */
  lemma {:induction false} FilterHolds(d: Dialect, fields: map<string, ListQuery.Target>, clauses: seq<Clause>, n: nat, row: Values)
    requires n <= |clauses| && AcceptAll(d, fields, clauses, n).Built?
    ensures var conds := AcceptAll(d, fields, clauses, n).value;
      && |conds| == n
      && ((forall k :: 0 <= k < n ==> CondHolds(d, conds[k], row)) <==> forall k :: 0 <= k < n ==> Satisfied(fields, clauses[k], row))
  {
    hide Accept, CondHolds, Satisfied;
    if n > 0 {
      FilterHolds(d, fields, clauses, n - 1, row);
      AcceptedHolds(d, fields, clauses[n - 1], row);
      var before, conds := AcceptAll(d, fields, clauses, n - 1).value, AcceptAll(d, fields, clauses, n).value;
      assert conds == before + [conds[n - 1]];
      assert forall k :: 0 <= k < n - 1 ==> conds[k] == before[k];
    }
  }

  /** Every condition holds of the row. */
  predicate AllHold(d: Dialect, conds: seq<Cond>, row: Values) { forall k :: 0 <= k < |conds| ==> CondHolds(d, conds[k], row) }

  /** The row satisfies every clause of the filter. */
  ghost predicate AllSatisfied(columns: seq<Column>, clauses: seq<Clause>, row: Values) {
    forall k :: 0 <= k < |clauses| ==> Satisfied(Targets(columns), clauses[k], row)
  }

  /** The row lies beyond the cursor. */
  predicate BeyondCursor(cursor: Cursor, row: Values) {
    cursor.From? ==> At(row, ID_COLUMN).TextValue? && Before(cursor.id, At(row, ID_COLUMN).s)
  }

  lemma CursorHolds(d: Dialect, id: string, row: Values)
    ensures CondHolds(d, Compare(ID_COLUMN, ">", TextArg(id)), row) <==> BeyondCursor(From(id), row)
  {
    var v := At(row, ID_COLUMN);
    if v.TextValue? { BeforeTotal(v.s, id); }
    hide Before;
  }

  /** The conditions of a plan hold of a row exactly when it satisfies every clause and lies beyond the cursor. */
  lemma PlanHolds(d: Dialect, table: string, columns: seq<Column>, clauses: seq<Clause>, sort: string, cursor: Cursor, limit: nat, row: Values)
    requires Planned(d, table, columns, clauses, sort, cursor, limit).Built?
    ensures var p := Planned(d, table, columns, clauses, sort, cursor, limit).value;
      AllHold(d, p.conds, row) <==> AllSatisfied(columns, clauses, row) && BeyondCursor(cursor, row)
  {
    hide CondHolds, Satisfied, AcceptAll, Targets, BeyondCursor, SortName, ValidId;
    var fields := Targets(columns);
    FilterHolds(d, fields, clauses, |clauses|, row);
    var conds := AcceptAll(d, fields, clauses, |clauses|).value;
    if cursor.From? {
      CursorHolds(d, cursor.id, row);
      var p := Planned(d, table, columns, clauses, sort, cursor, limit).value;
      assert p.conds[|conds|] == Compare(ID_COLUMN, ">", TextArg(cursor.id));
      assert forall k :: 0 <= k < |conds| ==> p.conds[k] == conds[k];
    } else {
      NoCursorHolds(cursor, row);
    }
  }

  lemma NoCursorHolds(cursor: Cursor, row: Values)
    requires !cursor.From?
    ensures BeyondCursor(cursor, row)
  {
  }

  lemma PlansAreSpellable(d: Dialect, table: string, columns: seq<Column>, clauses: seq<Clause>, sort: string, cursor: Cursor, limit: nat)
    requires Planned(d, table, columns, clauses, sort, cursor, limit).Built?
    ensures AllSpellable(Planned(d, table, columns, clauses, sort, cursor, limit).value.conds)
  {
    AcceptedOperators(d, Targets(columns), clauses, |clauses|);
    hide AcceptAll, Targets, SortName, ValidId;
  }

  /** The sort parameter: a field name, descending after a minus sign, and the record id when there is none. */
  predicate Requests(sort: string, name: string, descending: bool) {
    var trimmed := TrimSpace(sort);
    if trimmed == "" then name == "id" && !descending
    else if trimmed == "-" then name == "id" && descending
    else if trimmed[0] == '-' then name == trimmed[1..] && descending
    else name == trimmed && !descending
  }

  /** By the requested field in the requested direction, then by ascending id unless that is the sort. */
  ghost predicate RequestedOrder(columns: seq<Column>, sort: string, order: seq<Key>) {
    exists name, descending :: Requests(sort, name, descending) && name in Targets(columns)
      && var column := Targets(columns)[name].column;
         order == [Key(column, descending)] + if column == ID_COLUMN then [] else [Key(ID_COLUMN, false)]
  }

  lemma SortRequests(sort: string)
    ensures Requests(sort, SortName(sort).0, SortName(sort).1)
    ensures forall name, descending :: Requests(sort, name, descending) ==> (name, descending) == SortName(sort)
  {
    hide TrimSpace;
  }

  lemma OrderIsRequested(d: Dialect, table: string, columns: seq<Column>, clauses: seq<Clause>, sort: string, cursor: Cursor, limit: nat)
    requires Planned(d, table, columns, clauses, sort, cursor, limit).Built?
    ensures RequestedOrder(columns, sort, KeysOf(Planned(d, table, columns, clauses, sort, cursor, limit).value))
  {
    hide AcceptAll, Targets, SortName, ValidId;
    SortRequests(sort);
    hide Requests;
    var (name, descending) := SortName(sort);
    assert Requests(sort, name, descending);
  }

  /** The meaning of a list statement: its text asks for the fields' columns of the collection's table, in the
      requested order; and the database finds its conditions true of a row, with the arguments in order, if
      and only if the row satisfies every clause of the filter and lies beyond the cursor. */
  lemma StatementMeans(d: Dialect, table: string, columns: seq<Column>, clauses: seq<Clause>, sort: string, cursor: Cursor, limit: nat)
    requires Planned(d, table, columns, clauses, sort, cursor, limit).Built?
    ensures var p := Planned(d, table, columns, clauses, sort, cursor, limit).value; var asked := Read(Statement(p, false));
      && asked.Some? && asked.value.columns == ColumnNames(columns) && asked.value.table == table
      && RequestedOrder(columns, sort, asked.value.order)
      && Arguments(p) != [] && Arguments(p)[|Arguments(p)| - 1] == LimitArg(limit)
      && forall row :: Meets(d, asked.value.tests, Arguments(p), row) <==>
           AllSatisfied(columns, clauses, row) && BeyondCursor(cursor, row)
  {
    hide Meets, CondHolds, Satisfied, Targets, Read, Statement, KeysOf, AcceptAll, BeyondCursor, SortName, ValidId, AllSpellable, RequestedOrder;
    var p := Planned(d, table, columns, clauses, sort, cursor, limit).value;
    OrderIsRequested(d, table, columns, clauses, sort, cursor, limit);
    PlansAreSpellable(d, table, columns, clauses, sort, cursor, limit);
    StatementReads(p);
    forall row: Values
      ensures Meets(d, TestsOf(p.conds), Arguments(p), row) <==>
        AllSatisfied(columns, clauses, row) && BeyondCursor(cursor, row)
    {
      MeetsIsAll(d, p.conds, [LimitArg(p.limit)], row);
      PlanHolds(d, table, columns, clauses, sort, cursor, limit, row);
    }
  }

  // ----- which requests are accepted -----

  /** What a field of this type may be compared with: nulls by equality alone, numbers with numbers, truth
      values with truth values by equality, everything else with texts. */
  predicate Comparable(kind: string, op: Op, value: Json) {
    if value == JNull then op in {Eq, Ne}
    else if kind == "number" then value.JNum? && op != Contains
    else if kind == "boolean" then value.JBool? && op in {Eq, Ne}
    else value.JStr?
  }

  predicate Sound(fields: map<string, ListQuery.Target>, c: Clause) {
    c.field in fields && Comparable(fields[c.field].kind, c.op, c.value)
  }

  lemma AcceptsExactly(d: Dialect, fields: map<string, ListQuery.Target>, c: Clause)
    ensures Accept(d, fields, c).Built? <==> Sound(fields, c)
    ensures Accept(d, fields, c).Refused? ==>
      Accept(d, fields, c).fault == if c.field !in fields then UnknownField(c.field) else InvalidClause(c.field)
  {
  }

  /** A filter is accepted if and only if every clause names a field it may be compared with; otherwise the
      first other clause is reported. */
  lemma {:induction false} FilterAcceptedExactly(d: Dialect, fields: map<string, ListQuery.Target>, clauses: seq<Clause>, n: nat)
    requires n <= |clauses|
    ensures AcceptAll(d, fields, clauses, n).Built? <==> forall k :: 0 <= k < n ==> Sound(fields, clauses[k])
    ensures forall k :: 0 <= k < n && !Sound(fields, clauses[k]) && (forall j :: 0 <= j < k ==> Sound(fields, clauses[j])) ==>
      AcceptAll(d, fields, clauses, n) == Refused(if clauses[k].field !in fields then UnknownField(clauses[k].field) else InvalidClause(clauses[k].field))
  {
    hide Accept, Sound;
    if n > 0 {
      FilterAcceptedExactly(d, fields, clauses, n - 1);
      AcceptsExactly(d, fields, clauses[n - 1]);
    }
  }

  /** A name stands for the last field called so. */
  lemma {:induction false} FieldTarget(columns: seq<Column>, k: nat)
    requires k < |columns| && forall j :: k < j < |columns| ==> columns[j].name != columns[k].name
    ensures columns[k].name in Targets(columns)
    ensures Targets(columns)[columns[k].name] == ListQuery.Target(columns[k].column, columns[k].kind)
  {
    if k < |columns| - 1 { FieldTarget(columns[..|columns| - 1], k); }
  }

  /** A name no field has stands for one of the record's own columns, or for nothing. */
  lemma {:induction false} OwnTarget(columns: seq<Column>, name: string)
    requires forall k :: 0 <= k < |columns| ==> columns[k].name != name
    ensures name in Targets(columns) <==> name in {"id", "createdAt", "updatedAt"}
    ensures name == "id" ==> Targets(columns)[name] == ListQuery.Target("_id", "text")
    ensures name == "createdAt" ==> Targets(columns)[name] == ListQuery.Target("_created", "datetime")
    ensures name == "updatedAt" ==> Targets(columns)[name] == ListQuery.Target("_updated", "datetime")
  {
    if columns != [] { OwnTarget(columns[..|columns| - 1], name); }
  }

  /** A record id as a cursor may carry it: 5 to 80 characters, no slash, backslash or white space of a line. */
  lemma CursorIdsExactly(id: string)
    ensures ValidId(id) <==> |id| >= 5 && |id| < 81 && '/' !in id && '\\' !in id && ' ' !in id && '\t' !in id && '\r' !in id && '\n' !in id
  {
  }

  /** A list request is accepted if and only if its filter is, its sort names a field or the record's own
      columns, and a cursor, if there is one, is a record id under ascending sort by id. */
  lemma RequestAcceptedExactly(d: Dialect, table: string, columns: seq<Column>, clauses: seq<Clause>, sort: string, cursor: Cursor, limit: nat)
    ensures Planned(d, table, columns, clauses, sort, cursor, limit).Built? <==>
      && (forall k :: 0 <= k < |clauses| ==> Sound(Targets(columns), clauses[k]))
      && SortName(sort).0 in Targets(columns)
      && (cursor != NoCursor ==> SortName(sort) == ("id", false) && cursor.From? && ValidId(cursor.id))
  {
    hide AcceptAll, Targets, SortName, ValidId, Sound;
    FilterAcceptedExactly(d, Targets(columns), clauses, |clauses|);
  }
}
