/** What list statements mean: the text listSQL builds reads back as what was asked for, and its conditions
    hold of a row exactly when the clauses of the filter do (internal/query/query.go, Compile;
    internal/records/handler.go, listSQL). */
module ListMeaning {
  import opened Base
  import opened Text
  import opened Physical
  import opened Snapshot
  import opened ListQuery
  import opened SqlReader

  // ----- the statement reads back -----

  lemma {:induction false} UnquoteDoubled(x: string, r: string)
    requires Separate(r)
    ensures Unquote(Doubled(x) + "\"" + r) == Some((x, r))
  {
    var s := Doubled(x) + "\"" + r;
    if x == "" {
      assert s[0] == '"' && s[1..] == r;
    } else {
      var rest := Doubled(x[1..]) + "\"" + r;
      UnquoteDoubled(x[1..], r);
      if x[0] == '"' {
        assert s[..2] == "\"\"" && s[2..] == rest;
      } else {
        assert s[0] == x[0] && s[1..] == rest;
      }
      assert x == [x[0]] + x[1..];
    }
  }

  lemma QuotedScans(x: string)
    ensures Scans(Quoted(x), [Name(x)])
  {
    forall r: string | Separate(r)
      ensures Scan(Quoted(x) + r) == Followed([Name(x)], Scan(r))
    {
      UnquoteDoubled(x, r);
      assert Quoted(x) + r == "\"" + (Doubled(x) + "\"" + r);
      assert (Quoted(x) + r)[1..] == Doubled(x) + "\"" + r;
    }
  }

  lemma SpacedName(x: string)
    ensures Scans(" " + Quoted(x), [Name(x)]) && Scans("," + Quoted(x), [Comma, Name(x)])
  {
    hide Scans;
    QuotedScans(x);
    SpaceScans(Quoted(x), [Name(x)]);
    CommaScans(Quoted(x), [Name(x)]);
    assert [Comma] + [Name(x)] == [Comma, Name(x)];
  }

  // ----- columns -----

  const BASE_TOKENS := [Word("_id"), Comma, Word("_version"), Comma, Word("_created"), Comma, Word("_updated")]
  const BASE_NAMES := ["_id", "_version", "_created", "_updated"]

  function ColumnTokens(columns: seq<Column>): seq<Token> {
    if columns == [] then BASE_TOKENS
    else ColumnTokens(columns[..|columns| - 1]) + [Comma, Name(columns[|columns| - 1].column)]
  }

  /** The columns a list selects: the record's own, then one for each field. */
  function ColumnNames(columns: seq<Column>): seq<string> {
    BASE_NAMES + seq(|columns|, i requires 0 <= i < |columns| => columns[i].column)
  }

  lemma BaseScans()
    ensures Scans(BASE_COLUMNS, BASE_TOKENS)
  {
    hide Scans;
    WordScans("_id");
    OneMoreBase("_id", [Word("_id")], "_version");
    OneMoreBase("_id" + ("," + "_version"), [Word("_id")] + [Comma, Word("_version")], "_created");
    OneMoreBase("_id" + ("," + "_version") + ("," + "_created"), [Word("_id")] + [Comma, Word("_version")] + [Comma, Word("_created")], "_updated");
    assert [Word("_id")] + [Comma, Word("_version")] + [Comma, Word("_created")] + [Comma, Word("_updated")] == BASE_TOKENS;
    BaseText();
  }

  lemma BaseText()
    ensures "_id" + ("," + "_version") + ("," + "_created") + ("," + "_updated") == BASE_COLUMNS
  {
  }

  lemma OneMoreBase(s: string, ts: seq<Token>, w: string)
    requires Scans(s, ts) && IsWord(w)
    ensures Scans(s + ("," + w), ts + [Comma, Word(w)])
  {
    hide Scans;
    CommaWord("," + w, w);
    ScansJoin(s, "," + w, ts, [Comma, Word(w)]);
  }

  lemma {:induction false} SelectedScans(columns: seq<Column>)
    ensures Scans(Selected(columns), ColumnTokens(columns))
  {
    hide Scans, Quoted;
    if columns == [] {
      BaseScans();
    } else {
      var before, last := columns[..|columns| - 1], columns[|columns| - 1].column;
      SelectedScans(before);
      SpacedName(last);
      ScansJoin(Selected(before), "," + Quoted(last), ColumnTokens(before), [Comma, Name(last)]);
      assert Selected(before) + "," + Quoted(last) == Selected(before) + ("," + Quoted(last));
    }
  }

  /** One more name before a list that goes on, or that ends. */
  lemma OneName(t: Token, name: string, ts: seq<Token>)
    requires t == Word(name) || t == Name(name)
    ensures ts == [] || ts[0] != Comma ==> Names([t] + ts) == Some(([name], ts))
    ensures ts != [] && ts[0] == Comma && Names(ts[1..]).Some? ==>
      Names([t] + ts) == Some(([name] + Names(ts[1..]).value.0, Names(ts[1..]).value.1))
  {
    var all := [t] + ts;
    assert all[1..] == ts;
    if ts != [] && ts[0] == Comma { assert all[2..] == ts[1..]; }
  }

  lemma BaseReads(rest: seq<Token>)
    ensures rest != [] && rest[0] == Comma && Names(rest[1..]).Some? ==>
      Names(BASE_TOKENS + rest) == Some((BASE_NAMES + Names(rest[1..]).value.0, Names(rest[1..]).value.1))
    ensures rest == [] || rest[0] != Comma ==> Names(BASE_TOKENS + rest) == Some((BASE_NAMES, rest))
  {
    hide Names;
    var d := [Word("_updated")] + rest;
    var c := [Word("_created")] + ([Comma] + d);
    var b := [Word("_version")] + ([Comma] + c);
    OneName(Word("_updated"), "_updated", rest);
    assert ([Comma] + d)[1..] == d && ([Comma] + c)[1..] == c && ([Comma] + b)[1..] == b;
    OneName(Word("_created"), "_created", [Comma] + d);
    OneName(Word("_version"), "_version", [Comma] + c);
    OneName(Word("_id"), "_id", [Comma] + b);
    assert BASE_TOKENS + rest == [Word("_id")] + ([Comma] + b);
    assert ["_id"] + (["_version"] + (["_created"] + ["_updated"])) == BASE_NAMES;
    if rest != [] && rest[0] == Comma && Names(rest[1..]).Some? {
      var more := Names(rest[1..]).value.0;
      assert ["_id"] + (["_version"] + (["_created"] + (["_updated"] + more))) == BASE_NAMES + more;
    }
  }

  /** The column list reads as the columns' names, whatever follows. */
  lemma {:induction false} ColumnsRead(columns: seq<Column>, rest: seq<Token>)
    ensures rest != [] && rest[0] == Comma && Names(rest[1..]).Some? ==>
      Names(ColumnTokens(columns) + rest) == Some((ColumnNames(columns) + Names(rest[1..]).value.0, Names(rest[1..]).value.1))
    ensures rest == [] || rest[0] != Comma ==> Names(ColumnTokens(columns) + rest) == Some((ColumnNames(columns), rest))
  {
    hide Names;
    if columns == [] {
      BaseReads(rest);
      assert ColumnNames(columns) == BASE_NAMES;
    } else {
      var before, last := columns[..|columns| - 1], columns[|columns| - 1].column;
      var more := [Comma, Name(last)] + rest;
      ColumnsRead(before, more);
      OneName(Name(last), last, rest);
      assert more[1..] == [Name(last)] + rest;
      assert ColumnTokens(columns) + rest == ColumnTokens(before) + more;
      assert ColumnNames(columns) == ColumnNames(before) + [last];
      if rest != [] && rest[0] == Comma && Names(rest[1..]).Some? {
        assert ColumnNames(before) + ([last] + Names(rest[1..]).value.0) == ColumnNames(columns) + Names(rest[1..]).value.0;
      }
    }
  }

  // ----- conditions -----

  /** What a condition asks, in the reader's terms. */
  function TestOf(c: Cond): Test {
    match c
    case NullTest(column, isNull) => if isNull then IsNull(column) else NotNull(column)
    case Compare(column, operator, _) => Compared(column, operator)
  }

  function TestsOf(conds: seq<Cond>): seq<Test> {
    seq(|conds|, k requires 0 <= k < |conds| => TestOf(conds[k]))
  }

  predicate Spellable(c: Cond) { c.Compare? ==> c.operator in {"=", "!=", ">=", "<=", ">", "<", "LIKE", "ILIKE"} }

  function OperatorToken(operator: string): Token { if operator in {"LIKE", "ILIKE"} then Word(operator) else Sign(operator) }

  function CondTokens(c: Cond): seq<Token> {
    match c
    case NullTest(column, isNull) => [Name(column), Word("IS")] + (if isNull then [Word("NULL")] else [Word("NOT"), Word("NULL")])
    case Compare(column, operator, _) => [Name(column), OperatorToken(operator), Mark]
  }

  function WhereTokens(conds: seq<Cond>): seq<Token> {
    if conds == [] then []
    else if |conds| == 1 then CondTokens(conds[0])
    else WhereTokens(conds[..|conds| - 1]) + [Word("AND")] + CondTokens(conds[|conds| - 1])
  }

  lemma NullScans(column: string)
    ensures Scans(Quoted(column) + " IS NULL", [Name(column), Word("IS"), Word("NULL")])
    ensures Scans(Quoted(column) + " IS NOT NULL", [Name(column), Word("IS"), Word("NOT"), Word("NULL")])
  {
    hide Scans, Quoted;
    QuotedScans(column);
    SpacedWord(" IS", "IS");
    SpacedWord(" NOT", "NOT");
    SpacedWord(" NULL", "NULL");
    var q, two := Quoted(column), [Name(column), Word("IS")];
    var isNot := [Name(column), Word("IS"), Word("NOT")];
    ScansAs(q, [Name(column)], " IS", [Word("IS")], q + " IS", two);
    ScansAs(q + " IS", two, " NULL", [Word("NULL")], q + " IS NULL", two + [Word("NULL")]);
    ScansAs(q + " IS", two, " NOT", [Word("NOT")], q + " IS NOT", isNot);
    ScansAs(q + " IS NOT", isNot, " NULL", [Word("NULL")], q + " IS NOT NULL", isNot + [Word("NULL")]);
    assert two + [Word("NULL")] == [Name(column), Word("IS"), Word("NULL")];
    assert isNot + [Word("NULL")] == [Name(column), Word("IS"), Word("NOT"), Word("NULL")];
  }

  lemma OperatorScans(operator: string, s: string)
    requires Spellable(Compare("", operator, TextArg(""))) && s == " " + operator
    ensures Scans(s, [OperatorToken(operator)])
  {
    if operator in {"LIKE", "ILIKE"} {
      SpacedWord(s, operator);
    } else {
      assert IsSign(operator);
      SignScans(operator);
      SpaceScans(operator, [Sign(operator)]);
    }
  }

  lemma CompareScans(column: string, operator: string)
    requires Spellable(Compare(column, operator, TextArg("")))
    ensures Scans(Quoted(column) + " " + operator + " ?", [Name(column), OperatorToken(operator), Mark])
  {
    hide Scans, Quoted, OperatorToken;
    QuotedScans(column);
    var q, op, two := Quoted(column), " " + operator, [Name(column), OperatorToken(operator)];
    OperatorScans(operator, op);
    SpacedMark();
    ScansAs(q, [Name(column)], op, [OperatorToken(operator)], q + op, two);
    ScansAs(q + op, two, " ?", [Mark], q + " " + operator + " ?", [Name(column), OperatorToken(operator), Mark]);
  }

  lemma CondScans(c: Cond)
    requires Spellable(c)
    ensures Scans(CondText(c, "?"), CondTokens(c))
  {
    hide Scans, Quoted, OperatorToken;
    match c
    case NullTest(column, isNull) =>
      NullScans(column);
      assert [Name(column), Word("IS")] + [Word("NULL")] == [Name(column), Word("IS"), Word("NULL")];
      assert [Name(column), Word("IS")] + [Word("NOT"), Word("NULL")] == [Name(column), Word("IS"), Word("NOT"), Word("NULL")];
    case Compare(column, operator, operand) =>
      CompareScans(column, operator);
      assert Quoted(column) + " " + operator + " " + "?" == Quoted(column) + " " + operator + " ?";
  }

  lemma {:induction false} WhereScans(conds: seq<Cond>)
    requires conds != [] && forall k :: 0 <= k < |conds| ==> Spellable(conds[k])
    ensures Scans(Where(conds, false), WhereTokens(conds))
  {
    hide Scans, CondText, CondTokens, Spellable, Where;
    var before, last := conds[..|conds| - 1], conds[|conds| - 1];
    assert conds == before + [last];
    WhereJoins(before, last);
    CondScans(last);
    if before == [] {
      assert conds[0] == last;
    } else {
      WhereScans(before);
      SpacedWord(" AND", "AND");
      SpaceScans(CondText(last, "?"), CondTokens(last));
      ScansJoin(Where(before, false), " AND", WhereTokens(before), [Word("AND")]);
      ScansJoin(Where(before, false) + " AND", " " + CondText(last, "?"), WhereTokens(before) + [Word("AND")], CondTokens(last));
      AndText(Where(before, false), CondText(last, "?"));
    }
  }

  lemma AndText(a: string, b: string)
    ensures a + " AND " + b == a + " AND" + (" " + b)
  {
  }

  lemma WhereJoins(before: seq<Cond>, last: Cond)
    ensures Where(before + [last], false) == if before == [] then CondText(last, "?") else Where(before, false) + " AND " + CondText(last, "?")
  {
    hide CondText;
    OneMoreText(before, last, false);
    JoinOneMore(CondTexts(before, false), CondText(last, "?"), " AND ");
  }

  lemma OneTestReads(c: Cond, rest: seq<Token>)
    requires Spellable(c)
    ensures OneTest(CondTokens(c) + rest) == Some((TestOf(c), rest))
  {
    var ts := CondTokens(c) + rest;
    match c
    case NullTest(column, isNull) => assert ts[if isNull then 3 else 4..] == rest;
    case Compare(column, operator, _) => assert ts[3..] == rest;
  }

  lemma FirstTest(c: Cond, rest: seq<Token>)
    requires Spellable(c)
    ensures !StartsWith(rest, [Word("AND")]) ==> Tests(CondTokens(c) + rest) == Some(([TestOf(c)], rest))
    ensures StartsWith(rest, [Word("AND")]) && Tests(rest[1..]).Some? ==>
      Tests(CondTokens(c) + rest) == Some(([TestOf(c)] + Tests(rest[1..]).value.0, Tests(rest[1..]).value.1))
  {
    hide CondTokens, TestOf, OneTest, Spellable;
    OneTestReads(c, rest);
  }

  /** The conditions read as the tests they ask for, in order, whatever follows. */
  lemma {:induction false} WhereReads(conds: seq<Cond>, rest: seq<Token>)
    requires conds != [] && forall k :: 0 <= k < |conds| ==> Spellable(conds[k])
    ensures !StartsWith(rest, [Word("AND")]) ==> Tests(WhereTokens(conds) + rest) == Some((TestsOf(conds), rest))
    ensures StartsWith(rest, [Word("AND")]) && Tests(rest[1..]).Some? ==>
      Tests(WhereTokens(conds) + rest) == Some((TestsOf(conds) + Tests(rest[1..]).value.0, Tests(rest[1..]).value.1))
  {
    hide CondTokens, TestOf, Spellable, Tests;
    var before, last := conds[..|conds| - 1], conds[|conds| - 1];
    FirstTest(last, rest);
    if before == [] {
      assert conds[0] == last && TestsOf(conds) == [TestOf(last)];
    } else {
      var more := [Word("AND")] + (CondTokens(last) + rest);
      WhereReads(before, more);
      assert more[1..] == CondTokens(last) + rest;
      assert more[..1] == [Word("AND")];
      assert WhereTokens(conds) + rest == WhereTokens(before) + more;
      assert TestsOf(conds) == TestsOf(before) + [TestOf(last)];
      if StartsWith(rest, [Word("AND")]) && Tests(rest[1..]).Some? {
        assert TestsOf(before) + ([TestOf(last)] + Tests(rest[1..]).value.0) == TestsOf(conds) + Tests(rest[1..]).value.0;
      }
    }
  }

  // ----- order and limit -----

  /** By the sort column in its direction, then by ascending id where the sort is not by id itself. */
  function KeysOf(p: Plan): seq<Key> {
    if p.sort == ID_COLUMN then [Key(ID_COLUMN, p.descending)] else [Key(p.sort, p.descending), Key(ID_COLUMN, false)]
  }

  function DirectionToken(descending: bool): Token { if descending then Word("DESC") else Word("ASC") }

  function TailTokens(p: Plan): seq<Token> {
    [Word("ORDER"), Word("BY"), Name(p.sort), DirectionToken(p.descending)]
    + (if p.sort == ID_COLUMN then [] else [Comma, Name(ID_COLUMN), Word("ASC")])
    + [Word("LIMIT"), Mark]
  }

  lemma OrderScans(p: Plan)
    ensures Scans(" ORDER BY " + Quoted(p.sort) + (if p.descending then " DESC" else " ASC"),
                  [Word("ORDER"), Word("BY"), Name(p.sort), DirectionToken(p.descending)])
  {
    hide Scans, Quoted;
    SpacedWord(" ORDER", "ORDER");
    SpacedWord(" BY", "BY");
    SpacedWord(" DESC", "DESC");
    SpacedWord(" ASC", "ASC");
    SpacedName(p.sort);
    var direction := if p.descending then " DESC" else " ASC";
    ScansAs(" ORDER", [Word("ORDER")], " BY", [Word("BY")], " ORDER BY", [Word("ORDER"), Word("BY")]);
    ScansAs(" ORDER BY", [Word("ORDER"), Word("BY")], " " + Quoted(p.sort), [Name(p.sort)],
            " ORDER BY " + Quoted(p.sort), [Word("ORDER"), Word("BY"), Name(p.sort)]);
    ScansAs(" ORDER BY " + Quoted(p.sort), [Word("ORDER"), Word("BY"), Name(p.sort)], direction, [DirectionToken(p.descending)],
            " ORDER BY " + Quoted(p.sort) + direction, [Word("ORDER"), Word("BY"), Name(p.sort), DirectionToken(p.descending)]);
  }

  lemma TieScans()
    ensures Scans("," + Quoted(ID_COLUMN) + " ASC", [Comma, Name(ID_COLUMN), Word("ASC")])
    ensures Scans(" LIMIT ?", [Word("LIMIT"), Mark])
  {
    hide Scans, Quoted;
    SpacedName(ID_COLUMN);
    SpacedWord(" ASC", "ASC");
    SpacedWord(" LIMIT", "LIMIT");
    SpacedMark();
    ScansAs("," + Quoted(ID_COLUMN), [Comma, Name(ID_COLUMN)], " ASC", [Word("ASC")], "," + Quoted(ID_COLUMN) + " ASC", [Comma, Name(ID_COLUMN), Word("ASC")]);
    ScansAs(" LIMIT", [Word("LIMIT")], " ?", [Mark], " LIMIT ?", [Word("LIMIT"), Mark]);
  }

  lemma TailScans(p: Plan)
    ensures Scans(Tail(p) + "?", TailTokens(p))
  {
    hide Scans, Quoted;
    OrderScans(p);
    TieScans();
    var order := " ORDER BY " + Quoted(p.sort) + (if p.descending then " DESC" else " ASC");
    var orderTokens := [Word("ORDER"), Word("BY"), Name(p.sort), DirectionToken(p.descending)];
    var tie, tieTokens := "," + Quoted(ID_COLUMN) + " ASC", [Comma, Name(ID_COLUMN), Word("ASC")];
    if p.sort == ID_COLUMN {
      ScansAs(order, orderTokens, " LIMIT ?", [Word("LIMIT"), Mark], Tail(p) + "?", TailTokens(p));
    } else {
      ScansJoin(order, tie, orderTokens, tieTokens);
      ScansAs(order + tie, orderTokens + tieTokens, " LIMIT ?", [Word("LIMIT"), Mark], Tail(p) + "?", TailTokens(p));
    }
  }

  lemma TailReads(p: Plan)
    ensures OrderOf(TailTokens(p)) == Some(KeysOf(p)) && !StartsWith(TailTokens(p), [Word("WHERE")]) && !StartsWith(TailTokens(p), [Word("AND")])
  {
    var ts := TailTokens(p);
    assert ts[..2] == [Word("ORDER"), Word("BY")];
    assert ts[..1] == [Word("ORDER")];
    if p.sort == ID_COLUMN {
      assert ts[2..] == [Name(p.sort), DirectionToken(p.descending), Word("LIMIT"), Mark];
      assert ts[2..][2..] == [Word("LIMIT"), Mark];
    } else {
      assert ts[2..] == [Name(p.sort), DirectionToken(p.descending), Comma, Name(ID_COLUMN), Word("ASC"), Word("LIMIT"), Mark];
      assert ts[2..][3..] == [Name(ID_COLUMN), Word("ASC"), Word("LIMIT"), Mark];
      assert ts[2..][3..][2..] == [Word("LIMIT"), Mark];
      assert Keys(ts[2..][3..]) == Some(([Key(ID_COLUMN, false)], [Word("LIMIT"), Mark]));
      assert [Key(p.sort, p.descending)] + [Key(ID_COLUMN, false)] == KeysOf(p);
    }
  }

  // ----- the whole statement -----

  function HeadTokens(p: Plan): seq<Token> { [Word("SELECT")] + ColumnTokens(p.columns) + [Word("FROM"), Name(p.table)] }

  function ConditionTokens(p: Plan): seq<Token> {
    if p.conds == [] then [] else [Word("WHERE")] + WhereTokens(p.conds)
  }

  predicate AllSpellable(conds: seq<Cond>) { forall k :: 0 <= k < |conds| ==> Spellable(conds[k]) }

  lemma HeadScans(p: Plan)
    ensures Scans("SELECT " + Selected(p.columns) + " FROM " + Quoted(p.table), HeadTokens(p))
  {
    hide Scans, Quoted, Selected, ColumnTokens;
    WordScans("SELECT");
    SelectedScans(p.columns);
    SpaceScans(Selected(p.columns), ColumnTokens(p.columns));
    SpacedWord(" FROM", "FROM");
    SpacedName(p.table);
    var columns, table := " " + Selected(p.columns), " " + Quoted(p.table);
    ScansJoin("SELECT", columns, [Word("SELECT")], ColumnTokens(p.columns));
    ScansJoin("SELECT" + columns, " FROM", [Word("SELECT")] + ColumnTokens(p.columns), [Word("FROM")]);
    ScansAs("SELECT" + columns + " FROM", [Word("SELECT")] + ColumnTokens(p.columns) + [Word("FROM")], table, [Name(p.table)],
            "SELECT " + Selected(p.columns) + " FROM " + Quoted(p.table), HeadTokens(p));
  }

  lemma ConditionScans(p: Plan)
    requires AllSpellable(p.conds) && p.conds != []
    ensures Scans(" WHERE " + Where(p.conds, false), ConditionTokens(p))
  {
    hide Scans, Where, WhereTokens, Spellable;
    WhereScans(p.conds);
    SpacedWord(" WHERE", "WHERE");
    SpaceScans(Where(p.conds, false), WhereTokens(p.conds));
    ScansAs(" WHERE", [Word("WHERE")], " " + Where(p.conds, false), WhereTokens(p.conds), " WHERE " + Where(p.conds, false), ConditionTokens(p));
  }

  lemma TailIsSeparate(p: Plan)
    ensures Tail(p) + "?" != "" && Separate(Tail(p) + "?") && (Tail(p) + "?")[0] == ' '
  {
    hide Quoted;
  }

  lemma StatementScans(p: Plan)
    requires AllSpellable(p.conds)
    ensures Scan(Statement(p, false)) == Some(HeadTokens(p) + ConditionTokens(p) + TailTokens(p))
  {
    hide Scans, Scan, Quoted, Selected, Where, Tail, HeadTokens, ConditionTokens, TailTokens, AllSpellable;
    HeadScans(p);
    TailScans(p);
    TailIsSeparate(p);
    var head, tail := "SELECT " + Selected(p.columns) + " FROM " + Quoted(p.table), Tail(p) + "?";
    if p.conds == [] {
      NoConditions(p);
      ScansAs(head, HeadTokens(p), tail, TailTokens(p), head + tail, HeadTokens(p) + ConditionTokens(p) + TailTokens(p));
      assert Statement(p, false) == head + tail;
      ScansWhole(head + tail, HeadTokens(p) + ConditionTokens(p) + TailTokens(p));
    } else {
      ConditionScans(p);
      var where := " WHERE " + Where(p.conds, false);
      ScansJoin(head, where, HeadTokens(p), ConditionTokens(p));
      ScansJoin(head + where, tail, HeadTokens(p) + ConditionTokens(p), TailTokens(p));
      assert Statement(p, false) == head + where + tail;
      ScansWhole(head + where + tail, HeadTokens(p) + ConditionTokens(p) + TailTokens(p));
    }
  }

  lemma NoConditions(p: Plan)
    ensures p.conds == [] ==> ConditionTokens(p) == []
  {
  }

  /** What a planned statement asks for. */
  function Asked(p: Plan): Selection {
    Selection(ColumnNames(p.columns), p.table, TestsOf(p.conds), KeysOf(p))
  }

  /** The part of a statement from its conditions on. */
  function RestTokens(p: Plan): seq<Token> { ConditionTokens(p) + TailTokens(p) }

  lemma NoConditionsRead(p: Plan)
    requires p.conds == []
    ensures !StartsWith(RestTokens(p), [Word("WHERE")]) && OrderOf(RestTokens(p)) == Some(KeysOf(p)) && TestsOf(p.conds) == []
  {
    hide TailTokens, OrderOf, KeysOf;
    TailReads(p);
    assert RestTokens(p) == TailTokens(p);
  }

  lemma ConditionsRead(p: Plan)
    requires AllSpellable(p.conds) && p.conds != []
    ensures StartsWith(RestTokens(p), [Word("WHERE")])
    ensures Tests(RestTokens(p)[1..]) == Some((TestsOf(p.conds), TailTokens(p))) && OrderOf(TailTokens(p)) == Some(KeysOf(p))
  {
    hide TailTokens, WhereTokens, OrderOf, KeysOf, Tests, Spellable, TestsOf;
    TailReads(p);
    WhereReads(p.conds, TailTokens(p));
    assert RestTokens(p)[..1] == [Word("WHERE")];
    assert RestTokens(p)[1..] == WhereTokens(p.conds) + TailTokens(p);
  }

  lemma HeadReads(p: Plan, rest: seq<Token>)
    ensures var ts := HeadTokens(p) + rest; var from := [Word("FROM"), Name(p.table)] + rest;
      StartsWith(ts, [Word("SELECT")]) && Names(ts[1..]) == Some((ColumnNames(p.columns), from)) && from[2..] == rest
  {
    hide Names, ColumnTokens, ColumnNames;
    var ts, from := HeadTokens(p) + rest, [Word("FROM"), Name(p.table)] + rest;
    assert ts[..1] == [Word("SELECT")];
    assert ts[1..] == ColumnTokens(p.columns) + from;
    ColumnsRead(p.columns, from);
  }

  lemma TokensRead(p: Plan)
    requires AllSpellable(p.conds)
    ensures Parse(HeadTokens(p) + ConditionTokens(p) + TailTokens(p)) == Some(Asked(p))
  {
    hide Names, Tests, OrderOf, HeadTokens, ConditionTokens, TailTokens, AllSpellable, KeysOf, TestsOf, ColumnNames, StartsWith;
    HeadReads(p, RestTokens(p));
    NotEmpty(p);
    assert HeadTokens(p) + ConditionTokens(p) + TailTokens(p) == HeadTokens(p) + RestTokens(p);
    var from := [Word("FROM"), Name(p.table)] + RestTokens(p);
    assert from[3..] == from[2..][1..];
    if p.conds == [] {
      NoConditionsRead(p);
    } else {
      ConditionsRead(p);
    }
  }

  lemma NotEmpty(p: Plan)
    ensures |TailTokens(p)| > 0 && |RestTokens(p)| > 0
  {
  }

  /** The statement text reads back as exactly what was planned: its columns, table, conditions in order, sort
      keys and one limit. */
  lemma StatementReads(p: Plan)
    requires AllSpellable(p.conds)
    ensures Read(Statement(p, false)) == Some(Asked(p))
  {
    hide Scan, Parse, Statement, Asked, AllSpellable;
    StatementScans(p);
    TokensRead(p);
  }
}
