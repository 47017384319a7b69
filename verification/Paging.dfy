/** Walking a list by its cursors (internal/records/handler.go, list and listSQL). */
module Paging {
  import opened Base
  import opened Text
  import opened Snapshot
  import opened ListQuery
  import opened SqlReader
  import opened ListMeaning
  import opened FilterMeaning
  import opened Rebind

  // ----- the order of record ids -----

  predicate After(after: Option<string>, id: string) {
    after == None || Before(after.value, id)
  }

  predicate Ascending(ids: seq<string>) {
    forall i, j :: 0 <= i < j < |ids| ==> Before(ids[i], ids[j])
  }

  // ----- one page -----

  /** SELECT … WHERE matching AND _id > after ORDER BY _id ASC LIMIT limit: the first `limit` matching
      ids beyond the cursor, in order. */
  predicate Answers(matching: set<string>, after: Option<string>, limit: nat, rows: seq<string>) {
    && Ascending(rows) && |rows| <= limit
    && (forall i :: 0 <= i < |rows| ==> rows[i] in matching && After(after, rows[i]))
    && (forall id :: id in matching && After(after, id) && id !in rows ==>
          |rows| == limit && forall i :: 0 <= i < |rows| ==> Before(rows[i], id))
  }

  // ----- the answer to a list statement -----

  /** A table as a list statement sees it: the values of each record's columns, and the place of each
      record's value in the order of a column. */
  datatype Data = Data(d: Dialect, rows: map<string, Values>, rank: map<(string, string), int>)

  function Rank(t: Data, column: string, id: string): int {
    if (column, id) in t.rank then t.rank[(column, id)] else 0
  }

  /** The record's row; its id is a column of it. */
  function RowAt(t: Data, id: string): Values {
    (if id in t.rows then t.rows[id] else map[])[ID_COLUMN := TextValue(id)]
  }

  predicate Holds(t: Data, c: Cond, id: string) { CondHolds(t.d, c, RowAt(t, id)) }

  function Matches(t: Data, conds: seq<Cond>): set<string> {
    set id | id in t.rows && AllHold(t.d, conds, RowAt(t, id))
  }

  /** ORDER BY the sort column, then by id where the two differ. */
  predicate Precedes(t: Data, p: Plan, a: string, b: string) {
    if p.sort == ID_COLUMN then if p.descending then Before(b, a) else Before(a, b)
    else
      var x, y := Rank(t, p.sort, a), Rank(t, p.sort, b);
      if x == y then Before(a, b) else if p.descending then y < x else x < y
  }

  /** The rows a planned statement returns: the first `limit` matches in its order. */
  predicate Answer(t: Data, p: Plan, rows: seq<string>) {
    var matching := Matches(t, p.conds);
    && (forall i, j :: 0 <= i < j < |rows| ==> Precedes(t, p, rows[i], rows[j])) && |rows| <= p.limit
    && (forall i :: 0 <= i < |rows| ==> rows[i] in matching)
    && (forall id :: id in matching && id !in rows ==>
          |rows| == p.limit && forall i :: 0 <= i < |rows| ==> Precedes(t, p, rows[i], id))
  }

  // ----- the answer by the statement -----

  /** By the sort keys of a statement, the earlier ones first. */
  predicate KeyPrecedes(t: Data, keys: seq<Key>, a: string, b: string) {
    if keys == [] then false
    else if keys[0].column == ID_COLUMN then
      (if keys[0].descending then Before(b, a) else Before(a, b)) || (a == b && KeyPrecedes(t, keys[1..], a, b))
    else
      var x, y := Rank(t, keys[0].column, a), Rank(t, keys[0].column, b);
      if x == y then KeyPrecedes(t, keys[1..], a, b) else if keys[0].descending then y < x else x < y
  }

  /** What the database returns for a statement and its arguments: the first rows, as many as the last argument
      says, that pass the statement's tests, in its order. */
  ghost predicate Returns(t: Data, statement: string, args: seq<Arg>, rows: seq<string>) {
    var asked := Read(statement);
    && asked.Some? && args != [] && args[|args| - 1].LimitArg?
    && var limit := args[|args| - 1].limit;
    && (forall i, j :: 0 <= i < j < |rows| ==> KeyPrecedes(t, asked.value.order, rows[i], rows[j])) && |rows| <= limit
    && (forall i :: 0 <= i < |rows| ==> rows[i] in t.rows && Meets(t.d, asked.value.tests, args, RowAt(t, rows[i])))
    && (forall id :: id in t.rows && Meets(t.d, asked.value.tests, args, RowAt(t, id)) && id !in rows ==>
          |rows| == limit && forall i :: 0 <= i < |rows| ==> KeyPrecedes(t, asked.value.order, rows[i], id))
  }

  lemma KeysPrecede(t: Data, p: Plan, a: string, b: string)
    ensures KeyPrecedes(t, KeysOf(p), a, b) <==> Precedes(t, p, a, b)
  {
    BeforeTotal(a, b);
    hide Before;
    assert KeyPrecedes(t, [], a, b) == false;
    assert [Key(ID_COLUMN, false)][1..] == [];
    assert [Key(p.sort, p.descending), Key(ID_COLUMN, false)][1..] == [Key(ID_COLUMN, false)];
    assert [Key(ID_COLUMN, p.descending)][1..] == [];
  }

  /** The rows of a plan are those the database returns for its statement text and arguments. */
  lemma AnswerIsReturned(t: Data, p: Plan, rows: seq<string>)
    requires AllSpellable(p.conds)
    ensures Answer(t, p, rows) <==> Returns(t, Statement(p, false), Arguments(p), rows)
  {
    hide KeyPrecedes, Precedes, Meets, CondHolds, RowAt, Read, Statement, KeysOf, AllSpellable;
    StatementReads(p);
    forall id
      ensures Meets(t.d, TestsOf(p.conds), Arguments(p), RowAt(t, id)) <==> forall k :: 0 <= k < |p.conds| ==> Holds(t, p.conds[k], id)
    {
      MeetsIsAll(t.d, p.conds, [LimitArg(p.limit)], RowAt(t, id));
    }
    forall a, b
      ensures KeyPrecedes(t, KeysOf(p), a, b) <==> Precedes(t, p, a, b)
    {
      KeysPrecede(t, p, a, b);
    }
  }

  /** So the answers of a walk are what the database returns for the statements of its requests. */
  lemma PlannedIsReturned(t: Data, q: Request, cursor: Cursor, rows: seq<string>)
    requires PlanAt(q, cursor).Built?
    ensures var p := PlanAt(q, cursor).value; Answer(t, p, rows) <==> Returns(t, Statement(p, false), Arguments(p), rows)
  {
    hide Answer, Returns, Statement, AllSpellable;
    PlansAreSpellable(q.d, q.table, q.columns, q.clauses, "", cursor, q.limit);
    AnswerIsReturned(t, PlanAt(q, cursor).value, rows);
  }

  // ----- one page -----

  /** The rows the row rule shows, in order. */
  function Visible(rows: seq<string>, shown: set<string>): (r: seq<string>)
    ensures |r| <= |rows|
  {
    if rows == [] then []
    else
      Visible(rows[..|rows| - 1], shown) + if rows[|rows| - 1] in shown then [rows[|rows| - 1]] else []
  }

  /** The rows loop of list: hidden rows are skipped, and a cursor is issued when the page is full. */
  method List(rows: seq<string>, shown: set<string>, limit: nat) returns (items: seq<string>, next: Option<string>)
    requires limit >= 1
    ensures items == Visible(rows, shown)
    ensures next == if |items| == limit then Some(items[limit - 1]) else None
  {
    items := [];
    for i := 0 to |rows|
      invariant items == Visible(rows[..i], shown)
    {
      assert rows[..i + 1][..i] == rows[..i];
      if rows[i] in shown { items := items + [rows[i]]; }
    }
    assert rows[..|rows|] == rows;
    next := None;
    if |items| == limit { next := Some(items[|items| - 1]); }
  }

  predicate AllShown(rows: seq<string>, shown: set<string>) {
    forall i :: 0 <= i < |rows| ==> rows[i] in shown
  }

  lemma {:induction false} VisibleExactly(rows: seq<string>, shown: set<string>)
    ensures |Visible(rows, shown)| == |rows| <==> AllShown(rows, shown)
    ensures AllShown(rows, shown) ==> Visible(rows, shown) == rows
    ensures forall id :: id in Visible(rows, shown) <==> id in rows && id in shown
  {
    if rows != [] {
      hide AllShown;
      var before, last := rows[..|rows| - 1], rows[|rows| - 1];
      VisibleExactly(before, shown);
      AllShownJoin(before, last, shown);
      assert rows == before + [last];
    }
  }

  lemma AllShownJoin(before: seq<string>, last: string, shown: set<string>)
    ensures AllShown(before + [last], shown) <==> AllShown(before, shown) && last in shown
  {
    assert (before + [last])[|before|] == last;
    assert forall i :: 0 <= i < |before| ==> (before + [last])[i] == before[i];
  }

  /** A page issues a cursor if and only if its answer is full and every row of it shows; the cursor is
      then the answer's last row. */
  lemma CursorIssued(rows: seq<string>, shown: set<string>, limit: nat)
    requires |rows| <= limit
    ensures |Visible(rows, shown)| == limit <==> |rows| == limit && AllShown(rows, shown)
    ensures |Visible(rows, shown)| == limit ==> Visible(rows, shown) == rows
  {
    VisibleExactly(rows, shown);
  }

  lemma {:induction false} VisibleJoin(a: seq<string>, b: seq<string>, shown: set<string>)
    ensures Visible(a + b, shown) == Visible(a, shown) + Visible(b, shown)
  {
    if b == [] {
      assert a + b == a;
    } else {
      VisibleJoin(a, b[..|b| - 1], shown);
      assert (a + b)[..|a + b| - 1] == a + b[..|b| - 1];
    }
  }

  // ----- a walk -----

  /** The requests of a walk: default sort, one filter, one limit. */
  datatype Request = Request(d: Dialect, table: string, columns: seq<Column>, clauses: seq<Clause>, limit: nat)

  function PlanAt(q: Request, cursor: Cursor): Outcome<Plan> {
    Planned(q.d, q.table, q.columns, q.clauses, "", cursor, q.limit)
  }

  predicate Full(rows: seq<string>, shown: set<string>, limit: nat) { |Visible(rows, shown)| == limit }

  /** The cursor of request k: the last item of the full page before it. */
  function CursorAt(answers: seq<seq<string>>, k: nat, shown: set<string>, limit: nat): Cursor
    requires limit >= 1 && k <= |answers| && forall j :: 0 <= j < k ==> Full(answers[j], shown, limit)
  {
    if k == 0 then NoCursor
    else
      assert Full(answers[k - 1], shown, limit);
      From(Visible(answers[k - 1], shown)[limit - 1])
  }

  /** Answers fetched one after the other, each from the cursor of the page before; every page but the
      last is full. */
  predicate Walk(q: Request, t: Data, shown: set<string>, answers: seq<seq<string>>) {
    && q.limit >= 1 && t.d == q.d
    && (forall j :: 0 <= j < |answers| - 1 ==> Full(answers[j], shown, q.limit))
    && forall k :: 0 <= k < |answers| ==>
         && PlanAt(q, CursorAt(answers, k, shown, q.limit)).Built?
         && Answer(t, PlanAt(q, CursorAt(answers, k, shown, q.limit)).value, answers[k])
  }

  /** The last page issued no cursor. */
  predicate Finished(q: Request, t: Data, shown: set<string>, answers: seq<seq<string>>) {
    Walk(q, t, shown, answers) && answers != [] && !Full(answers[|answers| - 1], shown, q.limit)
  }

  function Flatten(pages: seq<seq<string>>): seq<string> {
    if pages == [] then [] else Flatten(pages[..|pages| - 1]) + pages[|pages| - 1]
  }

  // ----- the plan of each request -----

  /** No field of the collection is called id, and physical columns are never called _id. */
  predicate NoIdField(columns: seq<Column>) { forall i :: 0 <= i < |columns| ==> columns[i].name != "id" }

  predicate PhysicalColumns(columns: seq<Column>) { forall i :: 0 <= i < |columns| ==> columns[i].column != ID_COLUMN }

  lemma {:induction false} IdTarget(columns: seq<Column>)
    requires PhysicalColumns(columns)
    ensures "id" in Targets(columns) && (Targets(columns)["id"].column == ID_COLUMN <==> NoIdField(columns))
  {
    if columns != [] {
      IdTarget(columns[..|columns| - 1]);
      assert columns == columns[..|columns| - 1] + [columns[|columns| - 1]];
    }
  }

  /** The cursor of a page is accepted by the next request with the same filter, which asks for the same
      conditions and ids beyond the cursor, in the same order: by id exactly when no field is called id. */
  lemma NextRequestAccepted(q: Request, id: string)
    requires PlanAt(q, NoCursor).Built? && ValidId(id) && PhysicalColumns(q.columns)
    ensures var first := PlanAt(q, NoCursor).value;
      && PlanAt(q, From(id)) == Built(first.(conds := first.conds + [Compare(ID_COLUMN, ">", TextArg(id))]))
      && (first.sort == ID_COLUMN <==> NoIdField(q.columns)) && !first.descending && first.limit == q.limit
  {
    hide AcceptAll, Targets, ValidId;
    assert SortName("") == ("id", false);
    IdTarget(q.columns);
  }

  lemma IdHolds(t: Data, id: string, m: string)
    ensures Holds(t, Compare(ID_COLUMN, ">", TextArg(id)), m) <==> Before(id, m)
  {
    hide CondHolds, Before;
    CursorHolds(t.d, id, RowAt(t, m));
  }

  lemma CursorMatches(t: Data, conds: seq<Cond>, id: string)
    ensures Matches(t, conds + [Compare(ID_COLUMN, ">", TextArg(id))]) == set m | m in Matches(t, conds) && Before(id, m)
  {
    hide Before, CondHolds;
    var more := conds + [Compare(ID_COLUMN, ">", TextArg(id))];
    forall m
      ensures m in Matches(t, more) <==> m in Matches(t, conds) && Before(id, m)
    {
      IdHolds(t, id, m);
      if m in Matches(t, more) {
        assert Holds(t, more[|conds|], m);
        assert forall k :: 0 <= k < |conds| ==> more[k] == conds[k];
      }
    }
  }

  function Beyond(cursor: Cursor): Option<string> { if cursor.From? then Some(cursor.id) else None }

  /** When no field is called id, the statement answers with the first matches beyond the cursor in id
      order. */
  lemma AnswersById(q: Request, t: Data, cursor: Cursor, rows: seq<string>)
    requires PhysicalColumns(q.columns) && NoIdField(q.columns) && PlanAt(q, cursor).Built? && !cursor.BadCursor?
    requires Answer(t, PlanAt(q, cursor).value, rows)
    ensures PlanAt(q, NoCursor).Built?
    ensures Answers(Matches(t, PlanAt(q, NoCursor).value.conds), Beyond(cursor), q.limit, rows)
  {
    hide AcceptAll, Targets, Before, Matches;
    FirstPlan(q, cursor);
    if cursor.From? {
      NextRequestAccepted(q, cursor.id);
      CursorMatches(t, PlanAt(q, NoCursor).value.conds, cursor.id);
    } else {
      IdTarget(q.columns);
    }
  }

  lemma FirstPlan(q: Request, cursor: Cursor)
    requires PlanAt(q, cursor).Built?
    ensures PlanAt(q, NoCursor).Built? && PlanAt(q, NoCursor).value.limit == q.limit && !PlanAt(q, NoCursor).value.descending
    ensures cursor.From? ==> ValidId(cursor.id)
    ensures PhysicalColumns(q.columns) && NoIdField(q.columns) ==> PlanAt(q, NoCursor).value.sort == ID_COLUMN
  {
    hide AcceptAll, Targets;
    assert SortName("") == ("id", false);
    if PhysicalColumns(q.columns) { IdTarget(q.columns); }
  }

  /** The pages by id: what the requests of a walk amount to when no field is called id. */
  predicate Pages(matching: set<string>, limit: nat, answers: seq<seq<string>>) {
    && limit >= 1
    && (forall j :: 0 <= j < |answers| - 1 ==> |answers[j]| == limit)
    && forall k :: 0 <= k < |answers| ==> Answers(matching, LastOf(answers, k), limit, answers[k])
  }

  /** The last id of the page before. */
  function LastOf(answers: seq<seq<string>>, k: nat): Option<string>
    requires k <= |answers|
  {
    if k == 0 || answers[k - 1] == [] then None else Some(answers[k - 1][|answers[k - 1]| - 1])
  }

  lemma WalkIsPages(q: Request, t: Data, shown: set<string>, answers: seq<seq<string>>)
    requires PhysicalColumns(q.columns) && NoIdField(q.columns) && Walk(q, t, shown, answers) && answers != []
    ensures PlanAt(q, NoCursor).Built? && Pages(Matches(t, PlanAt(q, NoCursor).value.conds), q.limit, answers)
    ensures forall j :: 0 <= j < |answers| - 1 ==> AllShown(answers[j], shown)
  {
    hide Planned, Answer, Matches, Answers, Before;
    forall k | 0 <= k < |answers|
      ensures PlanAt(q, NoCursor).Built? && |answers[k]| <= q.limit
      ensures Answers(Matches(t, PlanAt(q, NoCursor).value.conds), Beyond(CursorAt(answers, k, shown, q.limit)), q.limit, answers[k])
    {
      AnswersById(q, t, CursorAt(answers, k, shown, q.limit), answers[k]);
      AnswersAreShort(Matches(t, PlanAt(q, NoCursor).value.conds), Beyond(CursorAt(answers, k, shown, q.limit)), q.limit, answers[k]);
    }
    forall j | 0 <= j < |answers| && Full(answers[j], shown, q.limit)
      ensures |answers[j]| == q.limit && AllShown(answers[j], shown) && Visible(answers[j], shown) == answers[j]
    {
      CursorIssued(answers[j], shown, q.limit);
    }
    forall k | 0 <= k < |answers|
      ensures Beyond(CursorAt(answers, k, shown, q.limit)) == LastOf(answers, k)
    {
      if k > 0 { assert Full(answers[k - 1], shown, q.limit); }
    }
    assert answers[0] in answers;
  }

  lemma AnswersAreShort(matching: set<string>, after: Option<string>, limit: nat, rows: seq<string>)
    requires Answers(matching, after, limit, rows)
    ensures |rows| <= limit
  {
  }

  // ----- what the pages cover -----

  /** What the first full pages hold: every matching id up to the last one read, in order. */
  predicate Covers(matching: set<string>, last: Option<string>, ids: seq<string>) {
    && Ascending(ids)
    && (forall i :: 0 <= i < |ids| ==> ids[i] in matching && !After(last, ids[i]))
    && (forall id :: id in matching && !After(last, id) ==> id in ids)
  }

  lemma AscendingJoin(a: seq<string>, last: Option<string>, b: seq<string>)
    requires Ascending(a) && Ascending(b)
    requires forall i :: 0 <= i < |a| ==> !After(last, a[i])
    requires forall i :: 0 <= i < |b| ==> After(last, b[i])
    ensures Ascending(a + b)
  {
    hide Before;
    var s := a + b;
    forall i, j | 0 <= i < j < |s|
      ensures Before(s[i], s[j])
    {
      if i < |a| <= j {
        BeforeTotal(a[i], last.value);
        if a[i] != last.value { BeforeTransitive(a[i], last.value, b[j - |a|]); }
      }
    }
  }

  /** One more full page extends what is covered to its own last id. */
  lemma CoversMore(matching: set<string>, last: Option<string>, ids: seq<string>, limit: nat, page: seq<string>)
    requires Covers(matching, last, ids) && limit >= 1 && |page| == limit && Answers(matching, last, limit, page)
    ensures Covers(matching, Some(page[limit - 1]), ids + page)
  {
    hide Before;
    AscendingJoin(ids, last, page);
    var end := page[limit - 1];
    forall i | 0 <= i < |page|
      ensures !Before(end, page[i])
    {
      BeforeTotal(page[i], end);
    }
    forall i | 0 <= i < |ids|
      ensures !Before(end, ids[i])
    {
      BeforeTotal(end, ids[i]);
      if Before(end, ids[i]) { BeforeTransitive(last.value, end, ids[i]); }
    }
    forall id | id in matching && !Before(end, id)
      ensures id in ids + page
    {
      if After(last, id) {
        BeforeTotal(end, id);
        assert id in page;
      }
    }
  }

  lemma FlattenOneMore(pages: seq<seq<string>>, k: nat)
    requires k < |pages|
    ensures Flatten(pages[..k + 1]) == Flatten(pages[..k]) + pages[k]
    ensures Flatten(pages[..0]) == []
  {
    assert pages[..k + 1][..k] == pages[..k];
  }

  lemma {:induction false} FullPagesCover(matching: set<string>, limit: nat, pages: seq<seq<string>>, k: nat)
    requires limit >= 1 && Pages(matching, limit, pages) && 1 <= k <= |pages| && forall j :: 0 <= j < k ==> |pages[j]| == limit
    ensures Covers(matching, LastOf(pages, k), Flatten(pages[..k]))
  {
    hide Covers, Answers, Before, Flatten;
    FlattenOneMore(pages, k - 1);
    assert Answers(matching, LastOf(pages, k - 1), limit, pages[k - 1]);
    if k == 1 {
      FirstPageCovers(matching, limit, pages[0]);
      assert [] + pages[0] == pages[0];
    } else {
      FullPagesCover(matching, limit, pages, k - 1);
      CoversMore(matching, LastOf(pages, k - 1), Flatten(pages[..k - 1]), limit, pages[k - 1]);
    }
  }

  lemma {:induction false} FullPagesCount(limit: nat, pages: seq<seq<string>>, k: nat)
    requires k <= |pages| && forall j :: 0 <= j < k ==> |pages[j]| == limit
    ensures |Flatten(pages[..k])| == k * limit
  {
    if k > 0 {
      FlattenOneMore(pages, k - 1);
      FullPagesCount(limit, pages, k - 1);
      assert k * limit == (k - 1) * limit + limit;
    }
  }

  lemma FirstPageCovers(matching: set<string>, limit: nat, page: seq<string>)
    requires limit >= 1 && |page| == limit && Answers(matching, None, limit, page)
    ensures Covers(matching, Some(page[limit - 1]), page)
  {
    hide Before;
    var end := page[limit - 1];
    forall i | 0 <= i < |page|
      ensures !Before(end, page[i])
    {
      BeforeTotal(page[i], end);
    }
    forall id | id in matching && !Before(end, id)
      ensures id in page
    {
      BeforeTotal(end, id);
    }
  }

  /** Every matching record, once, in order. */
  predicate ListsExactly(matching: set<string>, ids: seq<string>) {
    Ascending(ids) && (forall i :: 0 <= i < |ids| ==> ids[i] in matching) && forall id :: id in matching ==> id in ids
  }

  lemma LastPageFinishes(matching: set<string>, last: Option<string>, ids: seq<string>, limit: nat, page: seq<string>)
    requires Covers(matching, last, ids) && last.Some? && |page| < limit && Answers(matching, last, limit, page)
    ensures ListsExactly(matching, ids + page)
  {
    hide Before;
    AscendingJoin(ids, last, page);
  }

  lemma OnlyPage(matching: set<string>, limit: nat, page: seq<string>)
    requires |page| < limit && Answers(matching, None, limit, page)
    ensures ListsExactly(matching, page)
  {
  }

  /** Ids in order with the same elements are the same sequence. */
  lemma {:induction false} AscendingIsUnique(a: seq<string>, b: seq<string>)
    requires Ascending(a) && Ascending(b) && forall id :: id in a <==> id in b
    ensures a == b
    decreases |a|
  {
    hide Before;
    if a == [] {
      FirstIsIn(b);
    } else {
      assert a[0] in b;
      HeadIsLeast(a, b);
      HeadIsLeast(b, a);
      BeforeTotal(a[0], b[0]);
      RestHasRest(a, b);
      RestHasRest(b, a);
      AscendingIsUnique(a[1..], b[1..]);
      assert a == [a[0]] + a[1..] && b == [b[0]] + b[1..];
    }
  }

  lemma FirstIsIn(b: seq<string>)
    ensures b != [] ==> exists id :: id in b
  {
    if b != [] { assert b[0] in b; }
  }

  lemma HeadIsLeast(a: seq<string>, b: seq<string>)
    requires Ascending(a) && a != [] && b != [] && forall id :: id in b ==> id in a
    ensures a[0] == b[0] || Before(a[0], b[0])
  {
    hide Before;
    assert b[0] in b;
    var i :| 0 <= i < |a| && a[i] == b[0];
  }

  lemma RestHasRest(a: seq<string>, b: seq<string>)
    requires Ascending(a) && Ascending(b) && a != [] && b != [] && a[0] == b[0] && forall id :: id in a ==> id in b
    ensures forall id :: id in a[1..] ==> id in b[1..]
  {
    hide Before;
    forall id | id in a[1..]
      ensures id in b[1..]
    {
      var i :| 1 <= i < |a| && a[i] == id;
      assert a[i] in a;
      var j :| 0 <= j < |b| && b[j] == id;
      BeforeTotal(a[0], a[i]);
    }
  }

  /** What is covered is the beginning of the whole list. */
  lemma CoveredIsPrefix(matching: set<string>, last: Option<string>, ids: seq<string>, all: seq<string>)
    requires Covers(matching, last, ids) && last.Some? && ListsExactly(matching, all)
    ensures |ids| <= |all| && ids == all[..|ids|]
  {
    hide Before;
    var n := CutAt(all, last.value);
    forall id
      ensures id in all[..n] <==> id in ids
    {
      if id in all[..n] {
        var i :| 0 <= i < n && all[i] == id;
        assert id in matching && !Before(last.value, all[i]);
      }
      if id in ids {
        var i :| 0 <= i < |all| && all[i] == id;
        assert i < n;
        assert all[..n][i] == id;
      }
    }
    AscendingIsUnique(all[..n], ids);
  }

  /** How many ids of an ordered list are not beyond an id. */
  lemma {:induction false} CutAt(all: seq<string>, last: string) returns (n: nat)
    requires Ascending(all)
    ensures n <= |all| && forall i :: 0 <= i < |all| ==> (i < n <==> !Before(last, all[i]))
  {
    hide Before;
    if all == [] {
      n := 0;
    } else {
      var before := all[..|all| - 1];
      n := CutAt(before, last);
      if n == |before| && !Before(last, all[|all| - 1]) {
        n := |all|;
      } else if n < |before| {
        assert Before(last, before[n]);
        BeforeTransitive(last, all[n], all[|all| - 1]);
      }
    }
  }

  /** The rows a finished walk fetched: the first m of the whole list, all of them when the last answer
      came back short, else as many as the full answers held. */
  lemma PagesFetchPrefix(matching: set<string>, limit: nat, pages: seq<seq<string>>, all: seq<string>)
    requires Pages(matching, limit, pages) && pages != [] && ListsExactly(matching, all)
    ensures |Flatten(pages)| <= |all| && Flatten(pages) == all[..|Flatten(pages)|]
    ensures |pages[|pages| - 1]| < limit ==> Flatten(pages) == all
    ensures |pages[|pages| - 1]| == limit ==> |Flatten(pages)| == |pages| * limit
  {
    hide Covers, Answers, Before, ListsExactly, Flatten, Ascending;
    var k := |pages| - 1;
    assert pages[..k + 1] == pages;
    FlattenOneMore(pages, k);
    assert Answers(matching, LastOf(pages, k), limit, pages[k]);
    AnswersAreShort(matching, LastOf(pages, k), limit, pages[k]);
    if |pages[k]| == limit {
      FullPagesCover(matching, limit, pages, k + 1);
      FullPagesCount(limit, pages, k + 1);
      CoveredIsPrefix(matching, LastOf(pages, k + 1), Flatten(pages), all);
    } else {
      ShortPagesListAll(matching, limit, pages);
      SameList(matching, Flatten(pages), all);
    }
  }

  lemma SameList(matching: set<string>, a: seq<string>, b: seq<string>)
    requires ListsExactly(matching, a) && ListsExactly(matching, b)
    ensures a == b
  {
    hide Before;
    AscendingIsUnique(a, b);
  }

  lemma ShortPagesListAll(matching: set<string>, limit: nat, pages: seq<seq<string>>)
    requires Pages(matching, limit, pages) && |pages| >= 1 && |pages[|pages| - 1]| < limit
    ensures ListsExactly(matching, Flatten(pages))
  {
    hide Covers, Answers, Before, ListsExactly, Flatten;
    var k := |pages| - 1;
    FlattenOneMore(pages, k);
    assert pages[..k + 1] == pages;
    assert Answers(matching, LastOf(pages, k), limit, pages[k]);
    if k == 0 {
      OnlyPage(matching, limit, pages[0]);
      assert [] + pages[0] == pages[0];
    } else {
      FullPagesCover(matching, limit, pages, k);
      LastPageFinishes(matching, LastOf(pages, k), Flatten(pages[..k]), limit, pages[k]);
    }
  }

  lemma AscendingIsDistinct(ids: seq<string>, of: set<string>)
    requires Ascending(ids) && forall i :: 0 <= i < |ids| ==> ids[i] in of
    ensures |ids| <= |of|
    decreases |ids|
  {
    hide Before;
    if ids != [] {
      var last, before := ids[|ids| - 1], ids[..|ids| - 1];
      forall i | 0 <= i < |before|
        ensures before[i] in of - {last}
      {
        BeforeTotal(before[i], last);
      }
      AscendingIsDistinct(before, of - {last});
    }
  }

  lemma PagesEnd(matching: set<string>, limit: nat, pages: seq<seq<string>>, k: nat)
    requires limit >= 1 && Pages(matching, limit, pages) && k <= |pages| && forall j :: 0 <= j < k ==> |pages[j]| == limit
    ensures k * limit <= |matching|
  {
    hide Answers, Before, Walk;
    FullPagesCount(limit, pages, k);
    if k > 0 {
      FullPagesCover(matching, limit, pages, k);
      AscendingIsDistinct(Flatten(pages[..k]), matching);
    }
  }

  // ----- what a walk lists -----

  /** The items of all pages. */
  function Items(answers: seq<seq<string>>, shown: set<string>): seq<string> {
    if answers == [] then [] else Items(answers[..|answers| - 1], shown) + Visible(answers[|answers| - 1], shown)
  }

  lemma {:induction false} ItemsAreVisible(answers: seq<seq<string>>, shown: set<string>)
    ensures Items(answers, shown) == Visible(Flatten(answers), shown)
  {
    if answers != [] {
      ItemsAreVisible(answers[..|answers| - 1], shown);
      VisibleJoin(Flatten(answers[..|answers| - 1]), answers[|answers| - 1], shown);
    }
  }

  /** The ids of a set, in order. */
  lemma {:induction false} Enumerate(matching: set<string>) returns (all: seq<string>)
    ensures ListsExactly(matching, all)
  {
    if matching == {} {
      all := [];
    } else {
      var x :| x in matching;
      var rest := Enumerate(matching - {x});
      var n := CutAt(rest, x);
      all := rest[..n] + [x] + rest[n..];
      InsertedInOrder(matching, rest, x, n);
    }
  }

  lemma EndsInOrder(a: seq<string>, x: string)
    requires Ascending(a) && forall i :: 0 <= i < |a| ==> Before(a[i], x)
    ensures Ascending(a + [x])
  {
    hide Before;
  }

  lemma InsertedInOrder(matching: set<string>, rest: seq<string>, x: string, n: nat)
    requires x in matching && ListsExactly(matching - {x}, rest) && n <= |rest|
    requires forall i :: 0 <= i < |rest| ==> (i < n <==> !Before(x, rest[i]))
    ensures ListsExactly(matching, rest[..n] + [x] + rest[n..])
  {
    hide Before;
    forall i | 0 <= i < n
      ensures Before(rest[i], x)
    {
      assert rest[i] in matching - {x};
      BeforeTotal(rest[i], x);
    }
    EndsInOrder(rest[..n], x);
    BeforeTotal(x, x);
    AscendingJoin(rest[..n] + [x], Some(x), rest[n..]);
    InsertedElements(matching, rest, x, n);
  }

  lemma InsertedElements(matching: set<string>, rest: seq<string>, x: string, n: nat)
    requires x in matching && n <= |rest|
    requires forall id :: id in rest <==> id in matching - {x}
    ensures forall id :: id in rest[..n] + [x] + rest[n..] <==> id in matching
  {
    assert rest == rest[..n] + rest[n..];
    forall id
      ensures id in rest[..n] + [x] + rest[n..] <==> id in rest || id == x
    {
    }
  }

  /** A full answer of the list, the j-th block of `limit` matches, contains a hidden row. */
  ghost predicate HiddenIn(all: seq<string>, shown: set<string>, limit: nat, j: nat) {
    (j + 1) * limit <= |all| && exists h :: j * limit <= h < (j + 1) * limit && all[h] !in shown
  }

  /** A visible match lies beyond a full answer that contains a hidden row. */
  ghost predicate LosesRows(all: seq<string>, shown: set<string>, limit: nat) {
    exists j: nat, i: nat :: HiddenIn(all, shown, limit, j) && (j + 1) * limit <= i < |all| && all[i] in shown
  }

  lemma Next(j: nat, limit: nat)
    ensures (j + 1) * limit == j * limit + limit
  {
  }

  lemma {:induction false} TimesGrow(j: nat, k: nat, limit: nat)
    requires j <= k
    ensures j * limit <= k * limit
  {
    if j < k {
      TimesGrow(j, k - 1, limit);
      Next(k - 1, limit);
    }
  }

  lemma TimesStrict(j: nat, k: nat, limit: nat)
    requires j * limit < k * limit
    ensures j < k
  {
    if k <= j { TimesGrow(k, j, limit); }
  }

  /** The full pages before the last show all their rows. */
  lemma {:induction false} ShownSoFar(answers: seq<seq<string>>, shown: set<string>, k: nat)
    requires k <= |answers| && forall j :: 0 <= j < k ==> AllShown(answers[j], shown)
    ensures AllShown(Flatten(answers[..k]), shown)
  {
    if k > 0 {
      FlattenOneMore(answers, k - 1);
      ShownSoFar(answers, shown, k - 1);
    }
  }

  lemma NothingLost(all: seq<string>, shown: set<string>, limit: nat, k: nat)
    requires limit >= 1 && k * limit <= |all| < (k + 1) * limit && AllShown(all[..k * limit], shown)
    ensures !LosesRows(all, shown, limit)
  {
    forall j: nat, i: nat
      ensures !(HiddenIn(all, shown, limit, j) && (j + 1) * limit <= i < |all| && all[i] in shown)
    {
      if (j + 1) * limit <= |all| {
        TimesStrict(j + 1, k + 1, limit);
        EarlierBlockShown(all, shown, limit, k, j);
      }
    }
  }

  lemma EarlierBlockShown(all: seq<string>, shown: set<string>, limit: nat, k: nat, j: nat)
    requires k * limit <= |all| && AllShown(all[..k * limit], shown)
    ensures j < k ==> !HiddenIn(all, shown, limit, j)
  {
    if j < k {
      TimesGrow(j + 1, k, limit);
      forall h | j * limit <= h < (j + 1) * limit
        ensures all[h] in shown
      {
        assert all[..k * limit][h] == all[h];
      }
    }
  }

  /** A walk that stopped at a full answer with a hidden row has lost rows exactly when a visible match
      lies beyond it. */
  lemma LostBeyond(all: seq<string>, shown: set<string>, limit: nat, k: nat, m: nat)
    requires limit >= 1 && m == k * limit + limit <= |all| && AllShown(all[..k * limit], shown) && !AllShown(all[k * limit..m], shown)
    ensures LosesRows(all, shown, limit) <==> exists i :: m <= i < |all| && all[i] in shown
  {
    Next(k, limit);
    var x :| 0 <= x < limit && all[k * limit..m][x] !in shown;
    assert all[k * limit + x] !in shown;
    assert HiddenIn(all, shown, limit, k);
    if LosesRows(all, shown, limit) {
      var j: nat, i: nat :| HiddenIn(all, shown, limit, j) && (j + 1) * limit <= i < |all| && all[i] in shown;
      EarlierBlockShown(all, shown, limit, k, j);
      TimesGrow(k + 1, j + 1, limit);
    }
    if i :| m <= i < |all| && all[i] in shown {
      assert (k + 1) * limit <= i;
    }
  }

  lemma NoneVisible(rows: seq<string>, shown: set<string>)
    ensures Visible(rows, shown) == [] <==> forall i :: 0 <= i < |rows| ==> rows[i] !in shown
  {
    VisibleExactly(rows, shown);
    var visible := Visible(rows, shown);
    if visible != [] { assert visible[0] in visible; }
    if i :| 0 <= i < |rows| && rows[i] in shown { assert rows[i] in visible; }
  }

  /** The filter of a walk. */
  function Filter(q: Request): seq<Cond> {
    if PlanAt(q, NoCursor).Built? then PlanAt(q, NoCursor).value.conds else []
  }

  /** The records that satisfy every clause of the request's filter. */
  ghost function Satisfying(t: Data, q: Request): set<string> {
    set id | id in t.rows && AllSatisfied(q.columns, q.clauses, RowAt(t, id))
  }

  lemma RowSatisfies(t: Data, q: Request, id: string)
    requires t.d == q.d && PlanAt(q, NoCursor).Built?
    ensures AllHold(q.d, Filter(q), RowAt(t, id)) <==> AllSatisfied(q.columns, q.clauses, RowAt(t, id))
  {
    hide AllHold, AllSatisfied, BeyondCursor, RowAt, Targets, AcceptAll, SortName, ValidId;
    PlanHolds(q.d, q.table, q.columns, q.clauses, "", NoCursor, q.limit, RowAt(t, id));
    NoCursorHolds(NoCursor, RowAt(t, id));
  }

  lemma MatchesSatisfy(t: Data, q: Request)
    requires t.d == q.d && PlanAt(q, NoCursor).Built?
    ensures Matches(t, Filter(q)) == Satisfying(t, q)
  {
    hide CondHolds, Satisfied, RowAt, Targets, Filter, PlanAt;
    forall id
      ensures id in Matches(t, Filter(q)) <==> id in Satisfying(t, q)
    {
      RowSatisfies(t, q, id);
    }
  }

  lemma WalkSatisfies(q: Request, t: Data, shown: set<string>, answers: seq<seq<string>>)
    requires Walk(q, t, shown, answers) && answers != []
    ensures PlanAt(q, NoCursor).Built? && Matches(t, Filter(q)) == Satisfying(t, q)
  {
    hide Planned, Answer, Matches, Satisfying, Filter;
    FirstPlan(q, CursorAt(answers, 0, shown, q.limit));
    MatchesSatisfy(t, q);
  }

  /** The row-rule theorem. With no field called id, a finished walk lists exactly the visible matches, once
      and in order, if and only if no visible match lies beyond a full answer that contains a hidden
      row. */
  lemma RuledWalkListsExactly(q: Request, t: Data, shown: set<string>, answers: seq<seq<string>>, all: seq<string>)
    requires PhysicalColumns(q.columns) && NoIdField(q.columns) && Finished(q, t, shown, answers)
    requires ListsExactly(Satisfying(t, q), all)
    ensures Items(answers, shown) == Visible(all, shown) <==> !LosesRows(all, shown, q.limit)
  {
    hide Walk, Matches, Satisfying, Filter, Pages, ListsExactly, Flatten, Visible, LosesRows, PlanAt, AllShown;
    var k, limit := |answers| - 1, q.limit;
    var last, m := answers[k], |Flatten(answers)|;
    WalkIsPages(q, t, shown, answers);
    WalkSatisfies(q, t, shown, answers);
    FilterIs(q);
    WalkLimit(q, t, shown, answers);
    PagesFetchPrefix(Matches(t, Filter(q)), limit, answers, all);
    ItemsAreVisible(answers, shown);
    FetchedIffNoneBeyond(all, shown, m);
    FetchedBlocks(Matches(t, Filter(q)), limit, answers, shown, all, k * limit);
    LastIsShort(Matches(t, Filter(q)), limit, answers);
    CursorIssued(last, shown, limit);
    StoppedIffNoneBeyond(all, shown, limit, k, k * limit, m);
  }

  /** The items of the first m rows are all the items exactly when none shows beyond. */
  lemma FetchedIffNoneBeyond(all: seq<string>, shown: set<string>, m: nat)
    requires m <= |all|
    ensures Visible(all[..m], shown) == Visible(all, shown) <==> forall i :: m <= i < |all| ==> all[i] !in shown
  {
    hide Visible;
    assert all == all[..m] + all[m..];
    VisibleJoin(all[..m], all[m..], shown);
    NoneVisible(all[m..], shown);
    assert forall i :: m <= i < |all| ==> all[i] == all[m..][i - m];
  }

  /** Where the walk stopped nothing shows beyond exactly when no rows are lost. */
  lemma StoppedIffNoneBeyond(all: seq<string>, shown: set<string>, limit: nat, k: nat, n: nat, m: nat)
    requires limit >= 1 && n == k * limit && n <= m <= |all| && m - n <= limit && AllShown(all[..n], shown)
    requires m - n == limit ==> !AllShown(all[n..m], shown)
    requires m - n < limit ==> m == |all|
    ensures (forall i :: m <= i < |all| ==> all[i] !in shown) <==> !LosesRows(all, shown, limit)
  {
    hide LosesRows, AllShown;
    Next(k, limit);
    if m - n == limit {
      LostBeyond(all, shown, limit, k, m);
    } else {
      NothingLost(all, shown, limit, k);
    }
  }

  lemma WalkLimit(q: Request, t: Data, shown: set<string>, answers: seq<seq<string>>)
    requires Walk(q, t, shown, answers)
    ensures q.limit >= 1
  {
  }

  lemma LastIsShort(matching: set<string>, limit: nat, answers: seq<seq<string>>)
    requires Pages(matching, limit, answers) && answers != []
    ensures |answers[|answers| - 1]| <= limit
  {
    hide Before;
    assert Answers(matching, LastOf(answers, |answers| - 1), limit, answers[|answers| - 1]);
  }

  lemma PagesAreFull(matching: set<string>, limit: nat, answers: seq<seq<string>>)
    requires Pages(matching, limit, answers)
    ensures forall j :: 0 <= j < |answers| - 1 ==> |answers[j]| == limit
  {
    hide Answers;
  }

  /** Where the rows of the pages stand in the list. */
  lemma FetchedBlocks(matching: set<string>, limit: nat, answers: seq<seq<string>>, shown: set<string>, all: seq<string>, n: nat)
    requires Pages(matching, limit, answers) && answers != [] && n == (|answers| - 1) * limit
    requires forall j :: 0 <= j < |answers| - 1 ==> AllShown(answers[j], shown)
    requires |Flatten(answers)| <= |all| && Flatten(answers) == all[..|Flatten(answers)|]
    ensures var last := answers[|answers| - 1];
      |Flatten(answers)| == n + |last| && AllShown(all[..n], shown) && all[n..n + |last|] == last
  {
    hide *;
    var k := |answers| - 1;
    PagesAreFull(matching, limit, answers);
    assert answers[..k + 1] == answers;
    FlattenOneMore(answers, k);
    FullPagesCount(limit, answers, k);
    ShownSoFar(answers, shown, k);
    HeadAndTail(all, Flatten(answers[..k]), answers[k]);
  }

  lemma HeadAndTail(all: seq<string>, head: seq<string>, tail: seq<string>)
    requires |head + tail| <= |all| && head + tail == all[..|head + tail|]
    ensures all[..|head|] == head && all[|head|..|head + tail|] == tail
  {
    assert all[..|head|] == all[..|head + tail|][..|head|];
    assert all[|head|..|head + tail|] == all[..|head + tail|][|head|..];
  }

  lemma FilterIs(q: Request)
    ensures PlanAt(q, NoCursor).Built? ==> Filter(q) == PlanAt(q, NoCursor).value.conds
  {
  }

  /** A walk is never longer than the table: its full pages hold different matching records. */
  lemma WalkEnds(q: Request, t: Data, shown: set<string>, answers: seq<seq<string>>)
    requires PhysicalColumns(q.columns) && NoIdField(q.columns) && Walk(q, t, shown, answers) && answers != []
    ensures (|answers| - 1) * q.limit <= |Satisfying(t, q)|
  {
    hide Walk, Matches, Satisfying, Filter, Pages, PlanAt;
    WalkIsPages(q, t, shown, answers);
    WalkSatisfies(q, t, shown, answers);
    FilterIs(q);
    WalkLimit(q, t, shown, answers);
    PagesAreFull(Matches(t, Filter(q)), q.limit, answers);
    PagesEnd(Matches(t, Filter(q)), q.limit, answers, |answers| - 1);
  }

  /** With no field called id and no row rule, following the cursors over an unchanging table lists every
      record that satisfies the filter's clauses exactly once and in order. */
  lemma WalkListsExactly(q: Request, t: Data, shown: set<string>, answers: seq<seq<string>>)
    requires PhysicalColumns(q.columns) && NoIdField(q.columns) && Finished(q, t, shown, answers)
    requires Satisfying(t, q) <= shown
    ensures ListsExactly(Satisfying(t, q), Items(answers, shown))
  {
    hide Finished, Satisfying, LosesRows, Visible, Before;
    var all := Enumerate(Satisfying(t, q));
    assert AllShown(all, shown);
    RuledWalkListsExactly(q, t, shown, answers, all);
    NothingHidden(all, shown, q.limit);
    VisibleExactly(all, shown);
  }

  lemma NothingHidden(all: seq<string>, shown: set<string>, limit: nat)
    requires AllShown(all, shown)
    ensures !LosesRows(all, shown, limit)
  {
    forall j: nat
      ensures !HiddenIn(all, shown, limit, j)
    {
    }
  }

  // ----- a field called id -----

  /** Whatever the filter, the limit and the table, the default walk lists exactly the matches. */
  ghost predicate AlwaysComplete(columns: seq<Column>) {
    forall q: Request, t: Data, answers: seq<seq<string>> :: q.columns == columns && Finished(q, t, t.rows.Keys, answers)
      ==> ListsExactly(Satisfying(t, q), Items(answers, t.rows.Keys))
  }

  lemma SatisfyingAreRecords(t: Data, q: Request)
    ensures Satisfying(t, q) <= t.rows.Keys
  {
    hide Satisfied;
  }

  /** The column a field called id gives the default sort. */
  function IdColumn(columns: seq<Column>): string
    requires "id" in Targets(columns)
  {
    Targets(columns)["id"].column
  }

  /** Two records whose id fields order them the other way round. */
  function TwoRecords(d: Dialect, column: string): Data {
    Data(d, map["rec_aa" := map[], "rec_bb" := map[]], map[(column, "rec_aa") := 2, (column, "rec_bb") := 1])
  }

  const LOSING_ANSWERS := [["rec_bb"], []]

  lemma {:induction false} TargetsHaveId(columns: seq<Column>)
    ensures "id" in Targets(columns)
  {
    if columns != [] { TargetsHaveId(columns[..|columns| - 1]); }
  }

  lemma PlansAreBuilt(q: Request)
    requires PhysicalColumns(q.columns) && q.clauses == []
    ensures "id" in Targets(q.columns)
    ensures PlanAt(q, NoCursor) == Built(Plan(q.columns, q.table, [], IdColumn(q.columns), false, q.limit))
    ensures PlanAt(q, From("rec_bb")) ==
      Built(Plan(q.columns, q.table, [Compare(ID_COLUMN, ">", TextArg("rec_bb"))], IdColumn(q.columns), false, q.limit))
  {
    hide Targets;
    TargetsHaveId(q.columns);
    assert SortName("") == ("id", false);
    assert ValidId("rec_bb");
    assert [] + [Compare(ID_COLUMN, ">", TextArg("rec_bb"))] == [Compare(ID_COLUMN, ">", TextArg("rec_bb"))];
  }

  lemma RecordOrder()
    ensures Before("rec_aa", "rec_bb") && !Before("rec_bb", "rec_aa") && !Before("rec_bb", "rec_bb")
  {
    BeforeTotal("rec_aa", "rec_bb");
    BeforeTotal("rec_bb", "rec_bb");
    assert "rec_aa"[1..] == "ec_aa" && "rec_bb"[1..] == "ec_bb";
    assert "ec_aa"[1..] == "c_aa" && "ec_bb"[1..] == "c_bb";
    assert "c_aa"[1..] == "_aa" && "c_bb"[1..] == "_bb";
    assert "_aa"[1..] == "aa" && "_bb"[1..] == "bb";
    assert Before("aa", "bb");
    assert Before("_aa", "_bb");
    assert Before("c_aa", "c_bb");
    assert Before("ec_aa", "ec_bb");
  }

  lemma LosingMatches(d: Dialect, column: string)
    ensures Matches(TwoRecords(d, column), []) == {"rec_aa", "rec_bb"}
    ensures Matches(TwoRecords(d, column), [Compare(ID_COLUMN, ">", TextArg("rec_bb"))]) == {}
  {
    hide Before;
    RecordOrder();
    var t, conds := TwoRecords(d, column), [Compare(ID_COLUMN, ">", TextArg("rec_bb"))];
    hide CondHolds;
    forall id | id in t.rows.Keys
      ensures !Holds(t, conds[0], id)
    {
      IdHolds(t, "rec_bb", id);
    }
  }

  lemma LosingRows(d: Dialect, p: Plan, column: string)
    requires column != ID_COLUMN && p.sort == column && !p.descending && p.limit == 1
    ensures p.conds == [] ==> Answer(TwoRecords(d, column), p, ["rec_bb"])
    ensures p.conds == [Compare(ID_COLUMN, ">", TextArg("rec_bb"))] ==> Answer(TwoRecords(d, column), p, [])
  {
    hide Before, Matches;
    LosingMatches(d, column);
  }

  lemma LosingPages(ids: set<string>)
    requires ids == {"rec_aa", "rec_bb"}
    ensures Visible(["rec_bb"], ids) == ["rec_bb"] && Visible([], ids) == []
    ensures Items(LOSING_ANSWERS, ids) == ["rec_bb"]
  {
    assert ["rec_bb"][..0] == [];
    assert LOSING_ANSWERS[..1] == [["rec_bb"]] && LOSING_ANSWERS[..1][..0] == [];
    assert Items(LOSING_ANSWERS[..1], ids) == Items([], ids) + Visible(["rec_bb"], ids);
  }

  lemma LosingCursors(ids: set<string>)
    requires ids == {"rec_aa", "rec_bb"}
    ensures Full(LOSING_ANSWERS[0], ids, 1) && !Full(LOSING_ANSWERS[1], ids, 1)
    ensures CursorAt(LOSING_ANSWERS, 0, ids, 1) == NoCursor && CursorAt(LOSING_ANSWERS, 1, ids, 1) == From("rec_bb")
  {
    LosingPages(ids);
    hide Visible;
  }

  /** With a field called id the default walk orders by that field while its cursor compares record ids:
      the first page is the record with the smaller field, the second is empty, and the other record is
      never listed. */
  lemma IdFieldLosesARecord(q: Request)
    requires PhysicalColumns(q.columns) && !NoIdField(q.columns) && q.clauses == [] && q.limit == 1
    ensures "id" in Targets(q.columns)
    ensures var t := TwoRecords(q.d, IdColumn(q.columns));
      && Finished(q, t, t.rows.Keys, LOSING_ANSWERS)
      && "rec_aa" in Satisfying(t, q) && "rec_aa" !in Items(LOSING_ANSWERS, t.rows.Keys)
  {
    hide Targets, PlanAt, Matches, Answer, Full, CursorAt, Items, NoIdField, PhysicalColumns;
    IdTarget(q.columns);
    PlansAreBuilt(q);
    var column := IdColumn(q.columns);
    var t := TwoRecords(q.d, column);
    LosingMatches(q.d, column);
    LosingPages(t.rows.Keys);
    LosingCursors(t.rows.Keys);
    LosingRows(q.d, PlanAt(q, NoCursor).value, column);
    LosingRows(q.d, PlanAt(q, From("rec_bb")).value, column);
  }

  /** The paging theorem: the default walk is complete for every filter, limit and table if and only if the
      collection has no field called id. */
  lemma CompleteIffNoIdField(columns: seq<Column>)
    requires PhysicalColumns(columns)
    ensures AlwaysComplete(columns) <==> NoIdField(columns)
  {
    hide Finished, Satisfying, ListsExactly, Items, Targets;
    if NoIdField(columns) {
      forall q: Request, t: Data, answers: seq<seq<string>> | q.columns == columns && Finished(q, t, t.rows.Keys, answers)
        ensures ListsExactly(Satisfying(t, q), Items(answers, t.rows.Keys))
      {
        SatisfyingAreRecords(t, q);
        WalkListsExactly(q, t, t.rows.Keys, answers);
      }
    } else {
      var q := Request(SQLite, "t", columns, [], 1);
      IdFieldLosesARecord(q);
      var t := TwoRecords(q.d, IdColumn(columns));
      MissingIsIncomplete(Satisfying(t, q), Items(LOSING_ANSWERS, t.rows.Keys), "rec_aa");
    }
  }

  lemma MissingIsIncomplete(matching: set<string>, ids: seq<string>, id: string)
    requires id in matching && id !in ids
    ensures !ListsExactly(matching, ids)
  {
  }

  /** Under a row rule a walk can lose a visible record: the first answer is full but hides its second row,
      so no cursor is issued and the third record is never listed. */
  lemma HiddenRowEndsTheWalk(all: seq<string>, shown: set<string>)
    requires |all| == 3 && all[0] in shown && all[1] !in shown && all[2] in shown
    ensures LosesRows(all, shown, 2) && Visible(all[..2], shown) == [all[0]] && all[2] in Visible(all, shown)
  {
    VisibleExactly(all, shown);
    assert HiddenIn(all, shown, 2, 0);
    assert all[..2][..1] == [all[0]] && all[..2][..1][..0] == [];
  }
}
