/** Reading a list statement back: its words, names and marks, and what they ask for. Written from the SQL
    grammar, not from the code that spells statements (internal/records/handler.go, listSQL; internal/query/
    query.go, Compile). */
module SqlReader {
  import opened Base

  // ----- tokens -----

  datatype Token = Word(text: string) | Name(identifier: string) | Sign(text: string) | Mark | Comma

  predicate WordChar(c: char) { 'a' <= c <= 'z' || 'A' <= c <= 'Z' || '0' <= c <= '9' || c == '_' }

  predicate SignChar(c: char) { c in "<>=!" }

  /** The length of the longest prefix of such characters. */
  function WordLength(s: string): (n: nat)
    ensures n <= |s| && (s != "" && WordChar(s[0]) ==> n >= 1)
  {
    if s != "" && WordChar(s[0]) then 1 + WordLength(s[1..]) else 0
  }

  function SignLength(s: string): (n: nat)
    ensures n <= |s| && (s != "" && SignChar(s[0]) ==> n >= 1)
  {
    if s != "" && SignChar(s[0]) then 1 + SignLength(s[1..]) else 0
  }

  /** A quoted name after its opening quote: a doubled quote is a quote of the name. Also what follows. */
  function Unquote(s: string): (r: Option<(string, string)>)
    ensures r.Some? ==> |r.value.1| < |s|
  {
    if s == "" then None
    else if s[0] == '"' && (|s| == 1 || s[1] != '"') then Some(("", s[1..]))
    else
      var width := if s[0] == '"' then 2 else 1;
      match Unquote(s[width..])
      case None => None
      case Some(rest) => Some(([s[0]] + rest.0, rest.1))
  }

  function Prepended(t: Token, rest: Option<seq<Token>>): Option<seq<Token>> {
    if rest.Some? then Some([t] + rest.value) else None
  }

  /** The tokens of a statement; spaces separate them. */
  function Scan(s: string): Option<seq<Token>>
    decreases |s|
  {
    if s == "" then Some([])
    else if s[0] == ' ' then Scan(s[1..])
    else if s[0] == ',' then Prepended(Comma, Scan(s[1..]))
    else if s[0] == '?' then Prepended(Mark, Scan(s[1..]))
    else if s[0] == '"' then
      match Unquote(s[1..])
      case None => None
      case Some(name) => Prepended(Name(name.0), Scan(name.1))
    else if WordChar(s[0]) then Prepended(Word(s[..WordLength(s)]), Scan(s[WordLength(s)..]))
    else if SignChar(s[0]) then Prepended(Sign(s[..SignLength(s)]), Scan(s[SignLength(s)..]))
    else None
  }

  // ----- the grammar of a list statement -----

  /** One condition; a comparison stands for the next argument. */
  datatype Test = IsNull(column: string) | NotNull(column: string) | Compared(column: string, operator: string)

  datatype Key = Key(column: string, descending: bool)

  /** SELECT columns FROM table [WHERE test AND …] ORDER BY key, … LIMIT ?. */
  datatype Selection = Selection(columns: seq<string>, table: string, tests: seq<Test>, order: seq<Key>)

  predicate StartsWith(ts: seq<Token>, first: seq<Token>) { |first| <= |ts| && ts[..|first|] == first }

  /** Names separated by commas, and the rest. */
  function Names(ts: seq<Token>): Option<(seq<string>, seq<Token>)> {
    if ts == [] || !(ts[0].Word? || ts[0].Name?) then None
    else
      var name := if ts[0].Word? then ts[0].text else ts[0].identifier;
      if |ts| > 1 && ts[1] == Comma then
        match Names(ts[2..])
        case None => None
        case Some(rest) => Some(([name] + rest.0, rest.1))
      else Some(([name], ts[1..]))
  }

  /** One test, and the rest. */
  function OneTest(ts: seq<Token>): (r: Option<(Test, seq<Token>)>)
    ensures r.Some? ==> |r.value.1| < |ts|
  {
    if |ts| < 3 || !ts[0].Name? then None
    else if ts[1] == Word("IS") && ts[2] == Word("NULL") then Some((IsNull(ts[0].identifier), ts[3..]))
    else if |ts| > 3 && ts[1] == Word("IS") && ts[2] == Word("NOT") && ts[3] == Word("NULL") then Some((NotNull(ts[0].identifier), ts[4..]))
    else if (ts[1].Sign? || ts[1].Word?) && ts[2] == Mark then Some((Compared(ts[0].identifier, ts[1].text), ts[3..]))
    else None
  }

  function Tests(ts: seq<Token>): Option<(seq<Test>, seq<Token>)>
    decreases |ts|
  {
    match OneTest(ts)
    case None => None
    case Some(first) =>
      if StartsWith(first.1, [Word("AND")]) then
        match Tests(first.1[1..])
        case None => None
        case Some(rest) => Some(([first.0] + rest.0, rest.1))
      else Some(([first.0], first.1))
  }

  function Keys(ts: seq<Token>): Option<(seq<Key>, seq<Token>)> {
    if |ts| < 2 || !ts[0].Name? || ts[1] !in {Word("ASC"), Word("DESC")} then None
    else
      var key := Key(ts[0].identifier, ts[1] == Word("DESC"));
      if |ts| > 2 && ts[2] == Comma then
        match Keys(ts[3..])
        case None => None
        case Some(rest) => Some(([key] + rest.0, rest.1))
      else Some(([key], ts[2..]))
  }

  function OrderOf(ts: seq<Token>): Option<seq<Key>> {
    if !StartsWith(ts, [Word("ORDER"), Word("BY")]) then None
    else
      match Keys(ts[2..])
      case None => None
      case Some(keys) => if keys.1 == [Word("LIMIT"), Mark] then Some(keys.0) else None
  }

  function Parse(ts: seq<Token>): Option<Selection> {
    if !StartsWith(ts, [Word("SELECT")]) then None
    else
      match Names(ts[1..])
      case None => None
      case Some(names) =>
        var rest := names.1;
        if |rest| < 2 || rest[0] != Word("FROM") || !rest[1].Name? then None
        else if StartsWith(rest[2..], [Word("WHERE")]) then
          match Tests(rest[3..])
          case None => None
          case Some(tests) =>
            match OrderOf(tests.1)
            case None => None
            case Some(keys) => Some(Selection(names.0, rest[1].identifier, tests.0, keys))
        else
          match OrderOf(rest[2..])
          case None => None
          case Some(keys) => Some(Selection(names.0, rest[1].identifier, [], keys))
  }

  /** What a statement asks for. */
  function Read(statement: string): Option<Selection> {
    match Scan(statement)
    case None => None
    case Some(ts) => Parse(ts)
  }

  // ----- scanning piece by piece -----

  /** What follows cannot belong to the token before it. */
  predicate Separate(s: string) { s == "" || s[0] == ' ' || s[0] == ',' }

  function Followed(ts: seq<Token>, rest: Option<seq<Token>>): Option<seq<Token>> {
    if rest.Some? then Some(ts + rest.value) else None
  }

  /** The text scans to these tokens wherever it ends. */
  ghost predicate Scans(s: string, ts: seq<Token>) {
    forall r: string :: Separate(r) ==> Scan(s + r) == Followed(ts, Scan(r))
  }

  lemma ScansWhole(s: string, ts: seq<Token>)
    requires Scans(s, ts)
    ensures Scan(s) == Some(ts)
  {
    assert s + "" == s;
    assert Scan(s + "") == Followed(ts, Scan(""));
    assert ts + [] == ts;
  }

  lemma ScansJoin(a: string, b: string, ta: seq<Token>, tb: seq<Token>)
    requires Scans(a, ta) && Scans(b, tb) && b != "" && Separate(b)
    ensures Scans(a + b, ta + tb)
  {
    hide Scan;
    forall r: string | Separate(r)
      ensures Scan(a + b + r) == Followed(ta + tb, Scan(r))
    {
      assert a + b + r == a + (b + r);
      assert Separate(b + r);
      assert Scan(b + r) == Followed(tb, Scan(r));
      assert Scan(a + (b + r)) == Followed(ta, Scan(b + r));
      if Scan(r).Some? { assert ta + (tb + Scan(r).value) == ta + tb + Scan(r).value; }
    }
  }

  /** One character that is a token, or none. */
  lemma ScanFirst(s: string)
    ensures Scan([' '] + s) == Scan(s) && Scan([','] + s) == Prepended(Comma, Scan(s)) && Scan(['?'] + s) == Prepended(Mark, Scan(s))
  {
    assert ([' '] + s)[1..] == s && ([','] + s)[1..] == s && (['?'] + s)[1..] == s;
  }

  lemma SpaceScans(s: string, ts: seq<Token>)
    requires Scans(s, ts)
    ensures Scans(" " + s, ts)
  {
    hide Scan;
    forall r: string | Separate(r)
      ensures Scan(" " + s + r) == Followed(ts, Scan(r))
    {
      assert " " + s + r == [' '] + (s + r);
      ScanFirst(s + r);
    }
  }

  lemma CommaScans(s: string, ts: seq<Token>)
    requires Scans(s, ts)
    ensures Scans("," + s, [Comma] + ts)
  {
    hide Scan;
    forall r: string | Separate(r)
      ensures Scan("," + s + r) == Followed([Comma] + ts, Scan(r))
    {
      assert "," + s + r == [','] + (s + r);
      ScanFirst(s + r);
      assert Scan(s + r) == Followed(ts, Scan(r));
      if Scan(r).Some? { assert [Comma] + (ts + Scan(r).value) == [Comma] + ts + Scan(r).value; }
    }
  }

  predicate IsWord(w: string) { w != "" && forall i :: 0 <= i < |w| ==> WordChar(w[i]) }

  lemma {:induction false} WordEnds(w: string, r: string)
    requires (forall i :: 0 <= i < |w| ==> WordChar(w[i])) && Separate(r)
    ensures WordLength(w + r) == |w|
  {
    if w != "" {
      assert (w + r)[1..] == w[1..] + r;
      WordEnds(w[1..], r);
    } else {
      assert w + r == r;
    }
  }

  lemma ScanWord(w: string, r: string)
    requires IsWord(w) && Separate(r)
    ensures Scan(w + r) == Prepended(Word(w), Scan(r))
  {
    WordEnds(w, r);
    assert (w + r)[..|w|] == w && (w + r)[|w|..] == r;
  }

  lemma WordScans(w: string)
    requires IsWord(w)
    ensures Scans(w, [Word(w)])
  {
    hide Scan, IsWord;
    forall r: string | Separate(r)
      ensures Scan(w + r) == Followed([Word(w)], Scan(r))
    {
      ScanWord(w, r);
    }
  }

  predicate IsSign(w: string) { w != "" && forall i :: 0 <= i < |w| ==> SignChar(w[i]) }

  lemma {:induction false} SignEnds(w: string, r: string)
    requires (forall i :: 0 <= i < |w| ==> SignChar(w[i])) && Separate(r)
    ensures SignLength(w + r) == |w|
  {
    if w != "" {
      assert (w + r)[1..] == w[1..] + r;
      SignEnds(w[1..], r);
    } else {
      assert w + r == r;
    }
  }

  lemma ScanSign(w: string, r: string)
    requires IsSign(w) && Separate(r)
    ensures Scan(w + r) == Prepended(Sign(w), Scan(r))
  {
    SignEnds(w, r);
    assert (w + r)[..|w|] == w && (w + r)[|w|..] == r;
  }

  lemma SignScans(w: string)
    requires IsSign(w)
    ensures Scans(w, [Sign(w)])
  {
    hide Scan, IsSign;
    forall r: string | Separate(r)
      ensures Scan(w + r) == Followed([Sign(w)], Scan(r))
    {
      ScanSign(w, r);
    }
  }

  lemma MarkScans()
    ensures Scans("?", [Mark])
  {
    hide Scan;
    forall r: string | Separate(r)
      ensures Scan("?" + r) == Followed([Mark], Scan(r))
    {
      assert "?" + r == ['?'] + r;
      ScanFirst(r);
    }
  }

  /** Two pieces as one text and one token list. */
  lemma ScansAs(a: string, ta: seq<Token>, b: string, tb: seq<Token>, s: string, ts: seq<Token>)
    requires Scans(a, ta) && Scans(b, tb) && b != "" && Separate(b) && s == a + b && ts == ta + tb
    ensures Scans(s, ts)
  {
    ScansJoin(a, b, ta, tb);
  }

  lemma SpacedWord(s: string, w: string)
    requires IsWord(w) && s == " " + w
    ensures Scans(s, [Word(w)])
  {
    WordScans(w);
    SpaceScans(w, [Word(w)]);
  }

  lemma CommaWord(s: string, w: string)
    requires IsWord(w) && s == "," + w
    ensures Scans(s, [Comma, Word(w)])
  {
    hide Scans;
    WordScans(w);
    CommaScans(w, [Word(w)]);
    assert [Comma] + [Word(w)] == [Comma, Word(w)];
  }

  lemma SpacedMark()
    ensures Scans(" ?", [Mark])
  {
    MarkScans();
    SpaceScans("?", [Mark]);
    assert " " + "?" == " ?";
  }
}
