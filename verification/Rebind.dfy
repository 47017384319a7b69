/** Rewriting placeholders for PostgreSQL (internal/store/dialect.go, RebindPostgres). A statement is a
    sequence of bytes, written here as characters. */
module Rebind {
  import opened Base
  import opened Text

  // ----- what the bytes of a statement are -----

  /** One byte of code, or one whole quoted or commented region with its delimiters. */
  datatype Piece = Sql(c: char) | Shield(text: string)

  /** The pieces of a statement; `closed` says that no quote or block comment runs off its end. */
  datatype Lexed = Lexed(pieces: seq<Piece>, closed: bool)

  predicate IsDigit(c: char) { '0' <= c <= '9' }

  predicate IsQuote(c: char) { c == '\'' || c == '"' }

  function At(s: string, i: nat): Option<char> {
    if i < |s| then Some(s[i]) else None
  }

  /** The position after the quote that closes a region, doubled quotes standing for one. */
  function QuoteEnd(s: string, q: char, i: nat): (end: Option<nat>)
    ensures end.Some? ==> i < end.value <= |s|
    decreases |s| - i
  {
    if i >= |s| then None
    else if s[i] != q then QuoteEnd(s, q, i + 1)
    else if At(s, i + 1) == Some(q) then QuoteEnd(s, q, i + 2)
    else Some(i + 1)
  }

  /** The position after the newline that ends a line comment, or the end of the statement. */
  function LineEnd(s: string, i: nat): (end: nat)
    requires i <= |s|
    ensures i <= end <= |s|
    decreases |s| - i
  {
    if i == |s| then i else if s[i] == '\n' then i + 1 else LineEnd(s, i + 1)
  }

  function BlockEnd(s: string, i: nat): (end: Option<nat>)
    ensures end.Some? ==> i < end.value <= |s|
    decreases |s| - i
  {
    if i >= |s| then None
    else if s[i] == '*' && At(s, i + 1) == Some('/') then Some(i + 2)
    else BlockEnd(s, i + 1)
  }

  predicate Opens(s: string, i: nat, first: char, second: char) {
    At(s, i) == Some(first) && At(s, i + 1) == Some(second)
  }

  /** The end of the region that starts at i, when one does. */
  function RegionEnd(s: string, i: nat): (end: Option<nat>)
    requires i < |s|
    ensures end.Some? ==> i < end.value <= |s|
  {
    if IsQuote(s[i]) then QuoteEnd(s, s[i], i + 1)
    else if Opens(s, i, '-', '-') then Some(LineEnd(s, i + 2))
    else if Opens(s, i, '/', '*') then BlockEnd(s, i + 2)
    else Some(i + 1)
  }

  predicate InCode(s: string, i: nat)
    requires i < |s|
  {
    !IsQuote(s[i]) && !Opens(s, i, '-', '-') && !Opens(s, i, '/', '*')
  }

  function Lex(s: string, i: nat): Lexed
    requires i <= |s|
    decreases |s| - i
  {
    if i == |s| then Lexed([], true)
    else
      match RegionEnd(s, i)
      case None => Lexed([Shield(s[i..])], false)
      case Some(end) =>
        var rest := Lex(s, end);
        Lexed([if InCode(s, i) then Sql(s[i]) else Shield(s[i..end])] + rest.pieces, rest.closed)
  }

  function TextOf(p: Piece): string {
    match p
    case Sql(c) => [c]
    case Shield(text) => text
  }

  function Concat(ps: seq<Piece>): string {
    if ps == [] then "" else TextOf(ps[0]) + Concat(ps[1..])
  }

  /** Reading loses nothing: the pieces spell the statement. */
  lemma {:induction false} LexSpells(s: string, i: nat)
    requires i <= |s|
    ensures Concat(Lex(s, i).pieces) == s[i..]
    decreases |s| - i
  {
    if i < |s| {
      if RegionEnd(s, i).Some? {
        LexSpells(s, RegionEnd(s, i).value);
      } else {
        assert Concat([Shield(s[i..])][1..]) == "";
      }
    }
  }

  // ----- what rebinding means -----

  datatype Bound = Bound(text: string) | MixedPlaceholders | Unterminated

  const MARK := Sql('?')

  /** A placeholder that is already numbered. */
  predicate NumberedAt(ps: seq<Piece>, k: nat) {
    k + 1 < |ps| && ps[k] == Sql('$') && ps[k + 1].Sql? && IsDigit(ps[k + 1].c)
  }

  predicate Mixed(ps: seq<Piece>) {
    ps != [] && (NumberedAt(ps, 0) || Mixed(ps[1..]))
  }

  /** The pieces with the marks numbered from n + 1. */
  function Numbered(ps: seq<Piece>, n: nat): string {
    if ps == [] then ""
    else if ps[0] == MARK then "$" + Itoa(n + 1) + Numbered(ps[1..], n + 1)
    else TextOf(ps[0]) + Numbered(ps[1..], n)
  }

  function Bind(l: Lexed, n: nat): Bound {
    if Mixed(l.pieces) then MixedPlaceholders
    else if !l.closed then Unterminated
    else Bound(Numbered(l.pieces, n))
  }

  function Rebound(s: string): Bound { Bind(Lex(s, 0), 0) }

  function Prepend(head: string, b: Bound): Bound {
    if b.Bound? then Bound(head + b.text) else b
  }

  lemma PrependTwice(a: string, b: string, r: Bound)
    ensures Prepend(a, Prepend(b, r)) == Prepend(a + b, r)
  {
  }

  // ----- the scanner -----

  datatype State = Code | Single | Double | Line | Block

  function Quote(state: State): char { if state == Single then '\'' else '"' }

  /** The end of the region the scanner is inside of. */
  function StateEnd(s: string, i: nat, state: State): (end: Option<nat>)
    requires i <= |s|
    ensures end.Some? ==> i <= end.value <= |s|
  {
    match state
    case Code => Some(i)
    case Single => QuoteEnd(s, '\'', i)
    case Double => QuoteEnd(s, '"', i)
    case Line => Some(LineEnd(s, i))
    case Block => BlockEnd(s, i)
  }

  /** What the rest of the statement binds to from a scanner position. */
  function Remaining(s: string, i: nat, state: State, n: nat): Bound
    requires i <= |s|
  {
    match StateEnd(s, i, state)
    case None => Unterminated
    case Some(end) => Prepend(s[i..end], Bind(Lex(s, end), n))
  }

  /** One byte copied inside a region. */
  lemma CopyInside(s: string, i: nat, j: nat, state: State, next: State, n: nat)
    requires i < j <= |s| && state != Code
    requires StateEnd(s, j, next) == StateEnd(s, i, state)
    ensures Remaining(s, i, state, n) == Prepend(s[i..j], Remaining(s, j, next, n))
  {
  }

  /** A region opens: its delimiter is copied and the scanner moves inside. */
  lemma OpenRegion(s: string, i: nat, j: nat, state: State, n: nat)
    requires i < j <= |s| && !InCode(s, i) && state != Code
    requires RegionEnd(s, i) == StateEnd(s, j, state)
    ensures Remaining(s, i, Code, n) == Prepend(s[i..j], Remaining(s, j, state, n))
  {
    hide QuoteEnd, LineEnd, BlockEnd;
    var end := RegionEnd(s, i);
    assert s[i..i] == "";
    if end.Some? {
      var rest := Lex(s, end.value);
      var all := Lex(s, i);
      assert all.pieces[1..] == rest.pieces;
      assert s[i..end.value] == s[i..j] + s[j..end.value];
      PrependTwice(s[i..j], s[j..end.value], Bind(rest, n));
    } else {
      var all := Lex(s, i);
      assert all == Lexed([Shield(s[i..])], false);
      assert all.pieces[1..] == [] && !Mixed(all.pieces);
    }
  }

  /** One byte of code. */
  lemma StepCode(s: string, i: nat, n: nat)
    requires i < |s| && InCode(s, i)
    ensures s[i] == '?' ==>
      Remaining(s, i, Code, n) == Prepend("$" + Itoa(n + 1), Remaining(s, i + 1, Code, n + 1))
    ensures s[i] == '$' && i + 1 < |s| && IsDigit(s[i + 1]) ==> Remaining(s, i, Code, n) == MixedPlaceholders
    ensures s[i] != '?' && !(s[i] == '$' && i + 1 < |s| && IsDigit(s[i + 1])) ==>
      Remaining(s, i, Code, n) == Prepend([s[i]], Remaining(s, i + 1, Code, n))
  {
    hide QuoteEnd, LineEnd, BlockEnd, Itoa;
    var rest, all := Lex(s, i + 1), Lex(s, i);
    assert all.pieces == [Sql(s[i])] + rest.pieces;
    assert all.pieces[1..] == rest.pieces;
    assert s[i..i] == "" && s[i + 1..i + 1] == "";
    NextByte(s, i + 1);
    assert NumberedAt(all.pieces, 0) <==> s[i] == '$' && i + 1 < |s| && IsDigit(s[i + 1]);
  }

  /** The next piece is a digit of code exactly when the next byte is a digit. */
  lemma NextByte(s: string, i: nat)
    requires i <= |s|
    ensures var ps := Lex(s, i).pieces;
      |ps| > 0 && ps[0].Sql? && IsDigit(ps[0].c) <==> i < |s| && IsDigit(s[i])
  {
  }

  lemma InLine(s: string, i: nat, b: Bound, out: string, n: nat)
    requires i < |s| && b == Prepend(out, Remaining(s, i, Line, n))
    ensures b == Prepend(out + [s[i]], Remaining(s, i + 1, if s[i] == '\n' then Code else Line, n))
  {
  }

  lemma InBlock(s: string, i: nat, b: Bound, out: string, n: nat)
    requires i < |s| && b == Prepend(out, Remaining(s, i, Block, n))
    ensures if Opens(s, i, '*', '/') then b == Prepend(out + "*/", Remaining(s, i + 2, Code, n))
            else b == Prepend(out + [s[i]], Remaining(s, i + 1, Block, n))
  {
    hide Remaining;
    if Opens(s, i, '*', '/') {
      CopyInside(s, i, i + 2, Block, Code, n);
      PrependTwice(out, "*/", Remaining(s, i + 2, Code, n));
    } else {
      CopyInside(s, i, i + 1, Block, Block, n);
      PrependTwice(out, [s[i]], Remaining(s, i + 1, Block, n));
    }
  }

  lemma InQuote(s: string, i: nat, b: Bound, out: string, state: State, n: nat)
    requires i < |s| && (state == Single || state == Double) && b == Prepend(out, Remaining(s, i, state, n))
    ensures var q := Quote(state);
      if Opens(s, i, q, q) then b == Prepend(out + [q, q], Remaining(s, i + 2, state, n))
      else b == Prepend(out + [s[i]], Remaining(s, i + 1, if s[i] == q then Code else state, n))
  {
    hide Remaining;
    var q := Quote(state);
    if Opens(s, i, q, q) {
      CopyInside(s, i, i + 2, state, state, n);
      PrependTwice(out, [q, q], Remaining(s, i + 2, state, n));
    } else {
      var next := if s[i] == q then Code else state;
      CopyInside(s, i, i + 1, state, next, n);
      PrependTwice(out, [s[i]], Remaining(s, i + 1, next, n));
    }
  }

  lemma AtRegion(s: string, i: nat, j: nat, b: Bound, out: string, state: State, n: nat)
    requires i < j <= |s| && !InCode(s, i) && state != Code && b == Prepend(out, Remaining(s, i, Code, n))
    requires RegionEnd(s, i) == StateEnd(s, j, state)
    ensures b == Prepend(out + s[i..j], Remaining(s, j, state, n))
  {
    hide Remaining;
    OpenRegion(s, i, j, state, n);
    PrependTwice(out, s[i..j], Remaining(s, j, state, n));
  }

  lemma AtQuote(s: string, i: nat, b: Bound, out: string, n: nat)
    requires i < |s| && IsQuote(s[i]) && b == Prepend(out, Remaining(s, i, Code, n))
    ensures b == Prepend(out + [s[i]], Remaining(s, i + 1, if s[i] == '\'' then Single else Double, n))
  {
    hide Remaining, Prepend;
    assert s[i..i + 1] == [s[i]];
    AtRegion(s, i, i + 1, b, out, if s[i] == '\'' then Single else Double, n);
  }

  lemma AtComment(s: string, i: nat, b: Bound, out: string, n: nat)
    requires i < |s| && b == Prepend(out, Remaining(s, i, Code, n))
    ensures Opens(s, i, '-', '-') ==> b == Prepend(out + "--", Remaining(s, i + 2, Line, n))
    ensures Opens(s, i, '/', '*') ==> b == Prepend(out + "/*", Remaining(s, i + 2, Block, n))
  {
    hide Remaining, Prepend;
    if Opens(s, i, '-', '-') {
      assert s[i..i + 2] == "--";
      AtRegion(s, i, i + 2, b, out, Line, n);
    }
    if Opens(s, i, '/', '*') {
      assert s[i..i + 2] == "/*";
      AtRegion(s, i, i + 2, b, out, Block, n);
    }
  }

  lemma AtByte(s: string, i: nat, b: Bound, out: string, n: nat)
    requires i < |s| && InCode(s, i) && b == Prepend(out, Remaining(s, i, Code, n))
    ensures s[i] == '?' ==> b == Prepend(out + "$" + Itoa(n + 1), Remaining(s, i + 1, Code, n + 1))
    ensures s[i] == '$' && i + 1 < |s| && IsDigit(s[i + 1]) ==> b == MixedPlaceholders
    ensures s[i] != '?' && !(s[i] == '$' && i + 1 < |s| && IsDigit(s[i + 1])) ==>
      b == Prepend(out + [s[i]], Remaining(s, i + 1, Code, n))
  {
    hide Remaining, Itoa;
    StepCode(s, i, n);
    PrependTwice(out, "$" + Itoa(n + 1), Remaining(s, i + 1, Code, n + 1));
    assert out + ("$" + Itoa(n + 1)) == out + "$" + Itoa(n + 1);
    PrependTwice(out, [s[i]], Remaining(s, i + 1, Code, n));
  }

  lemma AtEnd(s: string, b: Bound, out: string, state: State, n: nat)
    requires b == Prepend(out, Remaining(s, |s|, state, n))
    ensures b == if state == Code || state == Line then Bound(out) else Unterminated
  {
  }

  lemma AtStart(s: string)
    ensures Rebound(s) == Prepend("", Remaining(s, 0, Code, 0))
  {
  }

  /** RebindPostgres. */
  method RebindPostgres(query: string) returns (bound: Bound)
    ensures bound == Rebound(query)
  {
    hide Lex, Bind, Remaining, Prepend, Rebound, Itoa;
    ghost var b := Rebound(query);
    var out, state, parameter, i := "", Code, 0, 0;
    AtStart(query);
    while i < |query|
      invariant i <= |query|
      invariant b == Prepend(out, Remaining(query, i, state, parameter))
      decreases |query| - i
    {
      var c := query[i];
      match state {
        case Line =>
          InLine(query, i, b, out, parameter);
          out := out + [c];
          if c == '\n' { state := Code; }
        case Block =>
          InBlock(query, i, b, out, parameter);
          if c == '*' && i + 1 < |query| && query[i + 1] == '/' {
            i := i + 1;
            out := out + "*/";
            state := Code;
          } else {
            out := out + [c];
          }
        case Code =>
          if IsQuote(c) {
            AtQuote(query, i, b, out, parameter);
            state := if c == '\'' then Single else Double;
            out := out + [c];
          } else if c == '-' && i + 1 < |query| && query[i + 1] == '-' {
            AtComment(query, i, b, out, parameter);
            state := Line;
            out := out + "--";
            i := i + 1;
          } else if c == '/' && i + 1 < |query| && query[i + 1] == '*' {
            AtComment(query, i, b, out, parameter);
            state := Block;
            out := out + "/*";
            i := i + 1;
          } else {
            AtByte(query, i, b, out, parameter);
            if c == '?' {
              parameter := parameter + 1;
              out := out + "$";
              out := out + Itoa(parameter);
            } else if c == '$' && i + 1 < |query| && IsDigit(query[i + 1]) {
              return MixedPlaceholders;
            } else {
              out := out + [c];
            }
          }
        case _ =>
          InQuote(query, i, b, out, state, parameter);
          if c == Quote(state) {
            if i + 1 < |query| && query[i + 1] == c {
              i := i + 1;
              out := out + [c, c];
            } else {
              out := out + [c];
              state := Code;
            }
          } else {
            out := out + [c];
          }
      }
      i := i + 1;
    }
    AtEnd(query, b, out, state, parameter);
    if state == Single || state == Double || state == Block { return Unterminated; }
    return Bound(out);
  }
}
