/** What rebinding preserves: the pieces a rebound statement is read back as, and when the original can
    be recovered from it (internal/store/dialect.go, RebindPostgres). */
module RebindLaws {
  import opened Base
  import opened Text
  import opened Rebind

  // ----- which sequences of pieces a statement can be read as -----

  /** A piece followed by this byte, or by nothing, is read back as itself. */
  predicate Reads(p: Piece, next: Option<char>) {
    match p
    case Sql(c) => !IsQuote(c) && !(c == '-' && next == Some('-')) && !(c == '/' && next == Some('*'))
    case Shield(t) =>
      if t == "" then false
      else if IsQuote(t[0]) then QuoteEnd(t, t[0], 1) == Some(|t|) && next != Some(t[0])
      else if Opens(t, 0, '-', '-') then
        LineEnd(t, 2) == |t| && (next == None || (|t| > 2 && t[|t| - 1] == '\n'))
      else Opens(t, 0, '/', '*') && BlockEnd(t, 2) == Some(|t|)
  }

  /** The first byte of the piece after position k. */
  function Follower(ps: seq<Piece>, k: nat): Option<char> {
    if k + 1 < |ps| then At(TextOf(ps[k + 1]), 0) else None
  }

  predicate Lexical(ps: seq<Piece>) {
    forall k :: 0 <= k < |ps| ==> Reads(ps[k], Follower(ps, k))
  }

  /** Whether a region ends at e depends only on its own bytes and the byte after them. */
  lemma {:induction false} QuoteShift(s: string, q: char, k: nat, i: nat, e: nat)
    requires k <= i <= e <= |s|
    ensures QuoteEnd(s, q, i) == Some(e) <==> QuoteEnd(s[k..e], q, i - k) == Some(e - k) && At(s, e) != Some(q)
    decreases |s| - i
  {
    var t := s[k..e];
    if i < e {
      if s[i] != q {
        QuoteShift(s, q, k, i + 1, e);
      } else if At(s, i + 1) == Some(q) {
        if i + 1 < e { QuoteShift(s, q, k, i + 2, e); }
      }
    }
  }

  lemma {:induction false} LineShift(s: string, k: nat, i: nat, e: nat)
    requires k <= i <= e <= |s|
    ensures LineEnd(s, i) == e <==> LineEnd(s[k..e], i - k) == e - k && (e == |s| || (e > i && s[e - 1] == '\n'))
    decreases |s| - i
  {
    if i < e && s[i] != '\n' { LineShift(s, k, i + 1, e); }
  }

  lemma {:induction false} BlockShift(s: string, k: nat, i: nat, e: nat)
    requires k <= i <= e <= |s|
    ensures BlockEnd(s, i) == Some(e) <==> BlockEnd(s[k..e], i - k) == Some(e - k)
    decreases |s| - i
  {
    if i < e && !(s[i] == '*' && At(s, i + 1) == Some('/')) { BlockShift(s, k, i + 1, e); }
  }

  /** The piece a statement has between two positions. */
  function PieceAt(s: string, k: nat, e: nat): Piece
    requires k < e <= |s|
  {
    if InCode(s, k) then Sql(s[k]) else Shield(s[k..e])
  }

  lemma RegionReads(s: string, k: nat, e: nat)
    requires k < e <= |s| && RegionEnd(s, k) == Some(e)
    ensures Reads(PieceAt(s, k, e), At(s, e)) && TextOf(PieceAt(s, k, e)) == s[k..e]
  {
    hide QuoteEnd, LineEnd, BlockEnd;
    var t := s[k..e];
    if IsQuote(s[k]) {
      QuoteShift(s, s[k], k, k + 1, e);
    } else if Opens(s, k, '-', '-') {
      LineShift(s, k, k + 2, e);
      assert Opens(t, 0, '-', '-');
    } else if Opens(s, k, '/', '*') {
      BlockShift(s, k, k + 2, e);
      assert Opens(t, 0, '/', '*');
    }
  }

  lemma ReadsRegion(s: string, k: nat, e: nat, p: Piece)
    requires k <= e <= |s| && Reads(p, At(s, e)) && TextOf(p) == s[k..e]
    ensures k < e && RegionEnd(s, k) == Some(e) && PieceAt(s, k, e) == p
  {
    hide QuoteEnd, LineEnd, BlockEnd;
    if p.Shield? {
      var t := s[k..e];
      assert k < e && t[0] == s[k];
      if IsQuote(s[k]) {
        QuoteShift(s, s[k], k, k + 1, e);
      } else if Opens(t, 0, '-', '-') {
        assert Opens(s, k, '-', '-');
        LineShift(s, k, k + 2, e);
      } else {
        assert Opens(s, k, '/', '*');
        BlockShift(s, k, k + 2, e);
      }
    }
  }

  lemma LexicalCons(p: Piece, rest: seq<Piece>)
    requires Lexical(rest) && Reads(p, if rest == [] then None else At(TextOf(rest[0]), 0))
    ensures Lexical([p] + rest)
  {
  }

  lemma LexicalRest(ps: seq<Piece>)
    requires Lexical(ps) && ps != []
    ensures Lexical(ps[1..]) && Reads(ps[0], if |ps| == 1 then None else At(TextOf(ps[1]), 0))
  {
  }

  lemma FirstByte(s: string, i: nat)
    requires i <= |s|
    ensures Lex(s, i).pieces == [] <==> i == |s|
    ensures i < |s| ==> At(TextOf(Lex(s, i).pieces[0]), 0) == At(s, i)
  {
  }

  /** A statement whose regions all close is read as a lexical sequence. */
  lemma {:induction false} LexIsLexical(s: string, i: nat)
    requires i <= |s| && Lex(s, i).closed
    ensures Lexical(Lex(s, i).pieces)
    decreases |s| - i
  {
    hide Reads, RegionEnd;
    if i < |s| && RegionEnd(s, i).Some? {
      var e := RegionEnd(s, i).value;
      LexIsLexical(s, e);
      FirstByte(s, e);
      RegionReads(s, i, e);
      LexicalCons(PieceAt(s, i, e), Lex(s, e).pieces);
    }
  }

  /** Every lexical sequence is what its own text is read as. */
  lemma {:induction false} LexicalReadsBack(s: string, i: nat, ps: seq<Piece>)
    requires i <= |s| && Lexical(ps) && s[i..] == Concat(ps)
    ensures Lex(s, i) == Lexed(ps, true)
    decreases |ps|
  {
    hide Reads, RegionEnd, Lexical;
    if ps != [] {
      LexicalRest(ps);
      var p, rest := ps[0], ps[1..];
      var e := i + |TextOf(p)|;
      assert s[i..e] == TextOf(p);
      assert s[e..] == Concat(rest);
      HeadOfConcat(rest);
      assert At(s, e) == At(s[e..], 0);
      ReadsRegion(s, i, e, p);
      LexicalReadsBack(s, e, rest);
      assert ps == [p] + rest;
    }
  }

  lemma HeadOfConcat(ps: seq<Piece>)
    requires Lexical(ps)
    ensures At(Concat(ps), 0) == if ps == [] then None else At(TextOf(ps[0]), 0)
  {
  }

  /** Lexical sequences join wherever the last piece may be followed by the first byte of the next. */
  lemma LexicalJoin(a: seq<Piece>, b: seq<Piece>)
    requires Lexical(a) && Lexical(b)
    requires a == [] || b == [] || Reads(a[|a| - 1], At(TextOf(b[0]), 0))
    ensures Lexical(a + b)
  {
    hide Reads;
    forall k | 0 <= k < |a + b|
      ensures Reads((a + b)[k], Follower(a + b, k))
    {
      if k < |a| { assert Reads(a[k], Follower(a, k)); } else { assert Reads(b[k - |a|], Follower(b, k - |a|)); }
    }
  }

  // ----- the pieces of a rebound statement -----

  function Plain(s: string): (ps: seq<Piece>)
    ensures |ps| == |s|
  {
    seq(|s|, i requires 0 <= i < |s| => Sql(s[i]))
  }

  /** Every mark replaced by the pieces of its number. */
  function Expand(ps: seq<Piece>, n: nat): seq<Piece> {
    if ps == [] then []
    else if ps[0] == MARK then Plain("$" + Itoa(n + 1)) + Expand(ps[1..], n + 1)
    else [ps[0]] + Expand(ps[1..], n)
  }

  lemma {:induction false} ConcatJoin(a: seq<Piece>, b: seq<Piece>)
    ensures Concat(a + b) == Concat(a) + Concat(b)
  {
    if a == [] {
      assert a + b == b;
    } else {
      ConcatJoin(a[1..], b);
      assert (a + b)[1..] == a[1..] + b;
    }
  }

  lemma {:induction false} ConcatCode(s: string)
    ensures Concat(Plain(s)) == s
  {
    if s != "" {
      ConcatCode(s[1..]);
      assert Plain(s)[1..] == Plain(s[1..]);
      assert s == [s[0]] + s[1..];
    }
  }

  lemma {:induction false} ExpandSpells(ps: seq<Piece>, n: nat)
    ensures Concat(Expand(ps, n)) == Numbered(ps, n)
  {
    hide Plain, Itoa;
    if ps != [] {
      if ps[0] == MARK {
        ExpandSpells(ps[1..], n + 1);
        ConcatJoin(Plain("$" + Itoa(n + 1)), Expand(ps[1..], n + 1));
        ConcatCode("$" + Itoa(n + 1));
      } else {
        ExpandSpells(ps[1..], n);
        ConcatJoin([ps[0]], Expand(ps[1..], n));
        assert Concat([ps[0]]) == TextOf(ps[0]) + Concat([]);
      }
    }
  }

  ghost predicate ReadsAnywhere(p: Piece) {
    forall next :: Reads(p, next)
  }

  lemma NumberIsLexical(n: nat)
    ensures Lexical(Plain("$" + Itoa(n)))
    ensures var c := Plain("$" + Itoa(n)); ReadsAnywhere(c[|c| - 1])
  {
  }

  /** The first byte of an expansion: the dollar sign where a mark stood, else unchanged. */
  lemma ExpandHead(ps: seq<Piece>, n: nat)
    ensures Expand(ps, n) == [] <==> ps == []
    ensures ps != [] && ps[0] == MARK ==> Expand(ps, n)[0] == Sql('$')
    ensures ps != [] && ps[0] != MARK ==> Expand(ps, n)[0] == ps[0]
  {
  }

  lemma DollarFollows(p: Piece)
    requires Reads(p, Some('?'))
    ensures Reads(p, Some('$'))
  {
  }

  lemma {:induction false} ExpandIsLexical(ps: seq<Piece>, n: nat)
    requires Lexical(ps)
    ensures Lexical(Expand(ps, n))
  {
    hide Reads, Lexical, Itoa, Plain;
    if ps == [] {
      NothingIsLexical();
    } else {
      LexicalRest(ps);
      if ps[0] == MARK {
        ExpandIsLexical(ps[1..], n + 1);
        NumberIsLexical(n + 1);
        LexicalJoin(Plain("$" + Itoa(n + 1)), Expand(ps[1..], n + 1));
      } else {
        ExpandIsLexical(ps[1..], n);
        ExpandHead(ps[1..], n);
        if |ps| > 1 && ps[1] == MARK { DollarFollows(ps[0]); }
        LexicalCons(ps[0], Expand(ps[1..], n));
      }
    }
  }

  lemma NothingIsLexical()
    ensures Lexical([])
  {
  }

  function Shields(ps: seq<Piece>): seq<string> {
    if ps == [] then [] else (if ps[0].Shield? then [ps[0].text] else []) + Shields(ps[1..])
  }

  lemma {:induction false} ShieldsJoin(a: seq<Piece>, b: seq<Piece>)
    ensures Shields(a + b) == Shields(a) + Shields(b)
  {
    if a == [] {
      assert a + b == b;
    } else {
      var first: seq<string> := if a[0].Shield? then [a[0].text] else [];
      ShieldsJoin(a[1..], b);
      assert (a + b)[1..] == a[1..] + b;
      assert Shields(a + b) == first + (Shields(a[1..]) + Shields(b));
    }
  }

  lemma {:induction false} CodeHasNoShields(s: string)
    ensures Shields(Plain(s)) == []
  {
    if s != "" {
      CodeHasNoShields(s[1..]);
      assert Plain(s)[1..] == Plain(s[1..]);
    }
  }

  lemma {:induction false} ExpandKeepsShields(ps: seq<Piece>, n: nat)
    ensures Shields(Expand(ps, n)) == Shields(ps)
  {
    hide Plain, Itoa;
    if ps != [] {
      if ps[0] == MARK {
        ExpandKeepsShields(ps[1..], n + 1);
        CodeHasNoShields("$" + Itoa(n + 1));
        ShieldsJoin(Plain("$" + Itoa(n + 1)), Expand(ps[1..], n + 1));
      } else {
        ExpandKeepsShields(ps[1..], n);
        ShieldsJoin([ps[0]], Expand(ps[1..], n));
        assert ps == [ps[0]] + ps[1..];
        ShieldsJoin([ps[0]], ps[1..]);
      }
    }
  }

  /** A rebound statement is read back as the original pieces with each mark's number in its place; in
      particular it has the same quoted and commented regions, byte for byte. */
  lemma RebindingKeepsRegions(s: string)
    requires Rebound(s).Bound?
    ensures var l, out := Lex(s, 0), Lex(Rebound(s).text, 0);
      && out == Lexed(Expand(l.pieces, 0), true)
      && Shields(out.pieces) == Shields(l.pieces)
  {
    hide Lex, Lexical, Expand, Numbered, Mixed;
    var ps := Lex(s, 0).pieces;
    LexIsLexical(s, 0);
    ExpandIsLexical(ps, 0);
    ExpandSpells(ps, 0);
    assert Rebound(s).text[0..] == Rebound(s).text;
    LexicalReadsBack(Rebound(s).text, 0, Expand(ps, 0));
    ExpandKeepsShields(ps, 0);
  }

  // ----- the outcome, position by position -----

  lemma {:induction false} MixedExactly(ps: seq<Piece>)
    ensures Mixed(ps) <==> exists k: nat :: NumberedAt(ps, k)
  {
    if ps != [] {
      MixedExactly(ps[1..]);
      if Mixed(ps[1..]) {
        var k: nat :| NumberedAt(ps[1..], k);
        assert NumberedAt(ps, k + 1);
      }
      if k: nat :| NumberedAt(ps, k) && k > 0 {
        assert NumberedAt(ps[1..], k - 1);
      }
    }
  }

  function Marks(ps: seq<Piece>): nat {
    if ps == [] then 0 else (if ps[0] == MARK then 1 else 0) + Marks(ps[1..])
  }

  /** What stands at position k after rebinding: the number of the mark, or the piece itself. */
  function Renamed(ps: seq<Piece>, k: nat, n: nat): string
    requires k < |ps|
  {
    if ps[k] == MARK then "$" + Itoa(n + Marks(ps[..k]) + 1) else TextOf(ps[k])
  }

  function RenamedAll(ps: seq<Piece>, n: nat): (texts: seq<Piece>)
    ensures |texts| == |ps|
  {
    seq(|ps|, k requires 0 <= k < |ps| => Shield(Renamed(ps, k, n)))
  }

  lemma RenamedRest(ps: seq<Piece>, n: nat)
    requires ps != []
    ensures RenamedAll(ps, n)[1..] == RenamedAll(ps[1..], n + if ps[0] == MARK then 1 else 0)
  {
    hide Itoa;
    var rest := ps[1..];
    forall k | 0 <= k < |rest|
      ensures Marks(ps[..k + 1]) == (if ps[0] == MARK then 1 else 0) + Marks(rest[..k])
    {
      assert ps[..k + 1][1..] == rest[..k];
    }
  }

  lemma {:induction false} NumberedByPosition(ps: seq<Piece>, n: nat)
    ensures Numbered(ps, n) == Concat(RenamedAll(ps, n))
  {
    hide Renamed;
    if ps != [] {
      NumberedByPosition(ps[1..], n + if ps[0] == MARK then 1 else 0);
      RenamedRest(ps, n);
      FirstRenamed(ps, n);
    }
  }

  lemma FirstRenamed(ps: seq<Piece>, n: nat)
    requires ps != []
    ensures Renamed(ps, 0, n) == if ps[0] == MARK then "$" + Itoa(n + 1) else TextOf(ps[0])
  {
  }

  /** The exact outcome: rebinding succeeds if and only if every region closes and no dollar sign of
      code precedes a digit, and then the k-th mark of code has become the number k and nothing else
      has changed. */
  lemma RebindOutcome(s: string)
    ensures var l := Lex(s, 0);
      && (Rebound(s).Bound? <==> l.closed && !exists k: nat :: NumberedAt(l.pieces, k))
      && (Rebound(s).MixedPlaceholders? <==> exists k: nat :: NumberedAt(l.pieces, k))
      && (Rebound(s).Bound? ==> Rebound(s).text == Concat(RenamedAll(l.pieces, 0)))
      && Concat(l.pieces) == s
  {
    hide Lex, Mixed, NumberedAt, Numbered, RenamedAll;
    var l := Lex(s, 0);
    MixedExactly(l.pieces);
    NumberedByPosition(l.pieces, 0);
    LexSpells(s, 0);
  }

  // ----- recovering the original -----

  function AfterDigits(ps: seq<Piece>): (rest: seq<Piece>)
    ensures |rest| <= |ps|
  {
    if ps != [] && ps[0].Sql? && IsDigit(ps[0].c) then AfterDigits(ps[1..]) else ps
  }

  /** Every number of code back to a mark. */
  function Collapse(ps: seq<Piece>): string
    decreases |ps|
  {
    if ps == [] then ""
    else if NumberedAt(ps, 0) then "?" + Collapse(AfterDigits(ps[1..]))
    else TextOf(ps[0]) + Collapse(ps[1..])
  }

  function Unbind(text: string): string { Collapse(Lex(text, 0).pieces) }

  /** The pieces without the digits that follow a mark. */
  function Undigit(ps: seq<Piece>): seq<Piece>
    decreases |ps|
  {
    if ps == [] then []
    else if ps[0] == MARK then [MARK] + Undigit(AfterDigits(ps[1..]))
    else [ps[0]] + Undigit(ps[1..])
  }

  /** A mark directly followed by a digit of code. */
  predicate GluedAt(ps: seq<Piece>, k: nat) {
    k + 1 < |ps| && ps[k] == MARK && ps[k + 1].Sql? && IsDigit(ps[k + 1].c)
  }

  ghost predicate Glued(ps: seq<Piece>) {
    exists k: nat :: GluedAt(ps, k)
  }

  lemma {:induction false} DigitsDropped(s: string, ps: seq<Piece>)
    requires forall i :: 0 <= i < |s| ==> IsDigit(s[i])
    ensures AfterDigits(Plain(s) + ps) == AfterDigits(ps)
  {
    if s == "" {
      assert Plain(s) + ps == ps;
    } else {
      DigitsDropped(s[1..], ps);
      assert (Plain(s) + ps)[1..] == Plain(s[1..]) + ps;
    }
  }

  lemma {:induction false} ExpandAfterDigits(ps: seq<Piece>, n: nat)
    ensures AfterDigits(Expand(ps, n)) == Expand(AfterDigits(ps), n)
  {
    hide Itoa;
    if ps != [] {
      if ps[0].Sql? && IsDigit(ps[0].c) {
        ExpandAfterDigits(ps[1..], n);
        assert Expand(ps, n)[1..] == Expand(ps[1..], n);
      } else {
        ExpandHead(ps, n);
      }
    }
  }

  lemma {:induction false} UnmixedAfterDigits(ps: seq<Piece>)
    requires !Mixed(ps)
    ensures !Mixed(AfterDigits(ps))
  {
    if ps != [] { UnmixedAfterDigits(ps[1..]); }
  }

  lemma {:induction false} CollapseExpand(ps: seq<Piece>, n: nat)
    requires !Mixed(ps)
    ensures Collapse(Expand(ps, n)) == Concat(Undigit(ps))
    decreases |ps|
  {
    if ps != [] {
      if ps[0] == MARK {
        CollapseNumber(ps, n);
        UnmixedAfterDigits(ps[1..]);
        CollapseExpand(AfterDigits(ps[1..]), n + 1);
        ConcatJoin([MARK], Undigit(AfterDigits(ps[1..])));
        assert Concat([MARK]) == "?" + Concat([]);
      } else {
        CollapsePlain(ps, n);
        CollapseExpand(ps[1..], n);
        ConcatJoin([ps[0]], Undigit(ps[1..]));
        assert Concat([ps[0]]) == TextOf(ps[0]) + Concat([]);
      }
    }
  }

  lemma NumberPieces(number: string, rest: seq<Piece>)
    requires number != "" && forall i :: 0 <= i < |number| ==> IsDigit(number[i])
    ensures var all := Plain("$" + number) + rest; NumberedAt(all, 0) && all[1..] == Plain(number) + rest
  {
  }

  lemma CollapseNumber(ps: seq<Piece>, n: nat)
    requires ps != [] && ps[0] == MARK
    ensures Collapse(Expand(ps, n)) == "?" + Collapse(Expand(AfterDigits(ps[1..]), n + 1))
  {
    hide Itoa, Plain, AfterDigits, NumberedAt;
    var number, rest := Itoa(n + 1), Expand(ps[1..], n + 1);
    assert Expand(ps, n) == Plain("$" + number) + rest;
    NumberPieces(number, rest);
    DigitsDropped(number, rest);
    ExpandAfterDigits(ps[1..], n + 1);
  }

  lemma CollapsePlain(ps: seq<Piece>, n: nat)
    requires ps != [] && ps[0] != MARK && !Mixed(ps)
    ensures Collapse(Expand(ps, n)) == TextOf(ps[0]) + Collapse(Expand(ps[1..], n))
  {
  }

  lemma {:induction false} DigitsShorten(ps: seq<Piece>)
    ensures |Concat(AfterDigits(ps))| <= |Concat(ps)|
    ensures ps != [] && ps[0].Sql? && IsDigit(ps[0].c) ==> |Concat(AfterDigits(ps))| < |Concat(ps)|
  {
    if ps != [] { DigitsShorten(ps[1..]); }
  }

  lemma GluedRest(ps: seq<Piece>)
    requires ps != []
    ensures Glued(ps) <==> GluedAt(ps, 0) || Glued(ps[1..])
  {
    if Glued(ps[1..]) {
      var k: nat :| GluedAt(ps[1..], k);
      assert GluedAt(ps, k + 1);
    }
    if k: nat :| GluedAt(ps, k) && k > 0 {
      assert GluedAt(ps[1..], k - 1);
    }
  }

  lemma {:induction false} UndigitShortens(ps: seq<Piece>)
    ensures |Concat(Undigit(ps))| <= |Concat(ps)|
    ensures Glued(ps) ==> |Concat(Undigit(ps))| < |Concat(ps)|
    ensures !Glued(ps) ==> Undigit(ps) == ps
    decreases |ps|
  {
    hide Glued;
    if ps == [] {
      assert !Glued(ps) by { NothingGlued(); }
    } else {
      GluedRest(ps);
      var rest := ps[1..];
      ConcatJoin([ps[0]], Undigit(if ps[0] == MARK then AfterDigits(rest) else rest));
      assert Concat([ps[0]]) == TextOf(ps[0]) + Concat([]);
      DigitsShorten(rest);
      UndigitShortens(rest);
      if ps[0] == MARK { UndigitShortens(AfterDigits(rest)); }
      assert ps == [ps[0]] + rest;
    }
  }

  lemma NothingGlued()
    ensures !Glued([])
  {
  }

  /** Turning every number of a rebound statement back into a mark recovers the original if and only if
      no mark of code was directly followed by a digit. */
  lemma UnbindRecovers(s: string)
    requires Rebound(s).Bound?
    ensures Unbind(Rebound(s).text) == s <==> !Glued(Lex(s, 0).pieces)
  {
    hide Lex, Expand, Mixed, Numbered, Glued, Collapse;
    var ps := Lex(s, 0).pieces;
    RebindingKeepsRegions(s);
    CollapseExpand(ps, 0);
    UndigitShortens(ps);
    LexSpells(s, 0);
    assert s[0..] == s;
  }
}
