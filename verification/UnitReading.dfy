/** Which units the reader takes for its own, for modified ones, for malformed ones, told from their text
    (internal/service/service.go, readManagedUnit). */
module UnitReading {
  import opened Base
  import opened Text
  import opened ManagedUnit
  import opened UnitRoundTrip

  // ----- what a managed unit is -----

  /** No line begins so. */
  predicate Never(lines: seq<string>, prefix: string) {
    forall i :: 0 <= i < |lines| ==> !HasPrefix(lines[i], prefix)
  }

  /** Exactly one line begins so, and the rest of it, without white space around, is the value. */
  ghost predicate Once(lines: seq<string>, prefix: string, value: string) {
    exists i :: OnlyAt(lines, prefix, i) && Value(lines[i], prefix) == value
  }

  predicate OnlyAt(lines: seq<string>, prefix: string, i: int) {
    0 <= i < |lines| && HasPrefix(lines[i], prefix) && forall j :: 0 <= j < |lines| && j != i ==> !HasPrefix(lines[j], prefix)
  }

  /** The marker line, the only header line with a checksum, and the rest. */
  ghost predicate Headed(content: string, digest: string, rest: string) {
    && content == MARKER + ['\n'] + (MANAGED + VERSION + digest + ['\n'] + rest)
    && Hex64(digest) && Never(Split(rest, '\n'), MANAGED)
  }

  /** The recorded values: listener, data directory and health path once each, the mode and the environment file
      at most once. */
  ghost predicate Records(lines: seq<string>, m: Meta) {
    && Once(lines, LISTEN, m.listen) && Once(lines, DATA, m.data) && Once(lines, HEALTH, m.health)
    && (Once(lines, MODE, m.listenMode) || (Never(lines, MODE) && m.listenMode == BOOTSTRAP))
    && (Once(lines, ENVFILE, m.envfile) || (Never(lines, ENVFILE) && m.envfile == ""))
  }

  predicate Printable(s: string) { forall i :: 0 <= i < |s| ==> ' ' <= s[i] && s[i] != '\U{7F}' }

  predicate Usable(m: Meta) {
    && m.listen != "" && m.data != "" && m.health == "/system/health" && m.listenMode in {"explicit", "bootstrap"}
    && Printable(m.listen) && Printable(m.data) && Printable(m.envfile) && '%' !in m.envfile
  }

  // ----- lines -----

  lemma {:induction false} JoinSplit(s: string, sep: char)
    ensures Join(Split(s, sep), sep) == s
  {
    if s != "" {
      JoinSplit(s[1..], sep);
      var rest := Split(s[1..], sep);
      assert s == [s[0]] + s[1..];
      if s[0] == sep {
        assert ([""] + rest)[1..] == rest;
      } else {
        assert ([[s[0]] + rest[0]] + rest[1..])[1..] == rest[1..];
      }
    }
  }

  lemma {:induction false} HeadersCounted(lines: seq<string>, n: nat)
    requires n <= |lines|
    ensures HeaderCount(lines, n) == 0 <==> Never(lines[..n], MANAGED)
  {
    if n > 0 {
      HeadersCounted(lines, n - 1);
      assert forall i :: 0 <= i < n - 1 ==> lines[..n][i] == lines[..n - 1][i];
      assert lines[..n][n - 1] == lines[n - 1];
    }
  }

  lemma {:induction false} HeadersAfter(a: seq<string>, b: seq<string>, n: nat)
    requires n <= |b|
    ensures HeaderCount(a + b, |a| + n) == HeaderCount(a, |a|) + HeaderCount(b, n)
  {
    if n == 0 {
      ReadPrefix(a, b, |a|);
    } else {
      HeadersAfter(a, b, n - 1);
      assert (a + b)[|a| + n - 1] == b[n - 1];
    }
  }

  /** What a headed unit splits into. */
  lemma HeadedSplits(content: string, digest: string, rest: string)
    requires Headed(content, digest, rest)
    ensures Split(content, '\n') == [MARKER, MANAGED + VERSION + digest] + Split(rest, '\n')
    ensures HeaderCount(Split(content, '\n'), |Split(content, '\n')|) == 1 && Checksum(MANAGED + VERSION + digest) == Some(digest)
    ensures Join(Split(rest, '\n'), '\n') == rest
  {
    hide Split, HeaderCount, Join;
    var header := MANAGED + VERSION + digest;
    NoNewlines(digest);
    SplitAtSeparator(header, rest, '\n');
    SplitAtSeparator(MARKER, header + ['\n'] + rest, '\n');
    JoinSplit(rest, '\n');
    var lines := Split(rest, '\n');
    HeadersAfter([MARKER, header], lines, |lines|);
    HeadersCounted(lines, |lines|);
    assert lines[..|lines|] == lines;
    TwoHeaders(digest);
    assert [MARKER] + ([header] + lines) == [MARKER, header] + lines;
  }

  lemma NoNewlines(digest: string)
    requires Hex64(digest)
    ensures '\n' !in MARKER && '\n' !in MANAGED + VERSION + digest
  {
  }

  lemma TwoHeaders(digest: string)
    requires Hex64(digest)
    ensures var header := MANAGED + VERSION + digest; HeaderCount([MARKER, header], 2) == 1 && Checksum(header) == Some(digest)
  {
    var header := MANAGED + VERSION + digest;
    assert header[|MANAGED + VERSION|..] == digest;
    assert header[..|MANAGED|] == MANAGED;
    PrefixDiffers(MARKER, "", MANAGED, 2);
    assert MARKER + "" == MARKER;
    assert HeaderCount([MARKER, header], 0) == 0 && HeaderCount([MARKER, header], 1) == 0;
  }

  /** A unit with the marker, one header line in place and a well-formed checksum is headed. */
  lemma SplitsHeaded(content: string)
    requires var lines := Split(content, '\n');
      |lines| >= 3 && lines[0] == MARKER && HeaderCount(lines, |lines|) == 1 && Checksum(lines[1]).Some?
    ensures Headed(content, Checksum(Split(content, '\n')[1]).value, Join(Split(content, '\n')[2..], '\n'))
    ensures var lines := Split(content, '\n'); Split(Join(lines[2..], '\n'), '\n') == lines[2..]
  {
    hide Split, HeaderCount, Join, HasPrefix, Hex64;
    var lines := Split(content, '\n');
    var digest, rest := Checksum(lines[1]).value, Join(lines[2..], '\n');
    JoinSplit(content, '\n');
    ThreeJoined(lines);
    ChecksumLine(lines[1]);
    assert forall i :: 0 <= i < |lines[2..]| ==> '\n' !in lines[2..][i];
    SplitJoined(lines[2..], '\n');
    assert lines == [MARKER, lines[1]] + lines[2..];
    HeadersAfter([MARKER, lines[1]], lines[2..], |lines[2..]|);
    HeadersCounted(lines[2..], |lines[2..]|);
    assert lines[2..][..|lines[2..]|] == lines[2..];
    TwoHeaders(digest);
  }

  lemma ThreeJoined(lines: seq<string>)
    requires |lines| >= 3
    ensures Join(lines, '\n') == lines[0] + ['\n'] + (lines[1] + ['\n'] + Join(lines[2..], '\n'))
  {
    assert lines[1..][1..] == lines[2..];
  }

  lemma ChecksumLine(line: string)
    requires Checksum(line).Some?
    ensures line == MANAGED + VERSION + Checksum(line).value && Hex64(Checksum(line).value)
  {
  }

  // ----- values -----

  /** A counter and a value after some lines: how often the key was seen, and the value it had. */
  ghost predicate Counted(lines: seq<string>, prefix: string, count: nat, value: string, unset: string) {
    (count == 0 && Never(lines, prefix) && value == unset) || (count == 1 && Once(lines, prefix, value))
  }

  lemma CountedMore(lines: seq<string>, line: string, prefix: string, count: nat, value: string, unset: string)
    requires Counted(lines, prefix, count, value, unset)
    ensures !HasPrefix(line, prefix) ==> Counted(lines + [line], prefix, count, value, unset)
    ensures HasPrefix(line, prefix) && count == 0 ==> Counted(lines + [line], prefix, 1, Value(line, prefix), unset)
    ensures HasPrefix(line, prefix) && count == 1 ==> forall k, v :: !Counted(lines + [line], prefix, k, v, unset)
  {
    hide HasPrefix, Value;
    var more := lines + [line];
    assert forall i :: 0 <= i < |lines| ==> more[i] == lines[i];
    if HasPrefix(line, prefix) && count == 0 { assert OnlyAt(more, prefix, |lines|); }
    if count == 1 {
      var i :| OnlyAt(lines, prefix, i) && Value(lines[i], prefix) == value;
      if !HasPrefix(line, prefix) {
        assert OnlyAt(more, prefix, i);
      } else {
        assert HasPrefix(more[i], prefix) && HasPrefix(more[|lines|], prefix);
      }
    }
  }

  /** The values and counters after some lines. */
  ghost predicate Tallied(lines: seq<string>, seen: Seen) {
    && Counted(lines, LISTEN, seen.listen, seen.meta.listen, "")
    && Counted(lines, MODE, seen.mode, seen.meta.listenMode, BOOTSTRAP)
    && Counted(lines, DATA, seen.data, seen.meta.data, "")
    && Counted(lines, ENVFILE, seen.envfile, seen.meta.envfile, "")
    && Counted(lines, HEALTH, seen.health, seen.meta.health, "")
  }

  lemma Apart(line: string, p: string, q: string, i: nat)
    requires i < |p| && i < |q| && p[i] != q[i]
    ensures !(HasPrefix(line, p) && HasPrefix(line, q))
  {
  }

  /** A line begins with at most one of the keys. */
  lemma KeysApart(line: string)
    ensures HasPrefix(line, LISTEN) ==> !HasPrefix(line, MODE) && !HasPrefix(line, DATA) && !HasPrefix(line, ENVFILE) && !HasPrefix(line, HEALTH)
    ensures HasPrefix(line, MODE) ==> !HasPrefix(line, DATA) && !HasPrefix(line, ENVFILE) && !HasPrefix(line, HEALTH)
    ensures HasPrefix(line, DATA) ==> !HasPrefix(line, ENVFILE) && !HasPrefix(line, HEALTH)
    ensures HasPrefix(line, ENVFILE) ==> !HasPrefix(line, HEALTH)
  {
    hide HasPrefix;
    Apart(line, LISTEN, MODE, 16);
    Apart(line, LISTEN, DATA, 10);
    Apart(line, LISTEN, ENVFILE, 10);
    Apart(line, LISTEN, HEALTH, 10);
    Apart(line, MODE, DATA, 10);
    Apart(line, MODE, ENVFILE, 10);
    Apart(line, MODE, HEALTH, 10);
    Apart(line, DATA, ENVFILE, 10);
    Apart(line, DATA, HEALTH, 10);
    Apart(line, ENVFILE, HEALTH, 10);
  }

  lemma TallyMore(lines: seq<string>, line: string, seen: Seen)
    requires Tallied(lines, seen)
    ensures ReadLine(seen, line).Some? ==> Tallied(lines + [line], ReadLine(seen, line).value)
    ensures ReadLine(seen, line) == None ==> forall other :: !Tallied(lines + [line], other)
  {
    hide HasPrefix, Value, Counted;
    CountsAreSmall(lines, seen);
    KeysApart(line);
    var m := seen.meta;
    CountedMore(lines, line, LISTEN, seen.listen, m.listen, "");
    CountedMore(lines, line, MODE, seen.mode, m.listenMode, BOOTSTRAP);
    CountedMore(lines, line, DATA, seen.data, m.data, "");
    CountedMore(lines, line, ENVFILE, seen.envfile, m.envfile, "");
    CountedMore(lines, line, HEALTH, seen.health, m.health, "");
  }

  lemma NothingTallied()
    ensures Tallied([], NOTHING_SEEN)
  {
  }

  lemma CountsAreSmall(lines: seq<string>, seen: Seen)
    requires Tallied(lines, seen)
    ensures seen.listen <= 1 && seen.mode <= 1 && seen.data <= 1 && seen.envfile <= 1 && seen.health <= 1
  {
    hide Once, Never;
  }

  /** A longer list of lines with a tally has one for each beginning. */
  lemma TallyLess(lines: seq<string>, line: string, seen: Seen)
    requires Tallied(lines + [line], seen)
    ensures exists less :: Tallied(lines, less)
  {
    hide HasPrefix, Value;
    var l, lm := CountedLess(lines, line, LISTEN, seen.listen, seen.meta.listen, "");
    var m, mm := CountedLess(lines, line, MODE, seen.mode, seen.meta.listenMode, BOOTSTRAP);
    var d, dm := CountedLess(lines, line, DATA, seen.data, seen.meta.data, "");
    var e, em := CountedLess(lines, line, ENVFILE, seen.envfile, seen.meta.envfile, "");
    var h, hm := CountedLess(lines, line, HEALTH, seen.health, seen.meta.health, "");
    hide Counted;
    assert Tallied(lines, Seen(Meta(lm, mm, dm, em, hm), l, m, d, e, h));
  }

  lemma CountedLess(lines: seq<string>, line: string, prefix: string, count: nat, value: string, unset: string) returns (less: nat, v: string)
    requires Counted(lines + [line], prefix, count, value, unset)
    ensures Counted(lines, prefix, less, v, unset)
  {
    hide HasPrefix, Value;
    var more := lines + [line];
    assert forall i :: 0 <= i < |lines| ==> more[i] == lines[i];
    less, v := 0, unset;
    if count == 1 {
      var i :| OnlyAt(more, prefix, i) && Value(more[i], prefix) == value;
      if i < |lines| {
        assert OnlyAt(lines, prefix, i);
        less, v := 1, value;
      }
    }
  }

  /** The loop over the lines finds the values each key has once, and fails exactly when some key repeats. */
  lemma {:induction false} LinesTallied(lines: seq<string>, n: nat)
    requires n <= |lines|
    ensures ReadLines(lines, n).Some? ==> Tallied(lines[..n], ReadLines(lines, n).value)
    ensures ReadLines(lines, n) == None ==> forall other :: !Tallied(lines[..n], other)
  {
    hide Tallied, ReadLine;
    if n == 0 {
      NothingTallied();
      assert lines[..0] == [];
    } else {
      LinesTallied(lines, n - 1);
      var before := lines[..n - 1];
      assert lines[..n] == before + [lines[n - 1]];
      if ReadLines(lines, n - 1).Some? {
        TallyMore(before, lines[n - 1], ReadLines(lines, n - 1).value);
      } else {
        var more := before + [lines[n - 1]];
        forall other
          ensures !Tallied(more, other)
        {
          if Tallied(more, other) { TallyLess(before, lines[n - 1], other); }
        }
      }
    }
  }

  // ----- the reader -----

  lemma TallyRecords(lines: seq<string>, seen: Seen)
    requires Tallied(lines, seen)
    ensures seen.listen == 1 && seen.data == 1 && seen.health == 1 ==> Records(lines, seen.meta)
    ensures forall m :: Records(lines, m) ==> seen.listen == 1 && seen.data == 1 && seen.health == 1 && m == seen.meta
  {
    hide HasPrefix, Value;
    forall m | Records(lines, m)
      ensures seen.listen == 1 && seen.data == 1 && seen.health == 1 && m == seen.meta
    {
      SameOnce(lines, LISTEN, seen.listen, seen.meta.listen, "", m.listen);
      SameOnce(lines, MODE, seen.mode, seen.meta.listenMode, BOOTSTRAP, m.listenMode);
      SameOnce(lines, DATA, seen.data, seen.meta.data, "", m.data);
      SameOnce(lines, ENVFILE, seen.envfile, seen.meta.envfile, "", m.envfile);
      SameOnce(lines, HEALTH, seen.health, seen.meta.health, "", m.health);
    }
  }

  lemma SameOnce(lines: seq<string>, prefix: string, count: nat, value: string, unset: string, v: string)
    requires Counted(lines, prefix, count, value, unset)
    ensures Once(lines, prefix, v) ==> count == 1 && v == value
    ensures Never(lines, prefix) ==> count == 0 && value == unset
  {
    hide HasPrefix, Value;
    if Once(lines, prefix, v) {
      var i :| OnlyAt(lines, prefix, i) && Value(lines[i], prefix) == v;
    }
  }

  lemma RecordsTallied(lines: seq<string>, m: Meta)
    requires Records(lines, m)
    ensures exists seen :: Tallied(lines, seen)
  {
    hide Once, Never;
    var mode := if Once(lines, MODE, m.listenMode) then 1 else 0;
    var env := if Once(lines, ENVFILE, m.envfile) then 1 else 0;
    assert Tallied(lines, Seen(m, 1, mode, 1, env, 1));
  }

  lemma AcceptableIsUsable(seen: Seen)
    ensures Acceptable(seen) <==> seen.listen == 1 && seen.data == 1 && seen.health == 1 && Usable(seen.meta)
  {
    assert NoControl("");
  }

  /** The lines below the header are read as exactly the usable values they record. */
  lemma BodyReads(lines: seq<string>, m: Meta)
    ensures (ReadLines(lines, |lines|).Some? && Acceptable(ReadLines(lines, |lines|).value) && ReadLines(lines, |lines|).value.meta == m)
      <==> Records(lines, m) && Usable(m)
  {
    hide Tallied, Records, ReadLines, Usable, Acceptable;
    LinesTallied(lines, |lines|);
    assert lines[..|lines|] == lines;
    if ReadLines(lines, |lines|).Some? {
      var seen := ReadLines(lines, |lines|).value;
      TallyRecords(lines, seen);
      AcceptableIsUsable(seen);
    } else if Records(lines, m) {
      RecordsTallied(lines, m);
    }
  }

  /** The text begins with the marker line and has two more lines. */
  ghost predicate Marked(content: string) {
    exists a, b :: '\n' !in a && content == MARKER + ['\n'] + (a + ['\n'] + b)
  }

  lemma MarkedSplits(content: string)
    ensures Marked(content) <==> |Split(content, '\n')| >= 3 && Split(content, '\n')[0] == MARKER
  {
    hide Split, Join;
    var lines := Split(content, '\n');
    assert '\n' !in MARKER;
    if Marked(content) {
      var a, b :| '\n' !in a && content == MARKER + ['\n'] + (a + ['\n'] + b);
      SplitAtSeparator(a, b, '\n');
      SplitAtSeparator(MARKER, a + ['\n'] + b, '\n');
    }
    if |lines| >= 3 && lines[0] == MARKER {
      JoinSplit(content, '\n');
      ThreeJoined(lines);
      assert '\n' !in lines[1];
    }
  }

  /** The reader told from the text: a unit is foreign when it does not begin with the marker line, modified when
      its one header's checksum is not that of what follows, managed with exactly the usable values recorded
      under a true checksum, and malformed otherwise. */
  lemma ReadExactly(content: string, sum: string -> string, m: Meta)
    ensures ReadUnit(content, sum) == NotManaged <==> !Marked(content)
    ensures ReadUnit(content, sum) == Modified <==> exists digest, rest :: Headed(content, digest, rest) && sum(rest) != digest
    ensures ReadUnit(content, sum) == Managed(m) <==>
      exists digest, rest :: Headed(content, digest, rest) && sum(rest) == digest && Records(Split(rest, '\n'), m) && Usable(m)
  {
    hide Split, Join, ReadLines, HeaderCount, Checksum, Acceptable, Headed, Marked, Records, Usable;
    MarkedSplits(content);
    var lines := Split(content, '\n');
    forall digest, rest | Headed(content, digest, rest)
      ensures lines == [MARKER, MANAGED + VERSION + digest] + Split(rest, '\n') && HeaderCount(lines, |lines|) == 1
      ensures Checksum(MANAGED + VERSION + digest) == Some(digest) && Join(Split(rest, '\n'), '\n') == rest && |Split(rest, '\n')| >= 1
    {
      HeadedSplits(content, digest, rest);
    }
    if |lines| >= 3 && lines[0] == MARKER && HeaderCount(lines, |lines|) == 1 && Checksum(lines[1]).Some? {
      SplitsHeaded(content);
      BodyReads(lines[2..], m);
      assert |lines| - 2 == |lines[2..]|;
    }
  }

  // ----- what a printed unit says -----

  /** The argument after a flag. */
  function Following(args: seq<string>, flag: string): Option<string> {
    if |args| < 2 then None else if args[0] == flag then Some(args[1]) else Following(args[2..], flag)
  }

  lemma FollowingFirst(a: string, b: string, rest: seq<string>, flag: string)
    ensures Following([a, b] + rest, flag) == if a == flag then Some(b) else Following(rest, flag)
  {
    assert ([a, b] + rest)[2..] == rest;
  }

  lemma FlagsDiffer()
    ensures "--listen" != "--data-dir" && "--host" != "--data-dir" && "--port" != "--data-dir"
    ensures "--listen" != "--host" && "--listen" != "--port" && "--host" != "--port"
  {
    assert |"--data-dir"| == 10 && |"--listen"| == 8 && |"--host"| == 6 && |"--port"| == 6;
    assert "--host"[2] == 'h' && "--port"[2] == 'p';
  }

  /** The service is started with the listener it was given, or else with host and port, and with its data
      directory, /var/lib/trestle when none is named. */
  lemma UnitSays(spec: Spec)
    ensures var args := Arguments(spec);
      && Following(args, "--data-dir") == Some(if spec.dataDir == "" then "/var/lib/trestle" else spec.dataDir)
      && Following(args, "--listen") == (if spec.listen == "" then None else Some(spec.listen))
      && Following(args, "--host") == (if spec.listen == "" then Some(TrimSpace(spec.host)) else None)
      && Following(args, "--port") == (if spec.listen == "" then Some(TrimSpace(spec.port)) else None)
  {
    hide TrimSpace, Following;
    FlagsDiffer();
    var data := ["--data-dir", DataDir(spec)];
    forall flag: string
      ensures Following(data, flag) == if flag == "--data-dir" then Some(DataDir(spec)) else None
    {
      FollowingFirst("--data-dir", DataDir(spec), [], flag);
      assert data + [] == data;
      NothingFollows(flag);
    }
    forall flag: string
      ensures Following(Arguments(spec), flag) ==
        if spec.listen != "" then (if flag == "--listen" then Some(spec.listen) else Following(data, flag))
        else if flag == "--host" then Some(TrimSpace(spec.host))
        else if flag == "--port" then Some(TrimSpace(spec.port))
        else Following(data, flag)
    {
      var ports := ["--port", TrimSpace(spec.port)] + data;
      FollowingFirst("--listen", spec.listen, data, flag);
      FollowingFirst("--port", TrimSpace(spec.port), data, flag);
      FollowingFirst("--host", TrimSpace(spec.host), ports, flag);
      assert Arguments(spec) == if spec.listen != "" then ["--listen", spec.listen] + data else ["--host", TrimSpace(spec.host)] + ports;
    }
  }

  lemma NothingFollows(flag: string)
    ensures Following([], flag) == None
  {
  }

  /** The unit names the file with its environment when there is one, and may write only to its data directory. */
  lemma UnitNamesFiles(spec: Spec)
    ensures "ReadWritePaths=" + Quote(if spec.dataDir == "" then "/var/lib/trestle" else spec.dataDir) in BodyLines(spec)
    ensures spec.envfile != "" ==> "EnvironmentFile=" + Quote(spec.envfile) in BodyLines(spec)
  {
    hide TrimSpace, Quote, JoinArgs, Arguments;
    assert BodyLines(spec)[18] == "ReadWritePaths=" + Quote(DataDir(spec));
    if spec.envfile != "" { assert BodyLines(spec)[19] == "EnvironmentFile=" + Quote(spec.envfile); }
  }

  /** The recorded listener: the one given, or host and port joined by a colon, the host in brackets when it
      contains one itself. */
  lemma ListenerSays(spec: Spec)
    ensures spec.listen != "" ==> Listener(spec) == spec.listen
    ensures spec.listen == "" && ':' !in TrimSpace(spec.host) ==> Listener(spec) == TrimSpace(spec.host) + [':'] + TrimSpace(spec.port)
    ensures spec.listen == "" && ':' in TrimSpace(spec.host) ==> Listener(spec) == ['['] + TrimSpace(spec.host) + [']', ':'] + TrimSpace(spec.port)
  {
    hide TrimSpace;
  }

  lemma RunsUnprivileged(spec: Spec)
    ensures "User=trestle" in BodyLines(spec) && "Group=trestle" in BodyLines(spec) && "NoNewPrivileges=true" in BodyLines(spec)
    ensures "ProtectSystem=strict" in BodyLines(spec) && "ProtectHome=true" in BodyLines(spec) && "PrivateTmp=true" in BodyLines(spec)
  {
    hide TrimSpace, Quote, JoinArgs, Arguments, DataDir;
    var lines := BodyLines(spec);
    assert lines[9] in lines && lines[10] in lines && lines[14] in lines;
    assert lines[15] in lines && lines[16] in lines && lines[17] in lines;
  }
}
