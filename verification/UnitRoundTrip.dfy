/** Exactly which service specifications survive being printed and read back
    (internal/service/service.go, buildUnit and readManagedUnit). */
module UnitRoundTrip {
  import opened Base
  import opened Text
  import opened ManagedUnit

  // ----- trimming -----

  lemma {:induction false} TrimLeftTwice(s: string)
    ensures TrimLeft(TrimLeft(s)) == TrimLeft(s)
    ensures TrimLeft(s) == "" || !IsSpace(TrimLeft(s)[0])
  {
    if s != "" && IsSpace(s[0]) { TrimLeftTwice(s[1..]); }
  }

  lemma {:induction false} TrimRightFacts(s: string)
    ensures TrimRight(s) == "" || !IsSpace(TrimRight(s)[|TrimRight(s)| - 1])
    ensures TrimRight(s) <= s
  {
    if s != "" && IsSpace(s[|s| - 1]) { TrimRightFacts(s[..|s| - 1]); }
  }

  lemma TrimTwice(s: string)
    ensures TrimSpace(TrimSpace(s)) == TrimSpace(s)
  {
    hide IsSpace;
    var l := TrimLeft(s);
    var r := TrimRight(l);
    TrimLeftTwice(s);
    TrimRightFacts(l);
    if r != "" { assert r[0] == l[0]; }
  }

  predicate Trimmed(s: string) { TrimSpace(s) == s }

  // ----- splitting -----

  lemma {:induction false} SplitAtSeparator(line: string, rest: string, sep: char)
    requires sep !in line
    ensures Split(line + [sep] + rest, sep) == [line] + Split(rest, sep)
    ensures Split(line, sep) == [line]
  {
    if line == "" {
      assert (line + [sep] + rest)[1..] == rest;
    } else {
      SplitAtSeparator(line[1..], rest, sep);
      assert (line + [sep] + rest)[1..] == line[1..] + [sep] + rest;
      assert line == [line[0]] + line[1..];
    }
  }

  lemma {:induction false} SplitJoined(lines: seq<string>, sep: char)
    requires lines != [] && forall i :: 0 <= i < |lines| ==> sep !in lines[i]
    ensures Split(Join(lines, sep), sep) == lines
  {
    if |lines| == 1 {
      SplitAtSeparator(lines[0], "", sep);
    } else {
      SplitAtSeparator(lines[0], Join(lines[1..], sep), sep);
      SplitJoined(lines[1..], sep);
      assert lines == [lines[0]] + lines[1..];
    }
  }

  // ----- lines without control characters -----

  lemma CleanJoin(a: string, b: string)
    ensures NoControl(a + b) <==> NoControl(a) && NoControl(b)
  {
    if NoControl(a + b) {
      forall i | 0 <= i < |a|
        ensures a[i] == (a + b)[i]
      {
      }
      forall i | 0 <= i < |b|
        ensures b[i] == (a + b)[|a| + i]
      {
      }
    }
  }

  lemma {:induction false} CleanEscaped(s: string)
    requires NoControl(s)
    ensures NoControl(Escaped(s))
  {
    if s != "" {
      assert s == [s[0]] + s[1..];
      CleanJoin([s[0]], s[1..]);
      CleanEscaped(s[1..]);
      CleanJoin(Escape(s[0]), Escaped(s[1..]));
    }
  }

  lemma CleanQuote(s: string)
    requires NoControl(s)
    ensures NoControl(Quote(s))
  {
    CleanEscaped(s);
    CleanJoin("\"" + Escaped(s), "\"");
    CleanJoin("\"", Escaped(s));
  }

  lemma {:induction false} CleanArgs(args: seq<string>)
    requires forall i :: 0 <= i < |args| ==> NoControl(args[i])
    ensures NoControl(JoinArgs(args))
  {
    hide NoControl, Quote;
    CleanConstants();
    if args != [] {
      CleanQuote(args[0]);
      CleanArgs(args[1..]);
      CleanJoin(" ", Quote(args[0]));
      CleanJoin(" " + Quote(args[0]), JoinArgs(args[1..]));
    }
  }

  lemma CleanConstants()
    ensures NoControl("") && NoControl(" ") && NoControl("--listen") && NoControl("--host") && NoControl("--port") && NoControl("--data-dir")
  {
  }

  /** The values a unit can carry unchanged. */
  predicate Carried(v: string) { v != "" && Trimmed(v) && NoControl(v) }

  predicate Representable(spec: Spec) {
    && Carried(Listener(spec)) && Carried(DataDir(spec))
    && (spec.listenMode == EXPLICIT || spec.listenMode == BOOTSTRAP)
    && Trimmed(spec.envfile) && NoControl(spec.envfile) && '%' !in spec.envfile
  }

  lemma CleanHostPort(spec: Spec)
    requires NoControl(Listener(spec))
    ensures forall i :: 0 <= i < |Arguments(spec)| - 2 ==> NoControl(Arguments(spec)[i])
  {
    hide TrimSpace;
    CleanConstants();
    var host, port := TrimSpace(spec.host), TrimSpace(spec.port);
    CleanJoin("[" + host + "]:", port);
    CleanJoin("[" + host, "]:");
    CleanJoin("[", host);
    CleanJoin(host + ":", port);
    CleanJoin(host, ":");
    hide NoControl;
  }

  /** A line of the body: no control character, and no leading number sign. */
  predicate Plain(line: string) {
    NoControl(line) && (line == "" || line[0] != '#')
  }

  lemma CleanDirectives()
    ensures NoControl("ExecStart=" + BINARY_PATH) && NoControl("ReadWritePaths=") && NoControl("EnvironmentFile=")
  {
  }

  lemma CleanLine(head: string, tail: string)
    requires head != "" && head[0] != '#' && NoControl(head) && NoControl(tail)
    ensures Plain(head + tail)
  {
  }

  lemma ExecLine(spec: Spec)
    requires Representable(spec)
    ensures Plain("ExecStart=" + BINARY_PATH + JoinArgs(Arguments(spec)))
    ensures Plain("ReadWritePaths=" + Quote(DataDir(spec))) && Plain("EnvironmentFile=" + Quote(spec.envfile))
  {
    hide NoControl, Quote, JoinArgs, Arguments, TrimSpace, Listener, DataDir, Plain;
    CleanHostPort(spec);
    CleanArguments(spec);
    CleanQuote(DataDir(spec));
    CleanQuote(spec.envfile);
    CleanDirectives();
    CleanLine("ExecStart=" + BINARY_PATH, JoinArgs(Arguments(spec)));
    CleanLine("ReadWritePaths=", Quote(DataDir(spec)));
    CleanLine("EnvironmentFile=", Quote(spec.envfile));
  }

  lemma CleanArguments(spec: Spec)
    requires NoControl(DataDir(spec)) && forall i :: 0 <= i < |Arguments(spec)| - 2 ==> NoControl(Arguments(spec)[i])
    ensures NoControl(JoinArgs(Arguments(spec)))
  {
    hide NoControl, JoinArgs, TrimSpace;
    CleanConstants();
    CleanArgs(Arguments(spec));
  }

  const FIXED_LINES := ["[Unit]", "Description=Trestle records service", "After=network-online.target", "Wants=network-online.target",
     "StartLimitIntervalSec=60", "StartLimitBurst=5", "", "[Service]", "Type=simple", "User=trestle", "Group=trestle"]
  const SANDBOX_LINES := ["Restart=on-failure", "RestartSec=3", "NoNewPrivileges=true", "PrivateTmp=true", "ProtectSystem=strict", "ProtectHome=true"]
  const INSTALL_LINES := ["", "[Install]", "WantedBy=multi-user.target", ""]

  lemma DescriptionIsPlain()
    ensures Plain("[Unit]") && Plain("Description=Trestle records service") && Plain("After=network-online.target")
  {
  }

  lemma UnitSectionIsPlain()
    ensures Plain("Wants=network-online.target") && Plain("StartLimitIntervalSec=60") && Plain("StartLimitBurst=5")
  {
  }

  lemma ServiceSectionIsPlain()
    ensures Plain("") && Plain("[Service]") && Plain("Type=simple") && Plain("User=trestle") && Plain("Group=trestle")
  {
  }

  lemma SandboxIsPlain()
    ensures Plain("Restart=on-failure") && Plain("RestartSec=3") && Plain("NoNewPrivileges=true")
    ensures Plain("PrivateTmp=true") && Plain("ProtectSystem=strict") && Plain("ProtectHome=true")
  {
  }

  lemma InstallSectionIsPlain()
    ensures Plain("") && Plain("[Install]") && Plain("WantedBy=multi-user.target")
  {
  }

  predicate AllPlain(lines: seq<string>) { forall i :: 0 <= i < |lines| ==> Plain(lines[i]) }

  lemma FixedLinesArePlain()
    ensures AllPlain(FIXED_LINES) && AllPlain(SANDBOX_LINES) && AllPlain(INSTALL_LINES)
  {
    hide Plain;
    DescriptionIsPlain();
    UnitSectionIsPlain();
    ServiceSectionIsPlain();
    SandboxIsPlain();
    InstallSectionIsPlain();
  }

  lemma PlainJoin(a: seq<string>, b: seq<string>)
    requires AllPlain(a) && AllPlain(b)
    ensures AllPlain(a + b)
  {
  }

  /** The body, grouped into its fixed and its generated lines. */
  lemma BodyGroups(spec: Spec)
    ensures BodyLines(spec) == FIXED_LINES + ["ExecStart=" + BINARY_PATH + JoinArgs(Arguments(spec))] + SANDBOX_LINES
      + ["ReadWritePaths=" + Quote(DataDir(spec))]
      + (if spec.envfile != "" then ["EnvironmentFile=" + Quote(spec.envfile)] else []) + INSTALL_LINES
  {
    hide JoinArgs, Quote, Arguments, DataDir;
  }

  lemma OnePlain(line: string)
    requires Plain(line)
    ensures AllPlain([line])
  {
  }

  lemma BodyIsPlain(spec: Spec)
    requires Representable(spec)
    ensures AllPlain(BodyLines(spec)) && |BodyLines(spec)| >= 1
  {
    hide *;
    FixedLinesArePlain();
    ExecLine(spec);
    BodyGroups(spec);
    NonePlain();
    var exec, paths := "ExecStart=" + BINARY_PATH + JoinArgs(Arguments(spec)), "ReadWritePaths=" + Quote(DataDir(spec));
    var env := if spec.envfile != "" then ["EnvironmentFile=" + Quote(spec.envfile)] else [];
    OnePlain(exec);
    OnePlain(paths);
    OnePlain("EnvironmentFile=" + Quote(spec.envfile));
    PlainJoin(FIXED_LINES, [exec]);
    PlainJoin(FIXED_LINES + [exec], SANDBOX_LINES);
    PlainJoin(FIXED_LINES + [exec] + SANDBOX_LINES, [paths]);
    PlainJoin(FIXED_LINES + [exec] + SANDBOX_LINES + [paths], env);
    PlainJoin(FIXED_LINES + [exec] + SANDBOX_LINES + [paths] + env, INSTALL_LINES);
  }

  lemma NonePlain()
    ensures AllPlain([])
  {
  }

  // ----- reading the lines -----

  lemma PrefixDiffers(head: string, v: string, p: string, i: nat)
    requires i < |head| && i < |p| && head[i] != p[i]
    ensures !HasPrefix(head + v, p)
  {
  }

  lemma OwnPrefix(p: string, v: string)
    ensures HasPrefix(p + v, p) && Value(p + v, p) == TrimSpace(v)
  {
  }

  lemma NoHash(line: string, p: string)
    requires (line == "" || line[0] != '#') && p != "" && p[0] == '#'
    ensures !HasPrefix(line, p)
  {
  }

  lemma PlainIsIgnored(seen: Seen, line: string)
    requires Plain(line)
    ensures ReadLine(seen, line) == Some(seen) && !HasPrefix(line, MANAGED)
  {
    hide HasPrefix, NoControl, Value;
    NoHash(line, LISTEN);
    NoHash(line, MODE);
    NoHash(line, DATA);
    NoHash(line, ENVFILE);
    NoHash(line, HEALTH);
    NoHash(line, MANAGED);
  }

  lemma ListenLine(seen: Seen, v: string)
    requires seen.listen == 0
    ensures ReadLine(seen, LISTEN + v) == Some(seen.(listen := 1, meta := seen.meta.(listen := TrimSpace(v))))
    ensures !HasPrefix(LISTEN + v, MANAGED)
  {
    OwnPrefix(LISTEN, v);
    PrefixDiffers(LISTEN, v, MANAGED, 10);
  }

  lemma ModeLine(seen: Seen, v: string)
    requires seen.mode == 0
    ensures ReadLine(seen, MODE + v) == Some(seen.(mode := 1, meta := seen.meta.(listenMode := TrimSpace(v))))
    ensures !HasPrefix(MODE + v, MANAGED)
  {
    OwnPrefix(MODE, v);
    PrefixDiffers(MODE, v, LISTEN, 16);
    PrefixDiffers(MODE, v, MANAGED, 10);
  }

  lemma DataLine(seen: Seen, v: string)
    requires seen.data == 0
    ensures ReadLine(seen, DATA + v) == Some(seen.(data := 1, meta := seen.meta.(data := TrimSpace(v))))
    ensures !HasPrefix(DATA + v, MANAGED)
  {
    OwnPrefix(DATA, v);
    PrefixDiffers(DATA, v, LISTEN, 10);
    PrefixDiffers(DATA, v, MODE, 10);
    PrefixDiffers(DATA, v, MANAGED, 10);
  }

  lemma EnvLine(seen: Seen, v: string)
    requires seen.envfile == 0
    ensures ReadLine(seen, ENVFILE + v) == Some(seen.(envfile := 1, meta := seen.meta.(envfile := TrimSpace(v))))
    ensures !HasPrefix(ENVFILE + v, MANAGED)
  {
    OwnPrefix(ENVFILE, v);
    PrefixDiffers(ENVFILE, v, LISTEN, 10);
    PrefixDiffers(ENVFILE, v, MODE, 10);
    PrefixDiffers(ENVFILE, v, DATA, 10);
    PrefixDiffers(ENVFILE, v, MANAGED, 10);
  }

  lemma HealthLine(seen: Seen, v: string)
    requires seen.health == 0
    ensures ReadLine(seen, HEALTH + v) == Some(seen.(health := 1, meta := seen.meta.(health := TrimSpace(v))))
    ensures !HasPrefix(HEALTH + v, MANAGED)
  {
  }

  lemma {:induction false} ReadPrefix(a: seq<string>, b: seq<string>, n: nat)
    requires n <= |a|
    ensures ReadLines(a + b, n) == ReadLines(a, n)
    ensures HeaderCount(a + b, n) == HeaderCount(a, n)
  {
    hide ReadLine, HasPrefix;
    if n > 0 { ReadPrefix(a, b, n - 1); }
  }

  /** Plain lines after some others add nothing. */
  lemma {:induction false} PlainAddsNothing(a: seq<string>, b: seq<string>, n: nat)
    requires AllPlain(b) && n <= |b|
    ensures ReadLines(a + b, |a| + n) == ReadLines(a, |a|)
    ensures HeaderCount(a + b, |a| + n) == HeaderCount(a, |a|)
  {
    hide ReadLine, HasPrefix, Plain;
    if n == 0 {
      ReadPrefix(a, b, |a|);
    } else {
      PlainAddsNothing(a, b, n - 1);
      assert (a + b)[|a| + n - 1] == b[n - 1];
      if ReadLines(a, |a|).Some? { PlainIsIgnored(ReadLines(a, |a|).value, b[n - 1]); }
      PlainIsIgnored(NOTHING_SEEN, b[n - 1]);
    }
  }

  lemma OneMoreLine(lines: seq<string>, line: string)
    ensures ReadLines(lines + [line], |lines| + 1) ==
      match ReadLines(lines, |lines|) case None => None case Some(seen) => ReadLine(seen, line)
    ensures HeaderCount(lines + [line], |lines| + 1) == HeaderCount(lines, |lines|) + if HasPrefix(line, MANAGED) then 1 else 0
  {
    hide ReadLine, HasPrefix;
    ReadPrefix(lines, [line], |lines|);
    assert (lines + [line])[|lines|] == line;
  }

  /** What reading the metadata lines yields. */
  function MetaRead(spec: Spec): Seen {
    Seen(Meta(TrimSpace(Listener(spec)), TrimSpace(spec.listenMode), TrimSpace(DataDir(spec)), TrimSpace(spec.envfile), TrimSpace(HEALTH_PATH)),
         1, 1, 1, if spec.envfile != "" then 1 else 0, 1)
  }

  lemma MetaLinesRead(spec: Spec)
    ensures ReadLines(MetaLines(spec), |MetaLines(spec)|) == Some(MetaRead(spec))
    ensures HeaderCount(MetaLines(spec), |MetaLines(spec)|) == 0
  {
    hide ReadLine, HasPrefix, TrimSpace, Listener, DataDir;
    var l0: seq<string> := [];
    var l1 := l0 + [LISTEN + Listener(spec)];
    var l2 := l1 + [MODE + spec.listenMode];
    var l3 := l2 + [DATA + DataDir(spec)];
    var l4 := if spec.envfile != "" then l3 + [ENVFILE + spec.envfile] else l3;
    var l5 := l4 + [HEALTH + HEALTH_PATH];
    assert MetaLines(spec) == l5;
    OneMoreLine(l0, LISTEN + Listener(spec));
    ListenLine(NOTHING_SEEN, Listener(spec));
    OneMoreLine(l1, MODE + spec.listenMode);
    ModeLine(ReadLines(l1, 1).value, spec.listenMode);
    OneMoreLine(l2, DATA + DataDir(spec));
    DataLine(ReadLines(l2, 2).value, DataDir(spec));
    EmptyTrims();
    if spec.envfile != "" {
      OneMoreLine(l3, ENVFILE + spec.envfile);
      EnvLine(ReadLines(l3, 3).value, spec.envfile);
    }
    OneMoreLine(l4, HEALTH + HEALTH_PATH);
    HealthLine(ReadLines(l4, |l4|).value, HEALTH_PATH);
  }

  lemma EmptyTrims()
    ensures TrimSpace("") == "" && TrimSpace(EXPLICIT) == EXPLICIT && TrimSpace(BOOTSTRAP) == BOOTSTRAP && TrimSpace(HEALTH_PATH) == HEALTH_PATH
  {
  }

  // ----- the round trip -----

  function MetaOf(spec: Spec): Meta {
    Meta(Listener(spec), spec.listenMode, DataDir(spec), spec.envfile, HEALTH_PATH)
  }

  ghost predicate HexSum(sum: string -> string) { forall s :: Hex64(sum(s)) }

  /** The lines of a unit. */
  function UnitLines(spec: Spec, sum: string -> string): seq<string> {
    [MARKER, MANAGED + VERSION + sum(Content(spec))] + (MetaLines(spec) + BodyLines(spec))
  }

  lemma UnitIsItsLines(spec: Spec, sum: string -> string)
    ensures BuildUnit(spec, sum) == Join(UnitLines(spec, sum), '\n')
  {
  }

  lemma CleanKeys()
    ensures NoControl(LISTEN) && NoControl(MODE) && NoControl(DATA)
  {
  }

  lemma CleanMoreKeys()
    ensures NoControl(ENVFILE) && NoControl(HEALTH) && NoControl(HEALTH_PATH) && NoControl(EXPLICIT) && NoControl(BOOTSTRAP)
  {
  }

  lemma MetaLinesAreClean(spec: Spec)
    requires Representable(spec)
    ensures forall i :: 0 <= i < |MetaLines(spec)| ==> NoControl(MetaLines(spec)[i])
  {
    hide NoControl, Listener, DataDir, TrimSpace;
    CleanKeys();
    CleanMoreKeys();
    CleanJoin(LISTEN, Listener(spec));
    CleanJoin(MODE, spec.listenMode);
    CleanJoin(DATA, DataDir(spec));
    CleanJoin(ENVFILE, spec.envfile);
    CleanJoin(HEALTH, HEALTH_PATH);
  }

  lemma CleanHasNoNewline(s: string)
    requires NoControl(s)
    ensures '\n' !in s
  {
  }

  lemma BelowIsClean(spec: Spec)
    requires Representable(spec)
    ensures forall i :: 0 <= i < |MetaLines(spec) + BodyLines(spec)| ==> NoControl((MetaLines(spec) + BodyLines(spec))[i])
  {
    hide MetaLines, BodyLines, Representable, NoControl;
    MetaLinesAreClean(spec);
    BodyIsPlain(spec);
    var meta, body := MetaLines(spec), BodyLines(spec);
    forall i | 0 <= i < |body|
      ensures NoControl(body[i])
    {
      assert Plain(body[i]);
    }
  }

  lemma LinesSplitBack(spec: Spec, sum: string -> string)
    requires Representable(spec) && HexSum(sum)
    ensures Split(BuildUnit(spec, sum), '\n') == UnitLines(spec, sum)
  {
    hide MetaLines, BodyLines, Representable, Content, HexSum, NoControl, BuildUnit, Split, Join, Checksum, HasPrefix;
    UnitIsItsLines(spec, sum);
    BelowIsClean(spec);
    HeaderIsClean(sum, Content(spec));
    var lines, below := UnitLines(spec, sum), MetaLines(spec) + BodyLines(spec);
    forall i | 0 <= i < |lines|
      ensures '\n' !in lines[i]
    {
      if i >= 2 { assert lines[i] == below[i - 2]; }
      CleanHasNoNewline(lines[i]);
    }
    SplitJoined(lines, '\n');
  }

  lemma CleanHeader()
    ensures NoControl(MARKER)
  {
  }

  lemma CleanHeaderKeys()
    ensures NoControl(MANAGED) && NoControl(VERSION)
  {
  }

  lemma HexIsClean(digits: string)
    requires Hex64(digits)
    ensures NoControl(digits)
  {
  }

  lemma MarkerIsNoHeader()
    ensures !HasPrefix(MARKER, MANAGED)
  {
    PrefixDiffers(MARKER, "", MANAGED, 2);
    assert MARKER + "" == MARKER;
  }

  lemma LinePrefix(p: string, v: string, tail: string)
    ensures HasPrefix(p + v + tail, p) && HasPrefix(p + v + tail, p + v) && (p + v + tail)[|p + v|..] == tail
  {
  }

  lemma HeaderIsClean(sum: string -> string, content: string)
    requires HexSum(sum)
    ensures NoControl(MARKER) && NoControl(MANAGED + VERSION + sum(content))
    ensures Checksum(MANAGED + VERSION + sum(content)) == Some(sum(content))
    ensures HasPrefix(MANAGED + VERSION + sum(content), MANAGED) && !HasPrefix(MARKER, MANAGED)
  {
    hide NoControl, HasPrefix, Hex64;
    var digits := sum(content);
    assert Hex64(digits);
    HexIsClean(digits);
    CleanHeader();
    CleanHeaderKeys();
    MarkerIsNoHeader();
    LinePrefix(MANAGED, VERSION, digits);
    CleanJoin(MANAGED, VERSION);
    CleanJoin(MANAGED + VERSION, digits);
  }

  lemma {:induction false} CountShift(a: seq<string>, b: seq<string>, n: nat)
    requires n <= |b|
    ensures HeaderCount(a + b, |a| + n) == HeaderCount(a, |a|) + HeaderCount(b, n)
  {
    hide HasPrefix;
    if n == 0 {
      ReadPrefix(a, b, |a|);
    } else {
      CountShift(a, b, n - 1);
      assert (a + b)[|a| + n - 1] == b[n - 1];
    }
  }

  lemma HeaderLines(header: string)
    requires HasPrefix(header, MANAGED) && !HasPrefix(MARKER, MANAGED)
    ensures HeaderCount([MARKER, header], 2) == 1
  {
    hide HasPrefix;
    assert HeaderCount([MARKER, header], 1) == 0;
  }

  lemma OneHeader(spec: Spec, sum: string -> string)
    requires Representable(spec) && HexSum(sum)
    ensures HeaderCount(UnitLines(spec, sum), |UnitLines(spec, sum)|) == 1
  {
    hide MetaLines, BodyLines, Content, HasPrefix, Representable, HexSum, AllPlain, HeaderCount, NoControl, Checksum, ReadLines;
    var below := MetaLines(spec) + BodyLines(spec);
    var header := MANAGED + VERSION + sum(Content(spec));
    HeaderIsClean(sum, Content(spec));
    HeaderLines(header);
    MetaLinesRead(spec);
    BodyIsPlain(spec);
    PlainAddsNothing(MetaLines(spec), BodyLines(spec), |BodyLines(spec)|);
    CountShift([MARKER, header], below, |below|);
  }

  /** What reading concludes from the lines, the header and the checksum. */
  lemma ReadingConcludes(content: string, sum: string -> string, below: seq<string>, header: string, digits: string)
    requires Split(content, '\n') == [MARKER, header] + below && |below| >= 1
    requires HeaderCount([MARKER, header] + below, |below| + 2) == 1 && Checksum(header) == Some(digits)
    requires digits == sum(Join(below, '\n'))
    requires ReadLines(below, |below|).Some? && Acceptable(ReadLines(below, |below|).value)
    ensures ReadUnit(content, sum) == Managed(ReadLines(below, |below|).value.meta)
  {
    hide Split, HeaderCount, Checksum, Acceptable, ReadLines, Join;
    var lines := [MARKER, header] + below;
    assert |lines| == |below| + 2 && lines[0] == MARKER && lines[1] == header && lines[2..] == below;
  }

  /** A representable specification is read back unchanged. */
  lemma RepresentableSurvives(spec: Spec, sum: string -> string)
    requires Representable(spec) && HexSum(sum)
    ensures ReadUnit(BuildUnit(spec, sum), sum) == Managed(MetaOf(spec))
  {
    hide MetaLines, BodyLines, Representable, HexSum, AllPlain, BuildUnit, Checksum, HeaderCount, Acceptable, Split, ReadLines,
      MetaRead, MetaOf, HasPrefix, ReadUnit, NoControl;
    LinesSplitBack(spec, sum);
    OneHeader(spec, sum);
    HeaderIsClean(sum, Content(spec));
    MetaLinesRead(spec);
    BodyIsPlain(spec);
    PlainAddsNothing(MetaLines(spec), BodyLines(spec), |BodyLines(spec)|);
    ReadIsAcceptable(spec);
    ReadingConcludes(BuildUnit(spec, sum), sum, MetaLines(spec) + BodyLines(spec), MANAGED + VERSION + sum(Content(spec)), sum(Content(spec)));
  }

  lemma ReadIsAcceptable(spec: Spec)
    requires Representable(spec)
    ensures Acceptable(MetaRead(spec)) && MetaRead(spec).meta == MetaOf(spec)
  {
  }

  lemma {:induction false} ReadValuesAreTrimmed(lines: seq<string>, n: nat)
    requires n <= |lines| && ReadLines(lines, n).Some?
    ensures var m := ReadLines(lines, n).value.meta; Trimmed(m.listen) && Trimmed(m.data) && Trimmed(m.envfile)
  {
    EmptyTrims();
    if n > 0 {
      hide HasPrefix, TrimSpace;
      ReadValuesAreTrimmed(lines, n - 1);
      var line := lines[n - 1];
      if HasPrefix(line, LISTEN) { TrimTwice(line[|LISTEN|..]); }
      if HasPrefix(line, DATA) { TrimTwice(line[|DATA|..]); }
      if HasPrefix(line, ENVFILE) { TrimTwice(line[|ENVFILE|..]); }
    }
  }

  lemma SurvivorIsRepresentable(spec: Spec, sum: string -> string)
    requires ReadUnit(BuildUnit(spec, sum), sum) == Managed(MetaOf(spec))
    ensures Representable(spec)
  {
    hide Split, HeaderCount, Checksum, TrimSpace, NoControl, BuildUnit, Join, Listener, DataDir, ReadLines;
    var lines := Split(BuildUnit(spec, sum), '\n');
    ReadValuesAreTrimmed(lines[2..], |lines| - 2);
    CleanConstants();
    var seen := ReadLines(lines[2..], |lines| - 2).value;
    assert Acceptable(seen) && seen.meta == MetaOf(spec);
  }

  /** The managed unit round trip: reading a printed unit returns exactly the listener, mode, data
      directory and environment file it was printed from if and only if they are representable: trimmed,
      free of control characters, the first three not empty and the mode a known one, the environment
      file free of percent signs. */
  lemma UnitRoundTrips(spec: Spec, sum: string -> string)
    requires HexSum(sum)
    ensures ReadUnit(BuildUnit(spec, sum), sum) == Managed(MetaOf(spec)) <==> Representable(spec)
  {
    hide *;
    if Representable(spec) {
      RepresentableSurvives(spec, sum);
    } else if ReadUnit(BuildUnit(spec, sum), sum) == Managed(MetaOf(spec)) {
      SurvivorIsRepresentable(spec, sum);
    }
  }

  /** The command line of the unit splits back into the binary's own arguments. */
  lemma CommandLineRoundTrips(spec: Spec)
    ensures "ExecStart=" + BINARY_PATH + JoinArgs(Arguments(spec)) in BodyLines(spec)
    ensures SplitArgs(JoinArgs(Arguments(spec)), 0) == Some(Arguments(spec))
  {
    hide Quote, SplitArgs, Arguments, JoinArgs, DataDir;
    assert BodyLines(spec)[11] == "ExecStart=" + BINARY_PATH + JoinArgs(Arguments(spec));
    ArgumentsRoundTrip(Arguments(spec));
  }
}
