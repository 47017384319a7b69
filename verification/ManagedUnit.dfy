/** Printing and reading the managed service unit (internal/service/service.go, systemdQuote, unitBody,
    buildUnit, listener and readManagedUnit). */
module ManagedUnit {
  import opened Base
  import opened Text

  // ----- quoting -----

  function Escape(c: char): string {
    if c == '%' then "%%" else if c in "\"\\$`" then ['\\', c] else [c]
  }

  function Escaped(s: string): string {
    if s == "" then "" else Escape(s[0]) + Escaped(s[1..])
  }

  function Quote(s: string): string { "\"" + Escaped(s) + "\"" }

  lemma {:induction false} EscapedOneMore(s: string, c: char)
    ensures Escaped(s + [c]) == Escaped(s) + Escape(c)
  {
    if s == "" {
      assert [c][1..] == "";
    } else {
      EscapedOneMore(s[1..], c);
      assert (s + [c])[1..] == s[1..] + [c];
    }
  }

  /** systemdQuote. */
  method SystemdQuote(s: string) returns (b: string)
    ensures b == Quote(s)
  {
    b := "\"";
    for i := 0 to |s|
      invariant b == "\"" + Escaped(s[..i])
    {
      assert s[..i + 1] == s[..i] + [s[i]];
      EscapedOneMore(s[..i], s[i]);
      var c := s[i];
      if c == '%' {
        b := b + "%%";
      } else if c == '"' || c == '\\' || c == '$' || c == '`' {
        b := b + ['\\', c];
      } else {
        b := b + [c];
      }
    }
    assert s[..|s|] == s;
    b := b + "\"";
  }

  /** Reading a quoted argument from after its opening quote: a backslash keeps the next character, a
      doubled percent sign stands for one. */
  function Unescape(s: string, i: nat): (r: Option<(string, nat)>)
    ensures r.Some? ==> i < r.value.1 <= |s|
    decreases |s| - i
  {
    if i >= |s| then None
    else if s[i] == '"' then Some(("", i + 1))
    else if s[i] == '\\' || s[i] == '%' then
      if i + 1 >= |s| || (s[i] == '%' && s[i + 1] != '%') then None
      else
        match Unescape(s, i + 2)
        case None => None
        case Some((rest, end)) => Some(([s[i + 1]] + rest, end))
    else
      match Unescape(s, i + 1)
      case None => None
      case Some((rest, end)) => Some(([s[i]] + rest, end))
  }

  /** Splitting a command line of quoted arguments, each after one space. */
  function SplitArgs(s: string, i: nat): Option<seq<string>>
    requires i <= |s|
    decreases |s| - i
  {
    if i == |s| then Some([])
    else if s[i] != ' ' || i + 1 >= |s| || s[i + 1] != '"' then None
    else
      match Unescape(s, i + 2)
      case None => None
      case Some((arg, end)) =>
        match SplitArgs(s, end)
        case None => None
        case Some(rest) => Some([arg] + rest)
  }

  function JoinArgs(args: seq<string>): string {
    if args == [] then "" else " " + Quote(args[0]) + JoinArgs(args[1..])
  }

  function Prepend(c: char, r: Option<(string, nat)>): Option<(string, nat)> {
    match r
    case None => None
    case Some((rest, end)) => Some(([c] + rest, end))
  }

  /** One escaped character is read as the character. */
  lemma UnescapeOne(s: string, i: nat, c: char, tail: string)
    requires i <= |s| && s[i..] == Escape(c) + tail
    ensures var j := i + |Escape(c)|; j <= |s| && s[j..] == tail && Unescape(s, i) == Prepend(c, Unescape(s, j))
  {
  }

  lemma {:induction false} UnescapesEscaped(s: string, i: nat, a: string, rest: string)
    requires i <= |s| && s[i..] == Escaped(a) + "\"" + rest
    ensures Unescape(s, i) == Some((a, i + |Escaped(a)| + 1))
    decreases |a|
  {
    if a == "" {
      assert s[i] == s[i..][0] == '"';
    } else {
      hide Escape, Unescape;
      var tail := Escaped(a[1..]) + "\"" + rest;
      assert s[i..] == Escape(a[0]) + tail;
      UnescapeOne(s, i, a[0], tail);
      UnescapesEscaped(s, i + |Escape(a[0])|, a[1..], rest);
      assert a == [a[0]] + a[1..];
    }
  }

  lemma {:induction false} ArgsSplitFrom(s: string, i: nat, args: seq<string>)
    requires i <= |s| && s[i..] == JoinArgs(args)
    ensures SplitArgs(s, i) == Some(args)
    decreases |args|
  {
    hide Quote, Escaped, Unescape;
    if args == [] {
      assert i == |s|;
    } else {
      SplitOneArg(s, i, args[0], JoinArgs(args[1..]));
      var end := i + 2 + |Escaped(args[0])| + 1;
      ArgsSplitFrom(s, end, args[1..]);
      assert args == [args[0]] + args[1..];
    }
  }

  lemma SplitOneArg(s: string, i: nat, a: string, rest: string)
    requires i <= |s| && s[i..] == " " + Quote(a) + rest
    ensures i + 2 + |Escaped(a)| + 1 <= |s| && s[i] == ' ' && s[i + 1] == '"'
    ensures Unescape(s, i + 2) == Some((a, i + 2 + |Escaped(a)| + 1))
    ensures s[i + 2 + |Escaped(a)| + 1..] == rest
  {
    hide Escaped, Unescape;
    assert s[i..] == [' ', '"'] + (Escaped(a) + "\"" + rest);
    assert s[i] == s[i..][0] && s[i + 1] == s[i..][1];
    assert s[i + 2..] == s[i..][2..] == Escaped(a) + "\"" + rest;
    UnescapesEscaped(s, i + 2, a, rest);
    assert s[i + 2 + |Escaped(a)| + 1..] == s[i + 2..][|Escaped(a)| + 1..];
  }

  /** Quoted arguments split and unquote back to exactly the original list. */
  lemma ArgumentsRoundTrip(args: seq<string>)
    ensures SplitArgs(JoinArgs(args), 0) == Some(args)
  {
    assert JoinArgs(args)[0..] == JoinArgs(args);
    ArgsSplitFrom(JoinArgs(args), 0, args);
  }

  // ----- the unit -----

  const MARKER := "# Managed by trestle. Do not edit manually."
  const MANAGED := "# trestle-managed: "
  const VERSION := "v1 sha256="
  const LISTEN := "# trestle-listen: "
  const MODE := "# trestle-listen-mode: "
  const DATA := "# trestle-data: "
  const ENVFILE := "# trestle-envfile: "
  const HEALTH := "# trestle-health: "
  const HEALTH_PATH := "/system/health"
  const BINARY_PATH := "/usr/local/bin/trestle"
  const DEFAULT_DATA_DIR := "/var/lib/trestle"
  const EXPLICIT := "explicit"
  const BOOTSTRAP := "bootstrap"

  datatype Spec = Spec(dataDir: string, envfile: string, listen: string, host: string, port: string, listenMode: string)

  datatype Meta = Meta(listen: string, listenMode: string, data: string, envfile: string, health: string)

  /** net.JoinHostPort. */
  function JoinHostPort(host: string, port: string): string {
    if ':' in host then "[" + host + "]:" + port else host + ":" + port
  }

  function Listener(spec: Spec): string {
    if spec.listen != "" then spec.listen else JoinHostPort(TrimSpace(spec.host), TrimSpace(spec.port))
  }

  function DataDir(spec: Spec): string {
    if spec.dataDir == "" then DEFAULT_DATA_DIR else spec.dataDir
  }

  /** The arguments of ExecStart. */
  function Arguments(spec: Spec): seq<string> {
    (if spec.listen != "" then ["--listen", spec.listen]
     else ["--host", TrimSpace(spec.host), "--port", TrimSpace(spec.port)])
    + ["--data-dir", DataDir(spec)]
  }

  /** unitBody, line by line; the last line is the empty one after the final newline. */
  function BodyLines(spec: Spec): seq<string> {
    ["[Unit]", "Description=Trestle records service", "After=network-online.target", "Wants=network-online.target",
     "StartLimitIntervalSec=60", "StartLimitBurst=5", "", "[Service]", "Type=simple", "User=trestle", "Group=trestle",
     "ExecStart=" + BINARY_PATH + JoinArgs(Arguments(spec)),
     "Restart=on-failure", "RestartSec=3", "NoNewPrivileges=true", "PrivateTmp=true", "ProtectSystem=strict",
     "ProtectHome=true", "ReadWritePaths=" + Quote(DataDir(spec))]
    + (if spec.envfile != "" then ["EnvironmentFile=" + Quote(spec.envfile)] else [])
    + ["", "[Install]", "WantedBy=multi-user.target", ""]
  }

  function MetaLines(spec: Spec): seq<string> {
    [LISTEN + Listener(spec), MODE + spec.listenMode, DATA + DataDir(spec)]
    + (if spec.envfile != "" then [ENVFILE + spec.envfile] else [])
    + [HEALTH + HEALTH_PATH]
  }

  /** The part of the unit below the header, which the checksum covers. */
  function Content(spec: Spec): string { Join(MetaLines(spec) + BodyLines(spec), '\n') }

  /** buildUnit; `sum` is the hexadecimal SHA-256. */
  function BuildUnit(spec: Spec, sum: string -> string): string {
    MARKER + ['\n'] + (MANAGED + VERSION + sum(Content(spec)) + ['\n'] + Content(spec))
  }

  // ----- reading it back -----

  datatype Reading = Managed(meta: Meta) | NotManaged | Malformed | Modified

  /** The values read so far and how often each key was seen. */
  datatype Seen = Seen(meta: Meta, listen: nat, mode: nat, data: nat, envfile: nat, health: nat)

  const NOTHING_SEEN := Seen(Meta("", BOOTSTRAP, "", "", ""), 0, 0, 0, 0, 0)

  function Value(line: string, prefix: string): string
    requires HasPrefix(line, prefix)
  {
    TrimSpace(line[|prefix|..])
  }

  /** One line of the body; None when a key repeats. */
  function ReadLine(seen: Seen, line: string): Option<Seen> {
    var m := seen.meta;
    if HasPrefix(line, LISTEN) then
      if seen.listen >= 1 then None else Some(seen.(listen := 1, meta := m.(listen := Value(line, LISTEN))))
    else if HasPrefix(line, MODE) then
      if seen.mode >= 1 then None else Some(seen.(mode := 1, meta := m.(listenMode := Value(line, MODE))))
    else if HasPrefix(line, DATA) then
      if seen.data >= 1 then None else Some(seen.(data := 1, meta := m.(data := Value(line, DATA))))
    else if HasPrefix(line, ENVFILE) then
      if seen.envfile >= 1 then None else Some(seen.(envfile := 1, meta := m.(envfile := Value(line, ENVFILE))))
    else if HasPrefix(line, HEALTH) then
      if seen.health >= 1 then None else Some(seen.(health := 1, meta := m.(health := Value(line, HEALTH))))
    else Some(seen)
  }

  function ReadLines(lines: seq<string>, n: nat): Option<Seen>
    requires n <= |lines|
  {
    if n == 0 then Some(NOTHING_SEEN)
    else
      match ReadLines(lines, n - 1)
      case None => None
      case Some(seen) => ReadLine(seen, lines[n - 1])
  }

  predicate Hex64(s: string) {
    |s| == 64 && forall i :: 0 <= i < |s| ==> '0' <= s[i] <= '9' || 'a' <= s[i] <= 'f'
  }

  /** The checksum of a well-formed header line. */
  function Checksum(line: string): Option<string> {
    if HasPrefix(line, MANAGED + VERSION) && Hex64(line[|MANAGED + VERSION|..]) then Some(line[|MANAGED + VERSION|..]) else None
  }

  function HeaderCount(lines: seq<string>, n: nat): nat
    requires n <= |lines|
  {
    if n == 0 then 0 else HeaderCount(lines, n - 1) + if HasPrefix(lines[n - 1], MANAGED) then 1 else 0
  }

  predicate NoControl(s: string) {
    forall i :: 0 <= i < |s| ==> s[i] >= ' ' && s[i] != '\U{7F}'
  }

  /** The checks on the values. */
  predicate Acceptable(seen: Seen) {
    var m := seen.meta;
    && seen.listen == 1 && seen.data == 1 && seen.health == 1 && m.listen != "" && m.data != ""
    && (m.listenMode == EXPLICIT || m.listenMode == BOOTSTRAP)
    && m.health == HEALTH_PATH
    && NoControl(m.listen) && NoControl(m.data)
    && (m.envfile != "" ==> NoControl(m.envfile) && '%' !in m.envfile)
  }

  function ReadUnit(content: string, sum: string -> string): Reading {
    var lines := Split(content, '\n');
    if |lines| < 3 || lines[0] != MARKER then NotManaged
    else if HeaderCount(lines, |lines|) != 1 || Checksum(lines[1]) == None then Malformed
    else if sum(Join(lines[2..], '\n')) != Checksum(lines[1]).value then Modified
    else
      match ReadLines(lines[2..], |lines| - 2)
      case None => Malformed
      case Some(seen) => if Acceptable(seen) then Managed(seen.meta) else Malformed
  }

  lemma {:induction false} RepeatStays(lines: seq<string>, n: nat, m: nat)
    requires n <= m <= |lines| && ReadLines(lines, n) == None
    ensures ReadLines(lines, m) == None
  {
    if n < m { RepeatStays(lines, n, m - 1); }
  }

  /** validateNoControl. */
  method HasNoControl(v: string) returns (ok: bool)
    ensures ok <==> NoControl(v)
  {
    for i := 0 to |v|
      invariant forall j :: 0 <= j < i ==> v[j] >= ' ' && v[j] != '\U{7F}'
    {
      if v[i] < ' ' || v[i] == '\U{7F}' { return false; }
    }
    return true;
  }

  method CountHeaders(lines: seq<string>) returns (count: nat)
    ensures count == HeaderCount(lines, |lines|)
  {
    count := 0;
    for i := 0 to |lines|
      invariant count == HeaderCount(lines, i)
    {
      if HasPrefix(lines[i], MANAGED) { count := count + 1; }
    }
  }

  /** The line loop of readManagedUnit, with its five counters. */
  method ReadEach(lines: seq<string>) returns (r: Option<Seen>)
    ensures r == ReadLines(lines, |lines|)
  {
    hide HasPrefix, Value;
    var meta := Meta("", BOOTSTRAP, "", "", "");
    var listenSeen, modeSeen, dataSeen, envfileSeen, healthSeen := 0, 0, 0, 0, 0;
    for i := 0 to |lines|
      invariant 0 <= listenSeen && 0 <= modeSeen && 0 <= dataSeen && 0 <= envfileSeen && 0 <= healthSeen
      invariant ReadLines(lines, i) == Some(Seen(meta, listenSeen, modeSeen, dataSeen, envfileSeen, healthSeen))
    {
      var ln := lines[i];
      ghost var before := Seen(meta, listenSeen, modeSeen, dataSeen, envfileSeen, healthSeen);
      if ReadLine(before, ln) == None { RepeatStays(lines, i + 1, |lines|); }
      if HasPrefix(ln, LISTEN) {
        listenSeen := listenSeen + 1;
        if listenSeen > 1 { return None; }
        meta := meta.(listen := Value(ln, LISTEN));
      } else if HasPrefix(ln, MODE) {
        modeSeen := modeSeen + 1;
        if modeSeen > 1 { return None; }
        meta := meta.(listenMode := Value(ln, MODE));
      } else if HasPrefix(ln, DATA) {
        dataSeen := dataSeen + 1;
        if dataSeen > 1 { return None; }
        meta := meta.(data := Value(ln, DATA));
      } else if HasPrefix(ln, ENVFILE) {
        envfileSeen := envfileSeen + 1;
        if envfileSeen > 1 { return None; }
        meta := meta.(envfile := Value(ln, ENVFILE));
      } else if HasPrefix(ln, HEALTH) {
        healthSeen := healthSeen + 1;
        if healthSeen > 1 { return None; }
        meta := meta.(health := Value(ln, HEALTH));
      }
    }
    r := Some(Seen(meta, listenSeen, modeSeen, dataSeen, envfileSeen, healthSeen));
  }

  /** readManagedUnit. */
  method ReadManagedUnit(content: string, sum: string -> string) returns (r: Reading)
    ensures r == ReadUnit(content, sum)
  {
    hide Split, ReadLines, HeaderCount, Checksum, NoControl;
    var lines := Split(content, '\n');
    if |lines| < 3 || lines[0] != MARKER { return NotManaged; }
    var count := CountHeaders(lines);
    var recorded := Checksum(lines[1]);
    if count != 1 || recorded == None { return Malformed; }
    if sum(Join(lines[2..], '\n')) != recorded.value { return Modified; }
    var seen := ReadEach(lines[2..]);
    if seen == None { return Malformed; }
    var m := seen.value.meta;
    if seen.value.listen != 1 || seen.value.data != 1 || seen.value.health != 1 || m.listen == "" || m.data == "" || m.health == "" {
      return Malformed;
    }
    if m.listenMode != EXPLICIT && m.listenMode != BOOTSTRAP { return Malformed; }
    if m.health != HEALTH_PATH { return Malformed; }
    var clean := HasNoControl(m.listen);
    if !clean { return Malformed; }
    clean := HasNoControl(m.data);
    if !clean { return Malformed; }
    if m.envfile != "" {
      clean := HasNoControl(m.envfile);
      if !clean || '%' in m.envfile { return Malformed; }
    }
    return Managed(m);
  }
}
