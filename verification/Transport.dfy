/** The replay window of the cluster transport (internal/cluster/transport.go, Authenticate). The
    envelope check accepts timestamps within the clock skew of now, and a signature fixes an envelope's
    node, nonce and timestamp. A call reads the clock four times and sends a DELETE and an INSERT outside
    any transaction, so the statements of other calls may come in between. */
module Transport {
  import opened Base

  datatype Envelope = Envelope(node: string, nonce: string, timestamp: Time) {
    /** The primary key of a recorded nonce. */
    function Key(): (string, string) { (node, nonce) }
  }

  /** The nonce table: when each nonce of each node was seen. */
  type Nonces = map<(string, string), Time>

  /** The envelope of a call past its checks, and the reading it was verified with. */
  datatype Checked = Checked(e: Envelope, verify: Time)

  /** The member and nonce tables, and the calls between their checks and their INSERT. */
  datatype State = State(members: set<string>, nonces: Nonces, open: map<nat, Checked>)

  const EMPTY := State({}, map[], map[])

  /** What a call does, under its number, or a change of membership. `verified` is the outcome of the
      credential and signature checks. */
  datatype Event =
    | Check(call: nat, e: Envelope, verified: bool, read: Time, verify: Time)
    | Prune(call: nat, at: Time)
    | Record(call: nat, at: Time)
    | AddMember(node: string)
    | RemoveMember(node: string)

  predicate InWindow(e: Envelope, now: Time, skew: nat) {
    now - skew <= e.timestamp <= now + skew
  }

  /** The sender is a member, and both checks of the timestamp pass. */
  predicate Passes(members: set<string>, e: Envelope, verified: bool, read: Time, verify: Time, skew: nat) {
    e.node in members && verified && InWindow(e, read, skew) && InWindow(e, verify, skew)
  }

  function Cutoff(at: Time, skew: nat): Time { at - 2 * skew }

  function Pruned(nonces: Nonces, cutoff: Time): Nonces {
    map k | k in nonces && nonces[k] >= cutoff :: nonces[k]
  }

  /** The INSERT violates neither the primary key nor the reference to the member. */
  predicate Insertable(members: set<string>, nonces: Nonces, e: Envelope) {
    e.node in members && e.Key() !in nonces
  }

  predicate Accepts(s: State, x: Event) {
    x.Record? && x.call in s.open && Insertable(s.members, s.nonces, s.open[x.call].e)
  }

  function Step(s: State, x: Event, skew: nat): State {
    match x
    case Check(call, e, verified, read, verify) =>
      if Passes(s.members, e, verified, read, verify, skew) then s.(open := s.open[call := Checked(e, verify)]) else s
    case Prune(call, at) =>
      if call in s.open then s.(nonces := Pruned(s.nonces, Cutoff(at, skew))) else s
    case Record(call, at) =>
      if Accepts(s, x) then State(s.members, s.nonces[s.open[call].e.Key() := at], s.open - {call})
      else s.(open := s.open - {call})
    case AddMember(node) => s.(members := s.members + {node})
    case RemoveMember(node) => s.(members := s.members - {node}, nonces := map k | k in s.nonces && k.0 != node :: s.nonces[k])
  }

  function RunFrom(s: State, events: seq<Event>, skew: nat): State {
    if events == [] then s else Step(RunFrom(s, events[..|events| - 1], skew), events[|events| - 1], skew)
  }

  function Run(events: seq<Event>, skew: nat): State { RunFrom(EMPTY, events, skew) }

  // ----- one call -----

  /** The clock readings of one call, in the order it takes them. */
  datatype Readings = Readings(read: Time, verify: Time, prune: Time, seen: Time)

  /** The events of a call with nothing in between; an error of its DELETE is ignored. */
  function Alone(e: Envelope, verified: bool, c: Readings, deleted: bool): seq<Event> {
    [Check(0, e, verified, c.read, c.verify)] + (if deleted then [Prune(0, c.prune)] else []) + [Record(0, c.seen)]
  }

  class Transport {
    const skew: nat
    var members: set<string>
    var nonces: Nonces

    constructor (skew: nat)
      ensures this.skew == skew && Tables() == EMPTY
    {
      this.skew := skew;
      members, nonces := {}, map[];
    }

    /** The tables, while no call is under way. */
    function Tables(): State
      reads this
    {
      State(members, nonces, map[])
    }

    /** DELETE … WHERE seen_at<?. */
    method DeleteOld(at: Time)
      modifies this`nonces
      ensures nonces == Pruned(old(nonces), Cutoff(at, skew))
    {
      var cutoff := at - 2 * skew;
      nonces := map k | k in nonces && nonces[k] >= cutoff :: nonces[k];
    }

    /** INSERT INTO _trestle_cluster_nonces …. */
    method Insert(e: Envelope, at: Time) returns (ok: bool)
      modifies this`nonces
      ensures ok <==> Insertable(members, old(nonces), e)
      ensures nonces == if ok then old(nonces)[e.Key() := at] else old(nonces)
    {
      if e.node !in members || (e.node, e.nonce) in nonces { return false; }
      nonces := nonces[(e.node, e.nonce) := at];
      return true;
    }

    /** Authenticate with no other call in between. */
    method Authenticate(e: Envelope, verified: bool, c: Readings, deleted: bool) returns (ok: bool)
      modifies this`nonces
      ensures ok <==> (Passes(members, e, verified, c.read, c.verify, skew)
        && (e.Key() in old(nonces) ==> deleted && old(nonces)[e.Key()] < Cutoff(c.prune, skew)))
      ensures Tables() == RunFrom(old(Tables()), Alone(e, verified, c, deleted), skew)
      ensures ok ==> e.Key() in nonces && nonces[e.Key()] == c.seen
    {
      AloneSteps(Tables(), e, verified, c, deleted, skew);
      if e.timestamp < c.read - skew || e.timestamp > c.read + skew { return false; }
      if e.node !in members { return false; }
      if !verified || e.timestamp < c.verify - skew || e.timestamp > c.verify + skew { return false; }
      if deleted { DeleteOld(c.prune); }
      ok := Insert(e, c.seen);
    }
  }

  lemma AloneSteps(s: State, e: Envelope, verified: bool, c: Readings, deleted: bool, skew: nat)
    requires s.open == map[]
    ensures var t := RunFrom(s, Alone(e, verified, c, deleted), skew);
      var kept := if deleted then Pruned(s.nonces, Cutoff(c.prune, skew)) else s.nonces;
      t == if !Passes(s.members, e, verified, c.read, c.verify, skew) then s
           else if Insertable(s.members, kept, e) then s.(nonces := kept[e.Key() := c.seen])
           else s.(nonces := kept)
  {
    var events := Alone(e, verified, c, deleted);
    var checked := Step(s, events[0], skew);
    RunOneMore(s, events, 0, skew);
    RunOneMore(s, events, 1, skew);
    assert events[..|events|] == events;
    if deleted { RunOneMore(s, events, 2, skew); }
  }

  lemma RunOneMore(s: State, events: seq<Event>, n: nat, skew: nat)
    requires n < |events|
    ensures RunFrom(s, events[..n + 1], skew) == Step(RunFrom(s, events[..n], skew), events[n], skew)
  {
    assert events[..n + 1][..n] == events[..n];
  }

  // ----- a second use, over all interleavings -----

  /** The call that sends its INSERT as event i has passed its checks, with an envelope of this key. */
  predicate PassedAt(events: seq<Event>, i: nat, key: (string, string), skew: nat)
    requires i < |events|
  {
    var s := Run(events[..i], skew);
    events[i].Record? && events[i].call in s.open && s.open[events[i].call].e.Key() == key
  }

  /** That call is accepted. */
  predicate AcceptedAt(events: seq<Event>, i: nat, key: (string, string), skew: nat)
    requires i < |events|
  {
    PassedAt(events, i, key, skew) && Accepts(Run(events[..i], skew), events[i])
  }

  /** Event k removes a nonce of this key seen at that time: the sender is removed, or some call, whichever
      it is, deletes with a later cutoff. */
  predicate Erases(events: seq<Event>, k: nat, key: (string, string), seen: Time, skew: nat)
    requires k < |events|
  {
    || events[k] == RemoveMember(key.0)
    || (events[k].Prune? && events[k].call in Run(events[..k], skew).open && seen < Cutoff(events[k].at, skew))
  }

  lemma AcceptedIsRecorded(s: State, x: Event, skew: nat)
    requires Accepts(s, x)
    ensures var key := s.open[x.call].e.Key(); key in Step(s, x, skew).nonces && Step(s, x, skew).nonces[key] == x.at
  {
  }

  /** What one event does to a recorded nonce. */
  lemma RecordedStep(s: State, x: Event, skew: nat, key: (string, string))
    requires key in s.nonces
    ensures key in Step(s, x, skew).nonces <==>
      x != RemoveMember(key.0) && !(x.Prune? && x.call in s.open && s.nonces[key] < Cutoff(x.at, skew))
    ensures key in Step(s, x, skew).nonces ==> Step(s, x, skew).nonces[key] == s.nonces[key]
  {
  }

  /** What one event does to an absent one. */
  lemma AbsentStep(s: State, x: Event, skew: nat, key: (string, string))
    requires key !in s.nonces
    ensures key in Step(s, x, skew).nonces <==> Accepts(s, x) && s.open[x.call].e.Key() == key
  {
  }

  /** An accepted nonce stays recorded until an event erases it. */
  lemma {:induction false} NonceStays(events: seq<Event>, i: nat, n: nat, key: (string, string), skew: nat)
    requires i < n <= |events| && AcceptedAt(events, i, key, skew)
    requires forall k | i < k < n :: !Erases(events, k, key, events[i].at, skew)
    ensures var s := Run(events[..n], skew); key in s.nonces && s.nonces[key] == events[i].at
    decreases n
  {
    hide Step, Accepts;
    RunOneMore(EMPTY, events, n - 1, skew);
    var s := Run(events[..n - 1], skew);
    if n == i + 1 {
      AcceptedIsRecorded(s, events[i], skew);
    } else {
      NonceStays(events, i, n - 1, key, skew);
      RecordedStep(s, events[n - 1], skew, key);
      assert !Erases(events, n - 1, key, events[i].at, skew);
    }
  }

  /** Once erased it is gone until the key is accepted again. */
  lemma {:induction false} NonceGone(events: seq<Event>, i: nat, k: nat, n: nat, key: (string, string), skew: nat)
    requires i < k < n <= |events| && AcceptedAt(events, i, key, skew)
    requires Erases(events, k, key, events[i].at, skew)
    requires forall m | i < m < k :: !Erases(events, m, key, events[i].at, skew)
    requires forall m | i < m < n :: !AcceptedAt(events, m, key, skew)
    ensures key !in Run(events[..n], skew).nonces
    decreases n
  {
    hide Step, Accepts;
    RunOneMore(EMPTY, events, n - 1, skew);
    var s := Run(events[..n - 1], skew);
    if n == k + 1 {
      NonceStays(events, i, k, key, skew);
      RecordedStep(s, events[k], skew, key);
    } else {
      NonceGone(events, i, k, n - 1, key, skew);
      AbsentStep(s, events[n - 1], skew, key);
      assert !AcceptedAt(events, n - 1, key, skew);
      NeverUnlessRecord(s, events[n - 1]);
    }
  }

  lemma NeverUnlessRecord(s: State, x: Event)
    ensures Accepts(s, x) ==> x.Record? && x.call in s.open
  {
  }

  lemma {:induction false} FirstErasure(events: seq<Event>, i: nat, k: nat, key: (string, string), seen: Time, skew: nat) returns (first: nat)
    requires i < k < |events| && Erases(events, k, key, seen, skew)
    ensures i < first <= k && Erases(events, first, key, seen, skew)
    ensures forall m | i < m < first :: !Erases(events, m, key, seen, skew)
    decreases k
  {
    first := k;
    if m :| i < m < k && Erases(events, m, key, seen, skew) {
      first := FirstErasure(events, i, m, key, seen, skew);
    }
  }

  /** The next use of an accepted nonce, over every interleaving of calls: it is accepted if and only if it
      passes the checks, its sender is a member, and between the two INSERTs the nonce was erased, by its own
      call or another one. */
  lemma ReplayExactly(events: seq<Event>, i: nat, j: nat, key: (string, string), skew: nat)
    requires i < j < |events| && AcceptedAt(events, i, key, skew)
    requires forall m | i < m < j :: !AcceptedAt(events, m, key, skew)
    ensures AcceptedAt(events, j, key, skew) <==>
      && PassedAt(events, j, key, skew)
      && key.0 in Run(events[..j], skew).members
      && exists k | i < k < j :: Erases(events, k, key, events[i].at, skew)
  {
    hide Erases, Step;
    if k :| i < k < j && Erases(events, k, key, events[i].at, skew) {
      var first := FirstErasure(events, i, k, key, events[i].at, skew);
      NonceGone(events, i, first, j, key, skew);
    } else {
      NonceStays(events, i, j, key, skew);
    }
  }

  /** The reading the call of event i was verified with, and its envelope. */
  function CheckedAt(events: seq<Event>, i: nat, key: (string, string), skew: nat): Checked
    requires i < |events| && PassedAt(events, i, key, skew)
  {
    Run(events[..i], skew).open[events[i].call]
  }

  predicate AllPassed(s: State, skew: nat) {
    forall c :: c in s.open ==> InWindow(s.open[c].e, s.open[c].verify, skew)
  }

  lemma {:induction false} OpenCallsPassed(events: seq<Event>, skew: nat)
    ensures AllPassed(Run(events, skew), skew)
  {
    if events != [] {
      OpenCallsPassed(events[..|events| - 1], skew);
      PassedStep(Run(events[..|events| - 1], skew), events[|events| - 1], skew);
    }
  }

  lemma PassedStep(s: State, x: Event, skew: nat)
    requires AllPassed(s, skew)
    ensures AllPassed(Step(s, x, skew), skew)
  {
  }

  /** An envelope is accepted twice only at the edge of its window: some call's pruning read the clock after
      the end of the window, and deleted between the two INSERTs, though the second call was verified
      within it. Nothing is asked of the clock but that the first call recorded no earlier than it verified. */
  lemma ReplayOnlyAtTheEdge(events: seq<Event>, i: nat, j: nat, key: (string, string), skew: nat)
    requires i < j < |events| && AcceptedAt(events, i, key, skew) && AcceptedAt(events, j, key, skew)
    requires CheckedAt(events, i, key, skew).e == CheckedAt(events, j, key, skew).e
    requires CheckedAt(events, i, key, skew).verify <= events[i].at
    requires forall k | i < k < j :: events[k] != RemoveMember(key.0)
    ensures var second := CheckedAt(events, j, key, skew);
      exists k | i < k < j :: events[k].Prune? && events[k].at > second.e.timestamp + skew >= second.verify
  {
    OpenCallsPassed(events[..i], skew);
    OpenCallsPassed(events[..j], skew);
    if forall k | i < k < j :: !Erases(events, k, key, events[i].at, skew) {
      NonceStays(events, i, j, key, skew);
    } else {
      var k :| i < k < j && Erases(events, k, key, events[i].at, skew);
      assert events[k].Prune?;
    }
  }

  /** So no envelope is accepted twice when every DELETE before the second INSERT uses a reading no later
      than the one that verified the second call, as with calls that do not overlap and prune with the
      reading they verified with. */
  lemma NoReplay(events: seq<Event>, i: nat, j: nat, key: (string, string), skew: nat)
    requires i < j < |events| && AcceptedAt(events, i, key, skew) && PassedAt(events, j, key, skew)
    requires CheckedAt(events, i, key, skew).e == CheckedAt(events, j, key, skew).e
    requires CheckedAt(events, i, key, skew).verify <= events[i].at
    requires forall k | i < k < j :: events[k] != RemoveMember(key.0)
    requires forall k | i < k < j && events[k].Prune? :: events[k].at <= CheckedAt(events, j, key, skew).verify
    ensures !AcceptedAt(events, j, key, skew)
  {
    if AcceptedAt(events, j, key, skew) {
      ReplayOnlyAtTheEdge(events, i, j, key, skew);
    }
  }

  // ----- what an accepted call has passed -----

  /** The call of this number passed its checks at event i: the signature was verified, the sender was a member,
      and the envelope's timestamp lay within the skew of both readings. */
  predicate CheckedBy(events: seq<Event>, i: nat, call: nat, checked: Checked, skew: nat)
    requires i < |events|
  {
    var x := events[i];
    && x.Check? && x.call == call && checked == Checked(x.e, x.verify) && x.verified
    && x.e.node in Run(events[..i], skew).members
    && x.read - skew <= x.e.timestamp <= x.read + skew
    && x.verify - skew <= x.e.timestamp <= x.verify + skew
  }

  lemma {:induction false} OpenWasChecked(events: seq<Event>, call: nat, skew: nat) returns (i: nat)
    requires call in Run(events, skew).open
    ensures i < |events| && CheckedBy(events, i, call, Run(events, skew).open[call], skew)
    ensures forall k | i < k < |events| :: !(events[k].Record? && events[k].call == call)
  {
    var before, x := events[..|events| - 1], events[|events| - 1];
    var s := Run(before, skew);
    OpenStep(s, x, call, skew);
    if x.Check? && x.call == call && Passes(s.members, x.e, x.verified, x.read, x.verify, skew) {
      i := |events| - 1;
    } else {
      i := OpenWasChecked(before, call, skew);
      assert before[..i] == events[..i];
      assert forall k | i < k < |before| :: events[k] == before[k];
    }
  }

  lemma OpenStep(s: State, x: Event, call: nat, skew: nat)
    requires call in Step(s, x, skew).open
    ensures if x.Check? && x.call == call && Passes(s.members, x.e, x.verified, x.read, x.verify, skew)
      then Step(s, x, skew).open[call] == Checked(x.e, x.verify)
      else call in s.open && Step(s, x, skew).open[call] == s.open[call] && !(x.Record? && x.call == call)
  {
  }

  /** Every accepted call had passed its checks, in the same run and not used since. */
  lemma AcceptedWasChecked(events: seq<Event>, j: nat, key: (string, string), skew: nat) returns (i: nat)
    requires j < |events| && AcceptedAt(events, j, key, skew)
    ensures i < j && events[i].Check? && events[i].e.Key() == key && CheckedBy(events, i, events[j].call, CheckedAt(events, j, key, skew), skew)
    ensures forall k | i < k < j :: !(events[k].Record? && events[k].call == events[j].call)
    ensures key.0 in Run(events[..j], skew).members
  {
    i := OpenWasChecked(events[..j], events[j].call, skew);
    assert events[..j][..i] == events[..i];
    assert forall k | i <= k < j :: events[..j][k] == events[k];
  }

  lemma {:induction false} NeverAcceptedIsAbsent(events: seq<Event>, n: nat, key: (string, string), skew: nat)
    requires n <= |events| && forall m | 0 <= m < n :: !AcceptedAt(events, m, key, skew)
    ensures key !in Run(events[..n], skew).nonces
  {
    if n > 0 {
      hide Step, Accepts;
      NeverAcceptedIsAbsent(events, n - 1, key, skew);
      RunOneMore(EMPTY, events, n - 1, skew);
      AbsentStep(Run(events[..n - 1], skew), events[n - 1], skew, key);
      NeverUnlessRecord(Run(events[..n - 1], skew), events[n - 1]);
      assert !AcceptedAt(events, n - 1, key, skew);
    }
  }

  /** The first use of a nonce by a call past its checks is accepted, if its sender is still a member. */
  lemma FirstUseAccepted(events: seq<Event>, j: nat, key: (string, string), skew: nat)
    requires j < |events| && PassedAt(events, j, key, skew) && key.0 in Run(events[..j], skew).members
    requires forall m | 0 <= m < j :: !AcceptedAt(events, m, key, skew)
    ensures AcceptedAt(events, j, key, skew)
  {
    NeverAcceptedIsAbsent(events, j, key, skew);
  }

  // ----- the edge -----

  /** A call with one reading for its checks and one for the rest. */
  function Whole(call: nat, e: Envelope, at: Time, later: Time): seq<Event> {
    [Check(call, e, true, at, at), Prune(call, later), Record(call, later)]
  }

  /** The envelope first seen at the earliest admissible moment, and again at the latest one, where the
      clock advances between verifying and pruning. */
  function OwnPruning(e: Envelope, skew: nat): seq<Event> {
    [AddMember(e.node)] + Whole(0, e, e.timestamp - skew, e.timestamp - skew) + Whole(1, e, e.timestamp + skew, e.timestamp + skew + 1)
  }

  /** The same, where every call prunes with the reading it verified with, but the call of another envelope
      a moment later prunes before the second INSERT. */
  function AnothersPruning(e: Envelope, other: Envelope, skew: nat): seq<Event> {
    var last := e.timestamp + skew;
    [AddMember(e.node), AddMember(other.node)] + Whole(0, e, e.timestamp - skew, e.timestamp - skew)
    + [Check(1, e, true, last, last), Prune(1, last), Check(2, other, true, last + 1, last + 1), Prune(2, last + 1), Record(1, last)]
  }

  /** After the first use of the envelope. */
  function SeenOnce(members: set<string>, e: Envelope, skew: nat): State {
    State(members, map[e.Key() := e.timestamp - skew], map[])
  }

  lemma FirstUse(members: set<string>, e: Envelope, skew: nat)
    requires e.node in members
    ensures var at := e.timestamp - skew;
      var checked := Step(State(members, map[], map[]), Check(0, e, true, at, at), skew);
      var pruned := Step(checked, Prune(0, at), skew);
      && Accepts(pruned, Record(0, at)) && pruned.open[0].e == e
      && Step(pruned, Record(0, at), skew) == SeenOnce(members, e, skew)
  {
  }

  lemma SecondUse(members: set<string>, e: Envelope, skew: nat)
    requires e.node in members
    ensures var last := e.timestamp + skew;
      var checked := Step(SeenOnce(members, e, skew), Check(1, e, true, last, last), skew);
      && checked == SeenOnce(members, e, skew).(open := map[1 := Checked(e, last)])
      && Step(checked, Prune(1, last), skew) == checked
      && Step(checked, Prune(1, last + 1), skew) == State(members, map[], map[1 := Checked(e, last)])
  {
    assert Pruned(map[e.Key() := e.timestamp - skew], e.timestamp - skew + 1) == map[];
  }

  /** The first run accepts the envelope twice. */
  lemma EdgeReplay(e: Envelope, skew: nat)
    ensures AcceptedAt(OwnPruning(e, skew), 3, e.Key(), skew) && AcceptedAt(OwnPruning(e, skew), 6, e.Key(), skew)
  {
    hide Step;
    var events := OwnPruning(e, skew);
    RunOneMore(EMPTY, events, 0, skew);
    RunOneMore(EMPTY, events, 1, skew);
    RunOneMore(EMPTY, events, 2, skew);
    RunOneMore(EMPTY, events, 3, skew);
    RunOneMore(EMPTY, events, 4, skew);
    RunOneMore(EMPTY, events, 5, skew);
    Joining(EMPTY, e.node, skew);
    FirstUse({e.node}, e, skew);
    SecondUse({e.node}, e, skew);
    assert events[..0] == [] && {} + {e.node} == {e.node};
    assert Run(events[..1], skew) == State({e.node}, map[], map[]);
    assert Run(events[..4], skew) == SeenOnce({e.node}, e, skew);
    assert Run(events[..6], skew) == State({e.node}, map[], map[1 := Checked(e, e.timestamp + skew)]);
  }

  lemma Joining(s: State, node: string, skew: nat)
    ensures Step(s, AddMember(node), skew) == s.(members := s.members + {node})
  {
  }

  /** So does the second: a call need not prune late itself. */
  lemma EdgeReplayByAnother(e: Envelope, other: Envelope, skew: nat)
    requires other.timestamp == e.timestamp + skew + 1
    ensures AcceptedAt(AnothersPruning(e, other, skew), 4, e.Key(), skew) && AcceptedAt(AnothersPruning(e, other, skew), 9, e.Key(), skew)
  {
    hide Step;
    var events, last := AnothersPruning(e, other, skew), e.timestamp + skew;
    RunOneMore(EMPTY, events, 0, skew);
    RunOneMore(EMPTY, events, 1, skew);
    RunOneMore(EMPTY, events, 2, skew);
    RunOneMore(EMPTY, events, 3, skew);
    RunOneMore(EMPTY, events, 4, skew);
    RunOneMore(EMPTY, events, 5, skew);
    RunOneMore(EMPTY, events, 6, skew);
    RunOneMore(EMPTY, events, 7, skew);
    RunOneMore(EMPTY, events, 8, skew);
    Joining(EMPTY, e.node, skew);
    Joining(State({e.node}, map[], map[]), other.node, skew);
    FirstUse({e.node} + {other.node}, e, skew);
    SecondUse({e.node} + {other.node}, e, skew);
    PruningByAnother({e.node} + {other.node}, e, other, skew);
    assert events[..0] == [] && {} + {e.node} == {e.node};
    assert Run(events[..2], skew) == State({e.node} + {other.node}, map[], map[]);
    assert Run(events[..5], skew) == SeenOnce({e.node} + {other.node}, e, skew);
    assert Run(events[..9], skew) == State({e.node} + {other.node}, map[], map[1 := Checked(e, last), 2 := Checked(other, last + 1)]);
  }

  lemma PruningByAnother(members: set<string>, e: Envelope, other: Envelope, skew: nat)
    requires other.node in members && other.timestamp == e.timestamp + skew + 1
    ensures var last := e.timestamp + skew;
      var checked := Step(SeenOnce(members, e, skew).(open := map[1 := Checked(e, last)]), Check(2, other, true, last + 1, last + 1), skew);
      Step(checked, Prune(2, last + 1), skew) == State(members, map[], map[1 := Checked(e, last), 2 := Checked(other, last + 1)])
  {
    assert Pruned(map[e.Key() := e.timestamp - skew], e.timestamp - skew + 1) == map[];
  }
}
