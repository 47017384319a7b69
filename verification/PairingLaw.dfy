/** What every run of the pairing protocol keeps, and when the two nodes end up with matching secrets
    (internal/cluster/pairing.go). */
module PairingLaw {
  import opened Base
  import opened Pairing

  // ----- what every run keeps -----

  /** Requests and invitations of a host come from the other side and carry used values. */
  predicate HostSound(w: World, host: Side) {
    var n := NodeOf(w, host);
    && n.id == host
    && (forall q :: q in n.requests ==> q < w.next && n.requests[q].node == Other(host))
    && (forall t :: t in n.invitations ==> t.secret < w.next)
    && (forall q :: q in n.requests ==> n.requests[q].invitation in n.invitations && n.invitations[n.requests[q].invitation].state == Used)
    && (forall p, q :: p in n.requests && q in n.requests && p != q ==> n.requests[p].invitation != n.requests[q].invitation)
  }

  /** A guest's outbound rows match requests at the host. */
  predicate GuestSound(w: World, guest: Side) {
    var g, host := NodeOf(w, guest), NodeOf(w, Other(guest));
    forall o :: o in g.outbound ==>
      && o < w.next
      && g.outbound[o].request in host.requests
      && host.requests[g.outbound[o].request].credentialForLocal == g.outbound[o].localInbound
  }

  /** An answer in flight belongs to an outbound row; a release used its request up. */
  predicate ReplySound(w: World, r: Reply) {
    var g, host := NodeOf(w, r.guest), NodeOf(w, Other(r.guest));
    && r.out in g.outbound && g.outbound[r.out].request == r.request && g.outbound[r.out].localInbound == r.localInbound
    && r.request in host.requests
    && (r.answer.Release? ==> host.requests[r.request].state == Used)
  }

  predicate SameRelease(a: Reply, b: Reply) {
    a.guest == b.guest && a.request == b.request && a.answer.Release? && b.answer.Release? ==> a.answer == b.answer
  }

  predicate RepliesSound(w: World) {
    && (forall r :: r in w.replies ==> ReplySound(w, r))
    && (forall a, b :: a in w.replies && b in w.replies ==> SameRelease(a, b))
  }

  predicate Sound(w: World) {
    HostSound(w, Left) && HostSound(w, Right) && GuestSound(w, Left) && GuestSound(w, Right) && RepliesSound(w)
  }

  lemma SoundAt(w: World, s: Side)
    requires Sound(w)
    ensures HostSound(w, s) && GuestSound(w, s)
  {
  }

  lemma BothSides(w: World, s: Side)
    requires HostSound(w, s) && HostSound(w, Other(s)) && GuestSound(w, s) && GuestSound(w, Other(s)) && RepliesSound(w)
    ensures Sound(w)
  {
  }

  /** Nothing moved but members, request states and outbound states, and no used request came back. */
  predicate Quiet(w: World, w1: World, s: Side) {
    var n, n1 := NodeOf(w, s), NodeOf(w1, s);
    && n1.id == n.id && n1.invitations == n.invitations
    && n1.requests.Keys == n.requests.Keys && n1.outbound.Keys == n.outbound.Keys
    && (forall q :: q in n.requests ==>
          && n1.requests[q] == n.requests[q].(state := n1.requests[q].state)
          && (n.requests[q].state == Used ==> n1.requests[q].state == Used))
    && (forall o :: o in n.outbound ==> n1.outbound[o] == n.outbound[o].(state := n1.outbound[o].state))
  }

  lemma QuietSides(w: World, w1: World)
    requires Sound(w) && w.next <= w1.next && Quiet(w, w1, Left) && Quiet(w, w1, Right)
    ensures HostSound(w1, Left) && HostSound(w1, Right) && GuestSound(w1, Left) && GuestSound(w1, Right)
    ensures forall r :: r in w.replies ==> ReplySound(w1, r)
    ensures forall a, b :: a in w.replies && b in w.replies ==> SameRelease(a, b)
  {
    QuietHost(w, w1, Left);
    QuietHost(w, w1, Right);
    QuietGuest(w, w1, Left);
    QuietGuest(w, w1, Right);
    hide HostSound, GuestSound, Quiet, SameRelease;
    forall r | r in w.replies
      ensures ReplySound(w1, r)
    {
      QuietReply(w, w1, r);
    }
  }

  /** Quiet steps keep everything sound, as long as the answers in flight are. */
  lemma QuietKeepsSound(w: World, w1: World)
    requires Sound(w) && w.next <= w1.next && Quiet(w, w1, Left) && Quiet(w, w1, Right) && w1.replies <= w.replies
    ensures Sound(w1)
  {
    hide HostSound, GuestSound, Quiet, SameRelease, ReplySound;
    QuietSides(w, w1);
  }

  lemma QuietHost(w: World, w1: World, s: Side)
    requires HostSound(w, s) && w.next <= w1.next && Quiet(w, w1, s)
    ensures HostSound(w1, s)
  {
  }

  lemma QuietGuest(w: World, w1: World, s: Side)
    requires GuestSound(w, s) && w.next <= w1.next && Quiet(w, w1, s) && Quiet(w, w1, Other(s))
    ensures GuestSound(w1, s)
  {
  }

  lemma QuietReply(w: World, w1: World, r: Reply)
    requires ReplySound(w, r) && Quiet(w, w1, r.guest) && Quiet(w, w1, Other(r.guest))
    ensures ReplySound(w1, r)
  {
  }

  lemma InviteKeepsSound(w: World, host: Side, expires: Time)
    requires Sound(w)
    ensures Sound(InviteStep(w, host, expires))
  {
    var w1 := InviteStep(w, host, expires);
    SoundAt(w, host);
    SoundAt(w, Other(host));
    forall r | r in w1.replies
      ensures ReplySound(w1, r)
    {
      assert ReplySound(w, r);
    }
    BothSides(w1, host);
  }

  lemma JoinKeepsSound(w: World, guest: Side, token: nat, acceptable: bool, arrives: bool, now: Time, expires: Time)
    requires Sound(w)
    ensures Sound(JoinStep(w, guest, token, acceptable, arrives, now, expires))
  {
    var w1 := JoinStep(w, guest, token, acceptable, arrives, now, expires);
    SoundAt(w, guest);
    SoundAt(w, Other(guest));
    if MaySubmit(NodeOf(w, Other(guest)), guest, Digest(token), acceptable, now) {
      JoinHostSound(w, guest, token, acceptable, arrives, now, expires);
      JoinRepliesSound(w, guest, token, acceptable, arrives, now, expires);
      BothSides(w1, guest);
    }
  }

  lemma JoinKeepsHosts(w: World, guest: Side, token: nat, acceptable: bool, arrives: bool, now: Time, expires: Time)
    requires HostSound(w, guest) && HostSound(w, Other(guest)) && GuestSound(w, guest) && GuestSound(w, Other(guest))
    requires MaySubmit(NodeOf(w, Other(guest)), guest, Digest(token), acceptable, now)
    ensures var w1 := JoinStep(w, guest, token, acceptable, arrives, now, expires);
      HostSound(w1, guest) && HostSound(w1, Other(guest))
  {
  }

  lemma JoinKeepsGuests(w: World, guest: Side, token: nat, acceptable: bool, arrives: bool, now: Time, expires: Time)
    requires HostSound(w, guest) && HostSound(w, Other(guest)) && GuestSound(w, guest) && GuestSound(w, Other(guest))
    requires MaySubmit(NodeOf(w, Other(guest)), guest, Digest(token), acceptable, now)
    ensures var w1 := JoinStep(w, guest, token, acceptable, arrives, now, expires);
      GuestSound(w1, guest) && GuestSound(w1, Other(guest))
  {
  }

  lemma JoinHostSound(w: World, guest: Side, token: nat, acceptable: bool, arrives: bool, now: Time, expires: Time)
    requires HostSound(w, guest) && HostSound(w, Other(guest)) && GuestSound(w, guest) && GuestSound(w, Other(guest))
    requires MaySubmit(NodeOf(w, Other(guest)), guest, Digest(token), acceptable, now)
    ensures var w1 := JoinStep(w, guest, token, acceptable, arrives, now, expires);
      HostSound(w1, guest) && HostSound(w1, Other(guest)) && GuestSound(w1, guest) && GuestSound(w1, Other(guest))
  {
    hide HostSound, GuestSound, JoinStep;
    JoinKeepsHosts(w, guest, token, acceptable, arrives, now, expires);
    JoinKeepsGuests(w, guest, token, acceptable, arrives, now, expires);
  }

  /** A submission adds a request and possibly an outbound row, both under new ids. */
  lemma JoinOnlyAdds(w: World, guest: Side, token: nat, acceptable: bool, arrives: bool, now: Time, expires: Time, s: Side)
    requires HostSound(w, Other(guest)) && GuestSound(w, guest)
    ensures var n, n1 := NodeOf(w, s), NodeOf(JoinStep(w, guest, token, acceptable, arrives, now, expires), s);
      && (forall q :: q in n.requests ==> q in n1.requests && n1.requests[q] == n.requests[q])
      && (forall o :: o in n.outbound ==> o in n1.outbound && n1.outbound[o] == n.outbound[o])
      && n1.members == n.members
  {
  }

  lemma JoinRepliesSound(w: World, guest: Side, token: nat, acceptable: bool, arrives: bool, now: Time, expires: Time)
    requires RepliesSound(w) && HostSound(w, Other(guest)) && GuestSound(w, guest)
    ensures RepliesSound(JoinStep(w, guest, token, acceptable, arrives, now, expires))
  {
  }

  lemma DecideKeepsSound(w: World, host: Side, request: nat, approve: bool, compatible: bool, now: Time)
    requires Sound(w)
    ensures Sound(DecideStep(w, host, request, approve, compatible, now))
  {
    hide Sound, Upsert;
    QuietKeepsSound(w, DecideStep(w, host, request, approve, compatible, now));
  }

  lemma StandingsKeepSound(w: World, side: Side, standing: Standing)
    requires Sound(w)
    ensures Sound(SetStandingStep(w, side, standing)) && Sound(RotateStep(w, side)) && Sound(RemoveStep(w, side))
  {
    hide Sound;
    QuietKeepsSound(w, SetStandingStep(w, side, standing));
    QuietKeepsSound(w, RotateStep(w, side));
    QuietKeepsSound(w, RemoveStep(w, side));
  }

  /** Collecting an answer changes members and one outbound state. */
  lemma CollectedIsQuiet(n: Node, remote: Side, out: nat, localInbound: nat, answer: Answer)
    requires out in n.outbound
    ensures var n1 := Collected(n, remote, out, localInbound, answer);
      && n1.id == n.id && n1.invitations == n.invitations && n1.requests == n.requests
      && n1.outbound.Keys == n.outbound.Keys
      && forall o :: o in n.outbound ==> n1.outbound[o] == n.outbound[o].(state := n1.outbound[o].state)
  {
  }

  lemma ReceiveIsQuiet(w: World, reply: Reply, recorded: bool)
    ensures var w1 := ReceiveStep(w, reply, recorded);
      Quiet(w, w1, Left) && Quiet(w, w1, Right) && w1.next == w.next && w1.replies <= w.replies
  {
    hide Collected;
    var g := NodeOf(w, reply.guest);
    if reply.out in g.outbound {
      CollectedIsQuiet(g, Other(reply.guest), reply.out, reply.localInbound, reply.answer);
    }
  }

  lemma ReceiveKeepsSound(w: World, reply: Reply, recorded: bool)
    requires Sound(w)
    ensures Sound(ReceiveStep(w, reply, recorded))
  {
    hide Sound, ReceiveStep, Quiet;
    ReceiveIsQuiet(w, reply, recorded);
    QuietKeepsSound(w, ReceiveStep(w, reply, recorded));
  }

  // ----- asking -----

  predicate Asks(w: World, guest: Side, out: nat) {
    out in NodeOf(w, guest).outbound && NodeOf(w, guest).outbound[out].state == Pending
  }

  function AnswerTo(w: World, guest: Side, out: nat, now: Time): Answer
    requires Asks(w, guest, out)
  {
    var o := NodeOf(w, guest).outbound[out];
    PollAnswer(NodeOf(w, Other(guest)), o.request, o.requestSecret, now, w.next)
  }

  function ReplyTo(w: World, guest: Side, out: nat, now: Time): Reply
    requires Asks(w, guest, out)
  {
    var o := NodeOf(w, guest).outbound[out];
    Reply(guest, out, o.request, o.localInbound, AnswerTo(w, guest, out, now))
  }

  lemma AskFacts(w: World, guest: Side, out: nat, now: Time)
    ensures var w1 := AskStep(w, guest, out, now);
      && Quiet(w, w1, Left) && Quiet(w, w1, Right) && w.next <= w1.next
      && w1.replies == if Asks(w, guest, out) then w.replies + {ReplyTo(w, guest, out, now)} else w.replies
  {
  }

  /** Before a release nothing for its request was released. */
  lemma FirstRelease(w: World, guest: Side, out: nat, now: Time, r: Reply)
    requires Asks(w, guest, out) && AnswerTo(w, guest, out, now).Release? && ReplySound(w, r)
    ensures SameRelease(ReplyTo(w, guest, out, now), r) && SameRelease(r, ReplyTo(w, guest, out, now))
  {
  }

  lemma NewReplySound(w: World, guest: Side, out: nat, now: Time)
    requires Sound(w) && Asks(w, guest, out)
    ensures ReplySound(AskStep(w, guest, out, now), ReplyTo(w, guest, out, now))
  {
  }

  lemma AskKeepsSound(w: World, guest: Side, out: nat, now: Time)
    requires Sound(w)
    ensures Sound(AskStep(w, guest, out, now))
  {
    hide AskStep, Quiet, HostSound, GuestSound, AnswerTo, ReplySound, Asks;
    var w1 := AskStep(w, guest, out, now);
    AskFacts(w, guest, out, now);
    QuietSides(w, w1);
    if Asks(w, guest, out) {
      NewReplySound(w, guest, out, now);
      if AnswerTo(w, guest, out, now).Release? {
        forall r | r in w.replies
          ensures SameRelease(ReplyTo(w, guest, out, now), r) && SameRelease(r, ReplyTo(w, guest, out, now))
        {
          FirstRelease(w, guest, out, now, r);
        }
      }
    }
  }

  lemma PollIsQuiet(w: World, host: Side, request: nat, secret: nat, now: Time)
    ensures var w1 := PollStep(w, host, request, secret, now);
      Quiet(w, w1, Left) && Quiet(w, w1, Right) && w.next <= w1.next && w1.replies == w.replies
  {
  }

  lemma PollKeepsSound(w: World, host: Side, request: nat, secret: nat, now: Time)
    requires Sound(w)
    ensures Sound(PollStep(w, host, request, secret, now))
  {
    hide Sound, PollStep, Quiet;
    PollIsQuiet(w, host, request, secret, now);
    QuietKeepsSound(w, PollStep(w, host, request, secret, now));
  }

  lemma StepKeepsSound(w: World, e: Event)
    requires Sound(w)
    ensures Sound(Step(w, e))
  {
    hide Sound, InviteStep, JoinStep, DecideStep, AskStep, PollStep, ReceiveStep, SetStandingStep, RotateStep, RemoveStep;
    match e
    case Invite(host, expires) => InviteKeepsSound(w, host, expires);
    case Join(guest, token, acceptable, arrives, now, expires) => JoinKeepsSound(w, guest, token, acceptable, arrives, now, expires);
    case Decide(host, request, approve, compatible, now) => DecideKeepsSound(w, host, request, approve, compatible, now);
    case Ask(guest, out, now) => AskKeepsSound(w, guest, out, now);
    case Poll(host, request, secret, now) => PollKeepsSound(w, host, request, secret, now);
    case Receive(reply, recorded) => ReceiveKeepsSound(w, reply, recorded);
    case SetStanding(side, standing) => StandingsKeepSound(w, side, standing);
    case Rotate(side) => StandingsKeepSound(w, side, Active);
    case Remove(side) => StandingsKeepSound(w, side, Active);
  }

  lemma {:induction false} RunsAreSound(events: seq<Event>)
    ensures Sound(Run(events))
  {
    hide Step;
    if events != [] {
      RunsAreSound(events[..|events| - 1]);
      hide Sound;
      StepKeepsSound(Run(events[..|events| - 1]), events[|events| - 1]);
    }
  }

  /** In every run each invitation yields at most one join request. */
  lemma OneRequestPerInvitation(events: seq<Event>, host: Side, p: nat, q: nat)
    ensures var n := NodeOf(Run(events), host);
      p in n.requests && q in n.requests && n.requests[p].invitation == n.requests[q].invitation ==> p == q
  {
    RunsAreSound(events);
    SoundAt(Run(events), host);
  }

  // ----- releases -----

  /** A poll's answer. */
  function PolledAnswer(w: World, host: Side, request: nat, secret: nat, now: Time): Answer {
    PollAnswer(NodeOf(w, host), request, secret, now, w.next)
  }

  /** The event makes the host release the credential of one request, to the guest that asks or to whoever
      polls. */
  predicate Releases(w: World, e: Event, host: Side, q: nat) {
    match e
    case Ask(guest, out, now) =>
      Other(guest) == host && Asks(w, guest, out) && NodeOf(w, guest).outbound[out].request == q && AnswerTo(w, guest, out, now).Release?
    case Poll(side, request, secret, now) =>
      side == host && request == q && PolledAnswer(w, host, request, secret, now).Release?
    case _ => false
  }

  lemma AskKeepsRequest(w: World, guest: Side, out: nat, now: Time, host: Side, q: nat)
    requires q in NodeOf(w, host).requests
    ensures var r := NodeOf(w, host).requests[q]; var n1 := NodeOf(AskStep(w, guest, out, now), host);
      && q in n1.requests && n1.requests[q] == r.(state := n1.requests[q].state)
      && (r.state == Used ==> n1.requests[q].state == Used)
      && (r.state == Approved && !Releases(w, Ask(guest, out, now), host, q) ==> n1.requests[q].state == Approved)
  {
  }

  lemma PollKeepsRequest(w: World, side: Side, request: nat, secret: nat, now: Time, host: Side, q: nat)
    requires q in NodeOf(w, host).requests
    ensures var r := NodeOf(w, host).requests[q]; var n1 := NodeOf(PollStep(w, side, request, secret, now), host);
      && q in n1.requests && n1.requests[q] == r.(state := n1.requests[q].state)
      && (r.state == Used ==> n1.requests[q].state == Used)
      && (r.state == Approved && !Releases(w, Poll(side, request, secret, now), host, q) ==> n1.requests[q].state == Approved)
  {
  }

  lemma DecideKeepsRequest(w: World, e: Event, host: Side, q: nat)
    requires e.Decide? && q in NodeOf(w, host).requests
    ensures var r := NodeOf(w, host).requests[q]; var n1 := NodeOf(Step(w, e), host);
      && q in n1.requests && n1.requests[q] == r.(state := n1.requests[q].state)
      && (r.state == Used || r.state == Approved ==> n1.requests[q].state == r.state)
  {
  }

  lemma OthersKeepRequests(w: World, e: Event, host: Side)
    requires !e.Join? && !e.Ask? && !e.Poll? && !e.Decide?
    ensures NodeOf(Step(w, e), host).requests == NodeOf(w, host).requests
  {
    hide Upsert;
  }

  /** A request keeps its content; used stays used, and approved stays approved until released. */
  lemma RequestKept(w: World, e: Event, host: Side, q: nat)
    requires Sound(w) && q in NodeOf(w, host).requests
    ensures var r := NodeOf(w, host).requests[q]; var n1 := NodeOf(Step(w, e), host);
      && q in n1.requests && n1.requests[q] == r.(state := n1.requests[q].state)
      && (r.state == Used ==> n1.requests[q].state == Used)
      && (r.state == Approved && !Releases(w, e, host, q) ==> n1.requests[q].state == Approved)
  {
    hide Sound, HostSound, GuestSound, AskStep, PollStep, DecideStep, JoinStep, Releases, ReceiveStep;
    if e.Join? {
      SoundAt(w, e.guest);
      SoundAt(w, Other(e.guest));
      JoinOnlyAdds(w, e.guest, e.token, e.acceptable, e.arrives, e.now, e.expires, host);
    } else if e.Ask? {
      AskKeepsRequest(w, e.guest, e.out, e.now, host, q);
    } else if e.Poll? {
      PollKeepsRequest(w, e.host, e.request, e.secret, e.now, host, q);
    } else if e.Decide? {
      DecideKeepsRequest(w, e, host, q);
    } else {
      OthersKeepRequests(w, e, host);
    }
  }

  function ReleaseCount(events: seq<Event>, host: Side, q: nat): nat {
    if events == [] then 0
    else
      var before := events[..|events| - 1];
      ReleaseCount(before, host, q) + if Releases(Run(before), events[|events| - 1], host, q) then 1 else 0
  }

  /** In every run a request releases its credential at most once. */
  lemma {:induction false} ReleasedAtMostOnce(events: seq<Event>, host: Side, q: nat)
    ensures ReleaseCount(events, host, q) <= 1
    ensures ReleaseCount(events, host, q) == 1 ==>
      q in NodeOf(Run(events), host).requests && NodeOf(Run(events), host).requests[q].state == Used
  {
    if events != [] {
      hide Sound, Step, Releases;
      var before, e := events[..|events| - 1], events[|events| - 1];
      ReleasedAtMostOnce(before, host, q);
      RunsAreSound(before);
      ReleaseUses(Run(before), e, host, q);
      if q in NodeOf(Run(before), host).requests { RequestKept(Run(before), e, host, q); }
    }
  }

  lemma ReleaseUses(w: World, e: Event, host: Side, q: nat)
    ensures Releases(w, e, host, q) ==>
      && q in NodeOf(w, host).requests && NodeOf(w, host).requests[q].state == Approved
      && q in NodeOf(Step(w, e), host).requests && NodeOf(Step(w, e), host).requests[q].state == Used
  {
  }

  // ----- agreement -----

  /** The secrets a node holds for the other: the one it presents and the digest it expects. */
  function Keys(w: World, s: Side): Option<(nat, Digest)> {
    var members := NodeOf(w, s).members;
    if Other(s) in members then Some((members[Other(s)].outbound, members[Other(s)].inboundHash)) else None
  }

  /** Each side presents exactly the secret the other expects. */
  predicate Agreed(w: World) {
    && Keys(w, Left).Some? && Keys(w, Right).Some?
    && Digest(Keys(w, Left).value.0) == Keys(w, Right).value.1
    && Digest(Keys(w, Right).value.0) == Keys(w, Left).value.1
  }

  /** The events that write secrets: an approval, a release, the receipt of one, a rotation, a removal. */
  predicate Writes(w: World, e: Event) {
    match e
    case Decide(host, request, approve, compatible, now) => approve && MayDecide(NodeOf(w, host), request, approve, compatible, now)
    case Ask(guest, out, now) => Asks(w, guest, out) && AnswerTo(w, guest, out, now).Release?
    case Poll(host, request, secret, now) => PolledAnswer(w, host, request, secret, now).Release?
    case Receive(reply, _) => reply in w.replies && reply.answer.Release?
    case Rotate(_) => true
    case Remove(_) => true
    case _ => false
  }

  lemma AskKeepsKeys(w: World, guest: Side, out: nat, now: Time, s: Side)
    requires !Writes(w, Ask(guest, out, now))
    ensures Keys(AskStep(w, guest, out, now), s) == Keys(w, s)
  {
  }

  lemma PollKeepsKeys(w: World, host: Side, request: nat, secret: nat, now: Time, s: Side)
    requires !Writes(w, Poll(host, request, secret, now))
    ensures Keys(PollStep(w, host, request, secret, now), s) == Keys(w, s)
  {
  }

  lemma ReceiveKeepsKeys(w: World, reply: Reply, recorded: bool, s: Side)
    requires !Writes(w, Receive(reply, recorded))
    ensures Keys(ReceiveStep(w, reply, recorded), s) == Keys(w, s)
  {
  }

  lemma KeysKept(w: World, e: Event, s: Side)
    requires Sound(w) && !Writes(w, e)
    ensures Keys(Step(w, e), s) == Keys(w, s)
  {
    hide Upsert, RepliesSound, JoinStep, HostSound, GuestSound, AskStep, PollStep, ReceiveStep;
    match e
    case Join(guest, token, acceptable, arrives, now, expires) =>
      SoundAt(w, guest);
      SoundAt(w, Other(guest));
      JoinOnlyAdds(w, guest, token, acceptable, arrives, now, expires, s);
    case Ask(guest, out, now) => AskKeepsKeys(w, guest, out, now, s);
    case Poll(host, request, secret, now) => PollKeepsKeys(w, host, request, secret, now, s);
    case Receive(reply, recorded) => ReceiveKeepsKeys(w, reply, recorded, s);
    case _ =>
  }

  /** Approved and not yet released. */
  predicate Waiting(w: World, host: Side, q: nat) {
    var n := NodeOf(w, host);
    && q in n.requests && n.requests[q].state == Approved
    && Keys(w, host).Some? && Keys(w, host).value.0 == n.requests[q].credentialForLocal
  }

  /** Released: the host expects the credential x that is on its way. */
  predicate Handed(w: World, host: Side, q: nat, x: nat) {
    var n := NodeOf(w, host);
    && q in n.requests && n.requests[q].state == Used
    && Keys(w, host) == Some((n.requests[q].credentialForLocal, Digest(x)))
    && forall r :: r in w.replies && r.guest == Other(host) && r.request == q && r.answer.Release? ==> r.answer == Release(x)
  }

  /** Received: both rows are in place. */
  predicate Matched(w: World, host: Side, q: nat, x: nat) {
    var n := NodeOf(w, host);
    && q in n.requests && n.requests[q].state == Used
    && Keys(w, host) == Some((n.requests[q].credentialForLocal, Digest(x)))
    && Keys(w, Other(host)) == Some((x, Digest(n.requests[q].credentialForLocal)))
  }

  lemma ApprovalWaits(w: World, e: Event, host: Side, q: nat)
    requires Sound(w) && e.Decide? && e.host == host && e.request == q && e.approve
    requires MayDecide(NodeOf(w, host), q, true, e.compatible, e.now)
    ensures Waiting(Step(w, e), host, q)
  {
  }

  lemma WaitingStays(w: World, e: Event, host: Side, q: nat)
    requires Sound(w) && Waiting(w, host, q) && !Writes(w, e)
    ensures Waiting(Step(w, e), host, q)
  {
    hide Sound, Step, Keys;
    KeysKept(w, e, host);
    RequestKept(w, e, host, q);
  }

  lemma ReleaseHands(w: World, e: Event, host: Side, q: nat)
    requires Sound(w) && Waiting(w, host, q) && Releases(w, e, host, q)
    ensures Handed(Step(w, e), host, q, w.next)
  {
  }

  lemma RepliesGrowQuietly(w: World, e: Event, r: Reply)
    requires !Writes(w, e) && r in Step(w, e).replies && r.answer.Release?
    ensures r in w.replies
  {
  }

  lemma HandedStays(w: World, e: Event, host: Side, q: nat, x: nat)
    requires Sound(w) && Handed(w, host, q, x) && !Writes(w, e)
    ensures Handed(Step(w, e), host, q, x)
  {
    hide Sound, Step, Keys, Writes;
    KeysKept(w, e, host);
    RequestKept(w, e, host, q);
    forall r | r in Step(w, e).replies && r.guest == Other(host) && r.request == q && r.answer.Release?
      ensures r.answer == Release(x)
    {
      RepliesGrowQuietly(w, e, r);
    }
  }

  lemma MatchedStays(w: World, e: Event, host: Side, q: nat, x: nat)
    requires Sound(w) && Matched(w, host, q, x) && !Writes(w, e)
    ensures Matched(Step(w, e), host, q, x)
  {
    hide Sound, Step, Keys, Writes;
    KeysKept(w, e, host);
    KeysKept(w, e, Other(host));
    RequestKept(w, e, host, q);
  }

  lemma ReceiptMatches(w: World, e: Event, host: Side, q: nat, x: nat)
    requires Sound(w) && Handed(w, host, q, x)
    requires e.Receive? && e.reply in w.replies && e.reply.guest == Other(host) && e.reply.request == q && e.reply.answer.Release?
    ensures Matched(Step(w, e), host, q, x)
  {
  }

  /** Between the approval and the receipt nothing else writes secrets: the request is waiting or its
      credential is on its way. */
  lemma {:induction false} OnTheWay(events: seq<Event>, i: nat, n: nat, host: Side, q: nat) returns (x: nat)
    requires i < n <= |events|
    requires Approves(events, i, host, q) && Undisturbed(events, i, n, host, q)
    ensures Waiting(Run(events[..n]), host, q) || Handed(Run(events[..n]), host, q, x)
    decreases n
  {
    hide Sound, Step, Waiting, Handed, Writes, Releases;
    RunOneMore(events, n - 1);
    var w, e := Run(events[..n - 1]), events[n - 1];
    RunsAreSound(events[..n - 1]);
    x := 0;
    if n == i + 1 {
      ApprovalWaits(w, e, host, q);
    } else {
      x := OnTheWay(events, i, n - 1, host, q);
      ReleaseUses(w, e, host, q);
      if Handed(w, host, q, x) {
        HandedIsUsed(w, host, q, x);
        HandedStays(w, e, host, q, x);
      } else if Releases(w, e, host, q) {
        ReleaseHands(w, e, host, q);
        x := w.next;
      } else {
        WaitingStays(w, e, host, q);
      }
    }
  }

  lemma HandedIsUsed(w: World, host: Side, q: nat, x: nat)
    requires Handed(w, host, q, x)
    ensures NodeOf(w, host).requests[q].state == Used
  {
  }

  lemma RunOneMore(events: seq<Event>, n: nat)
    requires n < |events|
    ensures Run(events[..n + 1]) == Step(Run(events[..n]), events[n])
  {
    assert events[..n + 1][..n] == events[..n];
  }

  /** The event at i approves the request. */
  predicate Approves(events: seq<Event>, i: nat, host: Side, q: nat)
    requires i < |events|
  {
    var e := events[i];
    && e.Decide? && e.host == host && e.request == q && e.approve
    && MayDecide(NodeOf(Run(events[..i]), host), q, true, e.compatible, e.now)
  }

  /** After position i and before n nothing writes secrets but the release of this request. */
  predicate Undisturbed(events: seq<Event>, i: nat, n: nat, host: Side, q: nat)
    requires n <= |events|
  {
    forall m :: i < m < n && Writes(Run(events[..m]), events[m]) ==> Releases(Run(events[..m]), events[m], host, q)
  }

  /** The event at k receives the credential this request released. */
  predicate Receives(events: seq<Event>, k: nat, host: Side, q: nat)
    requires k < |events|
  {
    var e := events[k];
    && e.Receive? && e.reply in Run(events[..k]).replies
    && e.reply.guest == Other(host) && e.reply.request == q && e.reply.answer.Release?
  }

  lemma WaitingHasNoReply(w: World, host: Side, q: nat, r: Reply)
    requires Sound(w) && r in w.replies && r.guest == Other(host) && r.request == q && r.answer.Release?
    ensures !Waiting(w, host, q)
  {
  }

  /** After the receipt, while nothing writes secrets, both rows stay in place. */
  lemma {:induction false} StaysMatched(events: seq<Event>, i: nat, k: nat, n: nat, host: Side, q: nat) returns (x: nat)
    requires i < k < n <= |events| && Approves(events, i, host, q) && Receives(events, k, host, q)
    requires Undisturbed(events, i, k, host, q) && Undisturbed(events, k, n, host, q)
    ensures Matched(Run(events[..n]), host, q, x)
    decreases n
  {
    hide Sound, Step, Waiting, Handed, Writes, Releases, Matched;
    RunOneMore(events, n - 1);
    var w, e := Run(events[..n - 1]), events[n - 1];
    RunsAreSound(events[..n - 1]);
    if n == k + 1 {
      x := OnTheWay(events, i, k, host, q);
      WaitingHasNoReply(w, host, q, e.reply);
      ReceiptMatches(w, e, host, q, x);
    } else {
      x := StaysMatched(events, i, k, n - 1, host, q);
      ReleaseUses(w, e, host, q);
      MatchedIsUsed(w, host, q, x);
      MatchedStays(w, e, host, q, x);
    }
  }

  lemma MatchedIsUsed(w: World, host: Side, q: nat, x: nat)
    requires Matched(w, host, q, x)
    ensures NodeOf(w, host).requests[q].state == Used
  {
  }

  /** Pairing agreement. In every run, once a join approved at i has been collected at k, and nothing
      since the approval but its own release and receipt has written secrets between the two nodes, each
      side presents exactly the secret whose digest the other holds. */
  lemma CollectedJoinAgrees(events: seq<Event>, i: nat, k: nat, host: Side, q: nat)
    requires i < k < |events| && Approves(events, i, host, q) && Receives(events, k, host, q)
    requires Undisturbed(events, i, k, host, q) && Undisturbed(events, k, |events|, host, q)
    ensures Agreed(Run(events))
  {
    hide Run, Undisturbed, Approves, Receives;
    var x := StaysMatched(events, i, k, |events|, host, q);
    assert events[..|events|] == events;
  }

  /** Every secret presented, credited or on its way has been drawn. */
  ghost predicate Drawn(w: World) {
    && NodeDrawn(w.left, w.next) && NodeDrawn(w.right, w.next)
    && forall r :: r in w.replies && r.answer.Release? ==> r.answer.credential < w.next
  }

  ghost predicate NodeDrawn(n: Node, next: nat) {
    && (forall m :: m in n.members ==> n.members[m].outbound < next)
    && (forall q :: q in n.requests ==> n.requests[q].credentialForLocal < next)
  }

  lemma StepKeepsDrawn(w: World, e: Event)
    requires Drawn(w)
    ensures Drawn(Step(w, e))
  {
    hide Drawn, JoinStep, AskStep, PollStep, ReceiveStep, DecideStep, InviteStep, RotateStep, RemoveStep, SetStandingStep;
    match e
    case Join(guest, token, acceptable, arrives, now, expires) => JoinKeepsDrawn(w, guest, token, acceptable, arrives, now, expires);
    case Ask(guest, out, now) => AskKeepsDrawn(w, guest, out, now);
    case Poll(host, request, secret, now) => PollKeepsDrawn(w, host, request, secret, now);
    case Receive(reply, recorded) => ReceiveKeepsDrawn(w, reply, recorded);
    case Decide(host, request, approve, compatible, now) => DecideKeepsDrawn(w, host, request, approve, compatible, now);
    case _ => StandingsKeepDrawn(w, e);
  }

  lemma DecideKeepsDrawn(w: World, host: Side, request: nat, approve: bool, compatible: bool, now: Time)
    requires Drawn(w)
    ensures Drawn(DecideStep(w, host, request, approve, compatible, now))
  {
  }

  lemma StandingsKeepDrawn(w: World, e: Event)
    requires Drawn(w) && (e.Invite? || e.SetStanding? || e.Rotate? || e.Remove?)
    ensures Drawn(Step(w, e))
  {
    hide JoinStep, AskStep, PollStep, ReceiveStep, DecideStep, Polled, Submitted, Collected;
  }

  lemma JoinKeepsDrawn(w: World, guest: Side, token: nat, acceptable: bool, arrives: bool, now: Time, expires: Time)
    requires Drawn(w)
    ensures Drawn(JoinStep(w, guest, token, acceptable, arrives, now, expires))
  {
  }

  lemma AskKeepsDrawn(w: World, guest: Side, out: nat, now: Time)
    requires Drawn(w)
    ensures Drawn(AskStep(w, guest, out, now))
  {
  }

  lemma PollKeepsDrawn(w: World, host: Side, request: nat, secret: nat, now: Time)
    requires Drawn(w)
    ensures Drawn(PollStep(w, host, request, secret, now))
  {
  }

  lemma ReceiveKeepsDrawn(w: World, reply: Reply, recorded: bool)
    requires Drawn(w)
    ensures Drawn(ReceiveStep(w, reply, recorded))
  {
  }

  lemma {:induction false} RunsAreDrawn(events: seq<Event>)
    ensures Drawn(Run(events))
  {
    hide Step;
    if events != [] {
      RunsAreDrawn(events[..|events| - 1]);
      hide Drawn;
      StepKeepsDrawn(Run(events[..|events| - 1]), events[|events| - 1]);
    }
  }

  lemma RotationReplaces(w: World, side: Side)
    requires Drawn(w) && Agreed(w) && NodeOf(w, side).members[Other(side)].standing == Active
    ensures !Agreed(RotateStep(w, side))
  {
  }

  /** A rotation breaks it, in every run: the new secret is handed to the caller, and the other side still
      expects the old one. */
  lemma RotationDisagrees(events: seq<Event>, side: Side)
    requires Agreed(Run(events)) && NodeOf(Run(events), side).members[Other(side)].standing == Active
    ensures !Agreed(Run(events + [Rotate(side)]))
  {
    hide Drawn;
    RunsAreDrawn(events);
    RotationReplaces(Run(events), side);
    assert (events + [Rotate(side)])[..|events|] == events;
  }
}
