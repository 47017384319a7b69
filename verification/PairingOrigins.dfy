/** Where the tables of the pairing protocol come from: every request, approval, credential and member row of a
    run goes back to the event that may cause it (internal/cluster/pairing.go). */
module PairingOrigins {
  import opened Base
  import opened Pairing
  import opened PairingLaw

  // ----- polls -----

  /** A poll with any secret but the one whose digest the request holds is refused and leaves both nodes as
      they were. */
  lemma WrongSecretRefused(w: World, host: Side, request: nat, secret: nat, now: Time)
    requires request in NodeOf(w, host).requests ==> NodeOf(w, host).requests[request].secretHash != Digest(secret)
    ensures PolledAnswer(w, host, request, secret, now) == Refused
    ensures var w1 := Step(w, Poll(host, request, secret, now)); w1.left == w.left && w1.right == w.right && w1.replies == w.replies
  {
  }

  /** The answer to a poll with the right secret: a release exactly when the request is approved, else its
      state, or expired for a pending request past its time. A release uses the request up, puts the new
      credential's digest into the member row, if there is one, and touches nothing else. */
  lemma RightSecretAnswered(w: World, host: Side, request: nat, secret: nat, now: Time)
    requires var n := NodeOf(w, host); n.id == host && request in n.requests && n.requests[request].secretHash == Digest(secret)
    ensures var r, answer := NodeOf(w, host).requests[request], PolledAnswer(w, host, request, secret, now);
      && (answer.Release? <==> r.state == Approved)
      && (answer.Release? ==> answer.credential == w.next)
      && (r.state != Approved ==> answer == Status(if r.state == Pending && r.expires <= now then Expired else r.state))
    ensures var r, n, n1 := NodeOf(w, host).requests[request], NodeOf(w, host), NodeOf(Step(w, Poll(host, request, secret, now)), host);
      if r.state != Approved then n1 == n
      else
        && n1.requests == n.requests[request := r.(state := Used)]
        && n1.invitations == n.invitations && n1.outbound == n.outbound
        && n1.members == (if r.node !in n.members then n.members
             else n.members[r.node := n.members[r.node].(inboundHash := Digest(w.next), version := n.members[r.node].version + 1)])
  {
  }

  // ----- one step -----

  /** A submission the host accepts: from the other side, with the token of a pending invitation before its
      expiry. */
  predicate Files(w: World, e: Event, host: Side, q: nat) {
    && e.Join? && Other(e.guest) == host && w.next == q && e.acceptable
    && Digest(e.token) in NodeOf(w, host).invitations
    && NodeOf(w, host).invitations[Digest(e.token)].state == Pending
    && e.now < NodeOf(w, host).invitations[Digest(e.token)].expires
  }

  /** The request it files: the next values drawn are its ID, its secret and the guest's credential. */
  predicate FiledAs(r: Request, e: Event, q: nat)
    requires e.Join?
  {
    && r.secretHash == Digest(q + 1) && r.credentialForLocal == q + 2
    && r.invitation == Digest(e.token) && r.node == e.guest && r.expires == e.expires
  }

  /** A decision the host carries out: on a pending request before its expiry. */
  predicate Settles(w: World, e: Event, host: Side, q: nat) {
    && e.Decide? && e.host == host && e.request == q && (e.approve ==> e.compatible)
    && q in NodeOf(w, host).requests && NodeOf(w, host).requests[q].state == Pending && e.now < NodeOf(w, host).requests[q].expires
  }

  predicate SameButState(r: Request, r1: Request) { r1 == r.(state := r1.state) }

  /** An accepted submission files its request and uses the invitation up; any other leaves the host alone. */
  lemma JoinFiles(w: World, e: Event, host: Side)
    requires e.Join? && Other(e.guest) == host && NodeOf(w, host).id == host
    ensures var n, n1 := NodeOf(w, host), NodeOf(Step(w, e), host);
      if Files(w, e, host, w.next) then
        && w.next in n1.requests && FiledAs(n1.requests[w.next], e, w.next) && n1.requests[w.next].state == Pending
        && n1.requests == n.requests[w.next := n1.requests[w.next]]
        && n1.invitations == n.invitations[Digest(e.token) := n.invitations[Digest(e.token)].(state := Used)]
        && n1.members == n.members
      else n1 == n
  {
  }

  /** A decision settles exactly its pending request; an approval makes the requester a member with the
      credential it brought. */
  lemma DecideSettles(w: World, e: Event, host: Side, q: nat)
    requires e.Decide? && e.host == host && e.request == q
    ensures var n, n1 := NodeOf(w, host), NodeOf(Step(w, e), host);
      if Settles(w, e, host, q) then
        && n1.requests == n.requests[q := n.requests[q].(state := if e.approve then Approved else Rejected)]
        && n1.invitations == n.invitations && n1.outbound == n.outbound
        && (if !e.approve then n1.members == n.members
            else
              var r := n.requests[q];
              && r.node in n1.members && n1.members == n.members[r.node := n1.members[r.node]]
              && n1.members[r.node].standing == Active && n1.members[r.node].outbound == r.credentialForLocal
              && n1.members[r.node].inboundHash == Digest(w.next))
      else n1 == n
  {
  }

  /** A request comes from a submission, and becomes approved or rejected only by a decision, used only by a
      release. */
  lemma RequestStep(w: World, e: Event, host: Side, q: nat)
    requires Sound(w) && q in NodeOf(Step(w, e), host).requests
    ensures var r1 := NodeOf(Step(w, e), host).requests[q];
      if q in NodeOf(w, host).requests then
        && SameButState(NodeOf(w, host).requests[q], r1)
        && (r1.state == NodeOf(w, host).requests[q].state
            || (Settles(w, e, host, q) && r1.state == (if e.approve then Approved else Rejected))
            || (Releases(w, e, host, q) && r1.state == Used))
      else Files(w, e, host, q) && FiledAs(r1, e, q) && r1.state == Pending
  {
    hide Sound, HostSound, GuestSound, RepliesSound, Step, Releases, Settles, Files, FiledAs;
    SoundAt(w, host);
    if e.Join? {
      JoinRequestStep(w, e, host, q);
    } else if e.Decide? {
      DecideRequestStep(w, e, host, q);
    } else if e.Ask? {
      AskRequestStep(w, e, host, q);
    } else if e.Poll? {
      PollRequestStep(w, e, host, q);
    } else {
      OthersKeepRequests(w, e, host);
    }
  }

  lemma JoinRequestStep(w: World, e: Event, host: Side, q: nat)
    requires HostSound(w, host) && e.Join? && q in NodeOf(Step(w, e), host).requests
    ensures var r1 := NodeOf(Step(w, e), host).requests[q];
      if q in NodeOf(w, host).requests then r1 == NodeOf(w, host).requests[q]
      else Files(w, e, host, q) && FiledAs(r1, e, q) && r1.state == Pending
  {
  }

  lemma DecideRequestStep(w: World, e: Event, host: Side, q: nat)
    requires e.Decide? && q in NodeOf(Step(w, e), host).requests
    ensures q in NodeOf(w, host).requests
    ensures var r, r1 := NodeOf(w, host).requests[q], NodeOf(Step(w, e), host).requests[q];
      && SameButState(r, r1)
      && (r1.state == r.state || (Settles(w, e, host, q) && r1.state == (if e.approve then Approved else Rejected)))
  {
    hide Upsert;
  }

  lemma AskRequestStep(w: World, e: Event, host: Side, q: nat)
    requires e.Ask? && q in NodeOf(Step(w, e), host).requests
    ensures q in NodeOf(w, host).requests
    ensures var r, r1 := NodeOf(w, host).requests[q], NodeOf(Step(w, e), host).requests[q];
      SameButState(r, r1) && (r1.state == r.state || (Releases(w, e, host, q) && r1.state == Used))
  {
  }

  lemma PollRequestStep(w: World, e: Event, host: Side, q: nat)
    requires e.Poll? && q in NodeOf(Step(w, e), host).requests
    ensures q in NodeOf(w, host).requests
    ensures var r, r1 := NodeOf(w, host).requests[q], NodeOf(Step(w, e), host).requests[q];
      SameButState(r, r1) && (r1.state == r.state || (Releases(w, e, host, q) && r1.state == Used))
  {
  }

  /** An invitation comes from an invite; only a submission with its token uses it up. */
  lemma InvitationStep(w: World, e: Event, host: Side, t: Digest)
    requires t in NodeOf(Step(w, e), host).invitations
    ensures var i1 := NodeOf(Step(w, e), host).invitations[t];
      || (t in NodeOf(w, host).invitations && i1.expires == NodeOf(w, host).invitations[t].expires)
      || (e == Invite(host, i1.expires) && t == Digest(w.next))
  {
    hide Upsert, Polled;
    if e.Ask? || e.Poll? || e.Receive? { AnswersKeepInvitations(w, e, host); }
  }

  lemma AnswersKeepInvitations(w: World, e: Event, host: Side)
    requires e.Ask? || e.Poll? || e.Receive?
    ensures NodeOf(Step(w, e), host).invitations == NodeOf(w, host).invitations
  {
  }

  // ----- whole runs -----

  lemma Earlier(events: seq<Event>, n: nat, i: nat)
    requires i < n <= |events|
    ensures events[..n][..i] == events[..i] && events[..n][i] == events[i]
  {
  }

  /** Every request of a run was filed by one of its submissions and holds the values drawn there. */
  lemma {:induction false} RequestLaw(events: seq<Event>, host: Side, q: nat) returns (i: nat)
    requires q in NodeOf(Run(events), host).requests
    ensures i < |events| && Files(Run(events[..i]), events[i], host, q)
    ensures FiledAs(NodeOf(Run(events), host).requests[q], events[i], q)
  {
    hide Step, Sound, Settles, Releases;
    var before, e := events[..|events| - 1], events[|events| - 1];
    RunsAreSound(before);
    RequestStep(Run(before), e, host, q);
    if q in NodeOf(Run(before), host).requests {
      i := RequestLaw(before, host, q);
      Earlier(events, |events| - 1, i);
      assert FiledAs(NodeOf(Run(events), host).requests[q], events[i], q);
    } else {
      i := |events| - 1;
    }
  }

  /** Every invitation of a run was issued by one of its invites, with its expiry. */
  lemma {:induction false} InvitationLaw(events: seq<Event>, host: Side, t: Digest) returns (k: nat)
    requires t in NodeOf(Run(events), host).invitations
    ensures k < |events| && t == Digest(Run(events[..k]).next)
    ensures events[k] == Invite(host, NodeOf(Run(events), host).invitations[t].expires)
  {
    hide Step;
    var before, e := events[..|events| - 1], events[|events| - 1];
    InvitationStep(Run(before), e, host, t);
    if e.Invite? && e.host == host && e.expires == NodeOf(Run(events), host).invitations[t].expires && t == Digest(Run(before).next) {
      k := |events| - 1;
    } else {
      k := InvitationLaw(before, host, t);
      Earlier(events, |events| - 1, k);
    }
  }

  /** A request is filed only with the token of an earlier invite of that host, before the invitation's expiry,
      and no two with the same one. */
  lemma FiledOnInvite(events: seq<Event>, i: nat, host: Side, q: nat) returns (k: nat)
    requires i < |events| && Files(Run(events[..i]), events[i], host, q)
    ensures k < i && events[k].Invite? && events[k].host == host
    ensures events[i].token == Run(events[..k]).next && events[i].now < events[k].expires
  {
    k := InvitationLaw(events[..i], host, Digest(events[i].token));
    Earlier(events, i, k);
  }

  /** An approved or used request was approved by a decision of that host: while it was pending, before its
      expiry, and for a compatible peer. */
  lemma {:induction false} ApprovalLaw(events: seq<Event>, host: Side, q: nat) returns (j: nat)
    requires q in NodeOf(Run(events), host).requests && NodeOf(Run(events), host).requests[q].state in {Approved, Used}
    ensures j < |events| && Settles(Run(events[..j]), events[j], host, q) && events[j].approve
  {
    hide Step, Sound, Files, Settles, FiledAs;
    var before, e := events[..|events| - 1], events[|events| - 1];
    RunsAreSound(before);
    RequestStep(Run(before), e, host, q);
    var w := Run(before);
    if q in NodeOf(w, host).requests && NodeOf(w, host).requests[q].state in {Approved, Used} {
      j := ApprovalLaw(before, host, q);
      Earlier(events, |events| - 1, j);
    } else {
      ReleaseUses(w, e, host, q);
      j := |events| - 1;
      assert e.Decide? by { SettlesDecides(w, e, host, q); }
    }
  }

  lemma SettlesDecides(w: World, e: Event, host: Side, q: nat)
    ensures Settles(w, e, host, q) ==> e.Decide?
  {
  }

  /** The secret an asking guest or a poll presents. */
  function Presented(w: World, e: Event): nat
    requires e.Poll? || (e.Ask? && Asks(w, e.guest, e.out))
  {
    if e.Poll? then e.secret else NodeOf(w, e.guest).outbound[e.out].requestSecret
  }

  lemma ReleaseNeedsSecret(w: World, e: Event, host: Side, q: nat)
    requires Releases(w, e, host, q)
    ensures e.Poll? || (e.Ask? && Asks(w, e.guest, e.out))
    ensures q in NodeOf(w, host).requests && NodeOf(w, host).requests[q].state == Approved
    ensures NodeOf(w, host).requests[q].secretHash == Digest(Presented(w, e))
  {
  }

  /** In every run a release of a request's credential answers a presenter of the secret drawn when that
      request was submitted, after the host had approved it. */
  lemma ReleaseLaw(events: seq<Event>, n: nat, host: Side, q: nat) returns (i: nat, j: nat)
    requires n < |events| && Releases(Run(events[..n]), events[n], host, q)
    ensures i < n && Files(Run(events[..i]), events[i], host, q)
    ensures j < n && Settles(Run(events[..j]), events[j], host, q) && events[j].approve
    ensures (events[n].Poll? || (events[n].Ask? && Asks(Run(events[..n]), events[n].guest, events[n].out))) && Presented(Run(events[..n]), events[n]) == q + 1
  {
    hide Files, Settles, Releases, Run, Presented;
    ReleaseNeedsSecret(Run(events[..n]), events[n], host, q);
    i := RequestLaw(events[..n], host, q);
    Earlier(events, n, i);
    j := ApprovalLaw(events[..n], host, q);
    Earlier(events, n, j);
  }

  // ----- members -----

  /** The event may make the other side a member: an approval, or the receipt of a released credential. */
  predicate Admits(w: World, e: Event, side: Side) {
    match e
    case Decide(host, request, approve, _, _) => host == side && approve && Settles(w, e, host, request)
    case Receive(reply, _) => reply in w.replies && reply.guest == side && reply.answer.Release?
    case _ => false
  }

  lemma AskMembers(w: World, e: Event, side: Side)
    requires e.Ask? || e.Poll?
    ensures Other(side) in NodeOf(Step(w, e), side).members <==> Other(side) in NodeOf(w, side).members
    ensures Other(side) in NodeOf(w, side).members ==>
      NodeOf(Step(w, e), side).members[Other(side)].standing == NodeOf(w, side).members[Other(side)].standing
  {
  }

  lemma ReceiveMembers(w: World, e: Event, side: Side)
    requires e.Receive? && !Admits(w, e, side)
    ensures NodeOf(Step(w, e), side).members == NodeOf(w, side).members
  {
  }

  lemma DecideMembers(w: World, e: Event, side: Side)
    requires e.Decide? && !Admits(w, e, side)
    ensures NodeOf(Step(w, e), side).members == NodeOf(w, side).members
  {
    hide Upsert;
  }

  /** Without one of these no member appears, and a revoked one stays revoked or goes. */
  lemma MembersStep(w: World, e: Event, side: Side)
    requires !Admits(w, e, side)
    ensures Other(side) in NodeOf(Step(w, e), side).members ==> Other(side) in NodeOf(w, side).members
    ensures Other(side) in NodeOf(Step(w, e), side).members && NodeOf(w, side).members[Other(side)].standing == Revoked ==>
      NodeOf(Step(w, e), side).members[Other(side)].standing == Revoked
  {
    if e.Ask? || e.Poll? {
      hide Step, Admits;
      AskMembers(w, e, side);
    } else if e.Receive? {
      hide Step, Admits;
      ReceiveMembers(w, e, side);
    } else if e.Decide? {
      hide Step, Admits;
      DecideMembers(w, e, side);
    } else {
      hide Upsert, AskStep, PollStep, ReceiveStep, DecideStep, Settles;
    }
  }

  /** In every run a node knows the other as a member only after it approved a join of it or collected a
      credential from it. */
  lemma {:induction false} MemberLaw(events: seq<Event>, side: Side) returns (k: nat)
    requires Other(side) in NodeOf(Run(events), side).members
    ensures k < |events| && Admits(Run(events[..k]), events[k], side)
  {
    hide Step, Admits;
    var before, e := events[..|events| - 1], events[|events| - 1];
    if Admits(Run(before), e, side) {
      k := |events| - 1;
    } else {
      MembersStep(Run(before), e, side);
      k := MemberLaw(before, side);
      Earlier(events, |events| - 1, k);
    }
  }

  // ----- what the other events leave -----

  /** An invite issues a pending invitation under the digest of a fresh token. */
  lemma InviteIssues(w: World, host: Side, expires: Time)
    ensures var n, w1 := NodeOf(w, host), Step(w, Invite(host, expires));
      && NodeOf(w1, host) == n.(invitations := n.invitations[Digest(w.next) := Invitation(Pending, expires)])
      && w1.next > w.next && NodeOf(w1, Other(host)) == NodeOf(w, Other(host)) && w1.replies == w.replies
  {
  }

  /** The guest of an accepted submission records the receipt, if it arrives: the request the host filed, its
      secret and its own credential, pending. */
  lemma JoinRecords(w: World, e: Event)
    requires e.Join? && NodeOf(w, Other(e.guest)).id == Other(e.guest)
    ensures var g, g1 := NodeOf(w, e.guest), NodeOf(Step(w, e), e.guest);
      if Files(w, e, Other(e.guest), w.next) && e.arrives then
        g1 == g.(outbound := g.outbound[w.next + 3 := Outbound(w.next, w.next + 1, w.next + 2, Pending)])
      else g1 == g
  {
  }

  /** What the receipt of an answer makes of the guest: a release admits the host with the released credential
      and the digest of the recorded one; a rejection or an expiry ends the join; any other state leaves it
      pending, and a refusal leaves everything. */
  lemma AnswerReceived(w: World, reply: Reply, recorded: bool)
    requires reply in w.replies && reply.out in NodeOf(w, reply.guest).outbound
    ensures var g, g1 := NodeOf(w, reply.guest), NodeOf(Step(w, Receive(reply, recorded)), reply.guest); var host := Other(reply.guest);
      && g1.requests == g.requests && g1.invitations == g.invitations
      && (if reply.answer.Release? then
            && host in g1.members && g1.members == g.members[host := g1.members[host]]
            && g1.members[host].standing == Active && g1.members[host].outbound == reply.answer.credential
            && g1.members[host].inboundHash == Digest(reply.localInbound)
          else g1.members == g.members)
      && (!recorded || reply.answer == Refused ==> g1.outbound == g.outbound)
      && (recorded && reply.answer != Refused ==>
            g1.outbound == g.outbound[reply.out := g.outbound[reply.out].(state :=
              if reply.answer.Release? then Approved
              else if reply.answer.state in {Rejected, Expired} then reply.answer.state
              else Pending)])
  {
  }

  /** An operator may change the standing of a member that is not revoked, rotate the secret presented to an
      active one, and remove a revoked one; the other events named leave the node alone. */
  lemma OperatorActs(w: World, side: Side, standing: Standing)
    ensures var n, peer := NodeOf(w, side), Other(side);
      && NodeOf(Step(w, SetStanding(side, standing)), side) ==
           (if peer in n.members && n.members[peer].standing != Revoked then
              n.(members := n.members[peer := n.members[peer].(standing := standing)]) else n)
      && NodeOf(Step(w, Rotate(side)), side) ==
           (if peer in n.members && n.members[peer].standing == Active then
              n.(members := n.members[peer := n.members[peer].(outbound := w.next, version := n.members[peer].version + 1)]) else n)
      && NodeOf(Step(w, Remove(side)), side) ==
           (if peer in n.members && n.members[peer].standing == Revoked then n.(members := n.members - {peer}) else n)
  {
  }

  /** The event writes the secrets of this side's row for the other. */
  predicate WritesRow(w: World, e: Event, side: Side) {
    match e
    case Decide(_, _, _, _, _) => Admits(w, e, side)
    case Receive(reply, _) => Admits(w, e, side) && reply.out in NodeOf(w, side).outbound
    case Ask(guest, out, now) => Other(guest) == side && Asks(w, guest, out) && AnswerTo(w, guest, out, now).Release?
    case Poll(host, request, secret, now) => host == side && PolledAnswer(w, host, request, secret, now).Release?
    case Rotate(s) => s == side && Other(side) in NodeOf(w, side).members && NodeOf(w, side).members[Other(side)].standing == Active
    case _ => false
  }

  /** The version of a row: one when it appears, and one more each time its secrets are written. */
  lemma VersionCounts(w: World, e: Event, side: Side)
    requires Sound(w) && Other(side) in NodeOf(Step(w, e), side).members
    ensures var before, row := NodeOf(w, side).members, NodeOf(Step(w, e), side).members[Other(side)];
      row.version == (if Other(side) !in before then 1 else before[Other(side)].version + if WritesRow(w, e, side) then 1 else 0)
  {
    hide Sound, Step, WritesRow, HostSound, GuestSound, RepliesSound;
    SoundAt(w, side);
    if e.Decide? {
      DecideVersion(w, e, side);
    } else if e.Receive? {
      ReceiveVersion(w, e, side);
    } else if e.Ask? || e.Poll? {
      AskVersion(w, e, side);
    } else if e.Join? {
      JoinVersion(w, e, side);
    } else {
      OperatorVersion(w, e, side);
    }
  }

  predicate Versioned(w: World, e: Event, side: Side) {
    Other(side) in NodeOf(Step(w, e), side).members ==>
      NodeOf(Step(w, e), side).members[Other(side)].version ==
        if Other(side) !in NodeOf(w, side).members then 1
        else NodeOf(w, side).members[Other(side)].version + if WritesRow(w, e, side) then 1 else 0
  }

  lemma DecideVersion(w: World, e: Event, side: Side)
    requires e.Decide? && HostSound(w, side)
    ensures Versioned(w, e, side)
  {
  }

  lemma ReceiveVersion(w: World, e: Event, side: Side)
    requires e.Receive?
    ensures Versioned(w, e, side)
  {
  }

  lemma AskVersion(w: World, e: Event, side: Side)
    requires (e.Ask? || e.Poll?) && HostSound(w, side)
    ensures Versioned(w, e, side)
  {
  }

  lemma JoinVersion(w: World, e: Event, side: Side)
    requires e.Join?
    ensures NodeOf(Step(w, e), side).members == NodeOf(w, side).members && !WritesRow(w, e, side)
  {
  }

  lemma OperatorVersion(w: World, e: Event, side: Side)
    requires e.Invite? || e.SetStanding? || e.Rotate? || e.Remove?
    ensures Versioned(w, e, side)
  {
  }
}
