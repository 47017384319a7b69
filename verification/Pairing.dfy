/** The pairing protocol of two nodes (internal/cluster/pairing.go). Each request runs against one
    node's tables; answers travel between nodes and may arrive late or never. Secrets are drawn fresh
    and their digests are injective. */
module Pairing {
  import opened Base

  /** The two nodes; also their node IDs. */
  datatype Side = Left | Right

  function Other(s: Side): Side { if s == Left then Right else Left }

  datatype Digest = Digest(secret: nat)

  datatype State = Pending | Approved | Rejected | Used | Expired

  datatype Invitation = Invitation(state: State, expires: Time)

  datatype Request = Request(secretHash: Digest, invitation: Digest, node: Side, credentialForLocal: nat, state: State, expires: Time)

  datatype Standing = Active | Disabled | Revoked

  datatype Member = Member(standing: Standing, outbound: nat, inboundHash: Digest, version: nat)

  datatype Outbound = Outbound(request: nat, requestSecret: nat, localInbound: nat, state: State)

  /** One node's pairing tables; invitations are found by the digest of their token. */
  datatype Node = Node(
    id: Side, invitations: map<Digest, Invitation>, requests: map<nat, Request>,
    members: map<Side, Member>, outbound: map<nat, Outbound>)

  /** PollJoin's answer; the credential comes only with an approval. */
  datatype Answer = Refused | Status(state: State) | Release(credential: nat)

  // ----- the handlers, as functions of the tables -----

  predicate MaySubmit(n: Node, from: Side, token: Digest, acceptable: bool, now: Time) {
    && acceptable && from != n.id && token in n.invitations
    && n.invitations[token].state == Pending && n.invitations[token].expires > now
  }

  function Submitted(n: Node, from: Side, token: Digest, credential: nat, expires: Time, id: nat, secret: nat): Node
    requires token in n.invitations
  {
    n.(requests := n.requests[id := Request(Digest(secret), token, from, credential, Pending, expires)],
       invitations := n.invitations[token := n.invitations[token].(state := Used)])
  }

  /** INSERT … ON CONFLICT(node_id) DO UPDATE. */
  function Upsert(members: map<Side, Member>, node: Side, outbound: nat, inbound: Digest): map<Side, Member> {
    members[node := Member(Active, outbound, inbound, if node in members then members[node].version + 1 else 1)]
  }

  predicate MayDecide(n: Node, request: nat, approve: bool, compatible: bool, now: Time) {
    && request in n.requests && n.requests[request].state == Pending && n.requests[request].expires > now
    && (approve ==> compatible)
  }

  /** DecideJoin, once its checks have passed. */
  function Decided(n: Node, request: nat, approve: bool, placeholder: nat): Node
    requires request in n.requests
  {
    var r := n.requests[request];
    n.(requests := n.requests[request := r.(state := if approve then Approved else Rejected)],
       members := if approve then Upsert(n.members, r.node, r.credentialForLocal, Digest(placeholder)) else n.members)
  }

  /** What PollJoin answers. */
  function PollAnswer(n: Node, request: nat, secret: nat, now: Time, credential: nat): Answer {
    if request !in n.requests || n.requests[request].secretHash != Digest(secret) then Refused
    else
      var r := n.requests[request];
      if r.state == Pending && r.expires <= now then Status(Expired)
      else if r.state != Approved then Status(r.state)
      else Release(credential)
  }

  /** PollJoin's effect: on a release the member row takes the digest of the new credential and the
      request is used up. */
  function Polled(n: Node, request: nat, secret: nat, now: Time, credential: nat): Node {
    if !PollAnswer(n, request, secret, now, credential).Release? then n
    else
      var r := n.requests[request];
      n.(requests := n.requests[request := r.(state := Used)],
         members := if r.node in n.members
                    then n.members[r.node := n.members[r.node].(inboundHash := Digest(credential), version := n.members[r.node].version + 1)]
                    else n.members)
  }

  function Accepted(n: Node, remote: Side, outboundCredential: nat, inboundCredential: nat): Node {
    n.(members := Upsert(n.members, remote, outboundCredential, Digest(inboundCredential)))
  }

  /** What CollectOutbound makes of an answer. */
  function Collected(n: Node, remote: Side, out: nat, localInbound: nat, answer: Answer): Node
    requires out in n.outbound
  {
    match answer
    case Refused => n
    case Release(credential) =>
      var n1 := Accepted(n, remote, credential, localInbound);
      n1.(outbound := n1.outbound[out := n1.outbound[out].(state := Approved)])
    case Status(state) =>
      n.(outbound := n.outbound[out := n.outbound[out].(state := if state == Rejected || state == Expired then state else Pending)])
  }

  // ----- the handlers, statement by statement -----

  class Service {
    const id: Side
    var invitations: map<Digest, Invitation>
    var requests: map<nat, Request>
    var members: map<Side, Member>
    var outbound: map<nat, Outbound>

    function Tables(): Node
      reads this
    {
      Node(id, invitations, requests, members, outbound)
    }

    constructor (id: Side)
      ensures Tables() == Node(id, map[], map[], map[], map[])
    {
      this.id := id;
      invitations, requests, members, outbound := map[], map[], map[], map[];
    }

    /** SubmitJoin; `acceptable` is the verdict of the submission and compatibility checks. */
    method SubmitJoin(from: Side, token: nat, credential: nat, acceptable: bool, now: Time, expires: Time, request: nat, secret: nat)
        returns (ok: bool)
      modifies this
      ensures ok <==> MaySubmit(old(Tables()), from, Digest(token), acceptable, now)
      ensures Tables() == if ok then Submitted(old(Tables()), from, Digest(token), credential, expires, request, secret) else old(Tables())
    {
      if !acceptable || id == from { return false; }
      var hash := Digest(token);
      if hash !in invitations { return false; }
      var invitation := invitations[hash];
      if invitation.state != Pending || invitation.expires <= now { return false; }
      requests := requests[request := Request(Digest(secret), hash, from, credential, Pending, expires)];
      invitations := invitations[hash := invitation.(state := Used)];
      return true;
    }

    method DecideJoin(request: nat, approve: bool, compatible: bool, now: Time, placeholder: nat) returns (ok: bool)
      modifies this
      ensures ok <==> MayDecide(old(Tables()), request, approve, compatible, now)
      ensures Tables() == if ok then Decided(old(Tables()), request, approve, placeholder) else old(Tables())
    {
      if request !in requests || requests[request].state != Pending { return false; }
      var r := requests[request];
      if r.expires <= now { return false; }
      var state := Rejected;
      if approve {
        if !compatible { return false; }
        state := Approved;
        members := Upsert(members, r.node, r.credentialForLocal, Digest(placeholder));
      }
      requests := requests[request := r.(state := state)];
      return true;
    }

    method PollJoin(request: nat, secret: nat, now: Time, credential: nat) returns (answer: Answer)
      modifies this
      ensures answer == PollAnswer(old(Tables()), request, secret, now, credential)
      ensures Tables() == Polled(old(Tables()), request, secret, now, credential)
    {
      if request !in requests || requests[request].secretHash != Digest(secret) { return Refused; }
      var r := requests[request];
      if r.state == Pending && r.expires <= now { return Status(Expired); }
      if r.state == Rejected { return Status(Rejected); }
      if r.state != Approved { return Status(r.state); }
      if r.node in members {
        var m := members[r.node];
        members := members[r.node := m.(inboundHash := Digest(credential), version := m.version + 1)];
      }
      requests := requests[request := r.(state := Used)];
      return Release(credential);
    }

    method AcceptRemote(remote: Side, outboundCredential: nat, inboundCredential: nat)
      modifies this
      ensures Tables() == Accepted(old(Tables()), remote, outboundCredential, inboundCredential)
    {
      members := Upsert(members, remote, outboundCredential, Digest(inboundCredential));
    }

    /** BeginOutbound: submits to the peer and records the receipt, if it arrives. */
    method BeginOutbound(peer: Service, token: nat, acceptable: bool, now: Time, expires: Time,
        localInbound: nat, request: nat, secret: nat, out: nat, arrives: bool) returns (ok: bool)
      requires peer != this && peer.id != id
      modifies this, peer
      ensures var joined := MaySubmit(old(peer.Tables()), id, Digest(token), acceptable, now);
        && (ok <==> joined && arrives)
        && peer.Tables() == (if joined then Submitted(old(peer.Tables()), id, Digest(token), localInbound, expires, request, secret)
                             else old(peer.Tables()))
        && Tables() == (if ok then old(Tables()).(outbound := old(outbound)[out := Outbound(request, secret, localInbound, Pending)])
                        else old(Tables()))
    {
      ok := peer.SubmitJoin(id, token, localInbound, acceptable, now, expires, request, secret);
      if !ok || !arrives { return false; }
      outbound := outbound[out := Outbound(request, secret, localInbound, Pending)];
    }

    /** CollectOutbound, when the peer's answer arrives. */
    method CollectOutbound(peer: Service, out: nat, now: Time, credential: nat)
      requires peer != this && out in outbound
      modifies this, peer
      ensures var o := old(outbound)[out]; var answer := PollAnswer(old(peer.Tables()), o.request, o.requestSecret, now, credential);
        if o.state != Pending then Tables() == old(Tables()) && peer.Tables() == old(peer.Tables())
        else
          && peer.Tables() == Polled(old(peer.Tables()), o.request, o.requestSecret, now, credential)
          && Tables() == Collected(old(Tables()), peer.id, out, o.localInbound, answer)
    {
      var o := outbound[out];
      if o.state != Pending { return; }
      var answer := peer.PollJoin(o.request, o.requestSecret, now, credential);
      match answer
      case Refused => return;
      case Release(released) =>
        AcceptRemote(peer.id, released, o.localInbound);
        outbound := outbound[out := outbound[out].(state := Approved)];
      case Status(state) =>
        var next := if state == Rejected || state == Expired then state else Pending;
        outbound := outbound[out := outbound[out].(state := next)];
    }
  }

  // ----- runs -----

  /** An answer on its way to the guest, with what the guest had read when it asked. */
  datatype Reply = Reply(guest: Side, out: nat, request: nat, localInbound: nat, answer: Answer)

  /** Both nodes, the answers in flight, and the next fresh value. */
  datatype World = World(left: Node, right: Node, replies: set<Reply>, next: nat)

  datatype Event =
    | Invite(host: Side, expires: Time)
    | Join(guest: Side, token: nat, acceptable: bool, arrives: bool, now: Time, expires: Time)
    | Decide(host: Side, request: nat, approve: bool, compatible: bool, now: Time)
    | Ask(guest: Side, out: nat, now: Time)
    | Poll(host: Side, request: nat, secret: nat, now: Time)
    | Receive(reply: Reply, recorded: bool)
    | SetStanding(side: Side, standing: Standing)
    | Rotate(side: Side)
    | Remove(side: Side)

  function NodeOf(w: World, s: Side): Node { if s == Left then w.left else w.right }

  function WithNode(w: World, s: Side, n: Node): World {
    if s == Left then w.(left := n) else w.(right := n)
  }

  const START := World(Node(Left, map[], map[], map[], map[]), Node(Right, map[], map[], map[], map[]), {}, 0)

  function InviteStep(w: World, host: Side, expires: Time): World {
    var n := NodeOf(w, host);
    WithNode(w, host, n.(invitations := n.invitations[Digest(w.next) := Invitation(Pending, expires)])).(next := w.next + 1)
  }

  /** Fresh values: the request's id and secret, the guest's inbound credential, the outbound row's id. */
  function JoinStep(w: World, guest: Side, token: nat, acceptable: bool, arrives: bool, now: Time, expires: Time): World {
    var host, g := NodeOf(w, Other(guest)), NodeOf(w, guest);
    var request, secret, credential, out := w.next, w.next + 1, w.next + 2, w.next + 3;
    if !MaySubmit(host, guest, Digest(token), acceptable, now) then w
    else
      var w1 := WithNode(w, Other(guest), Submitted(host, guest, Digest(token), credential, expires, request, secret)).(next := w.next + 4);
      if arrives then WithNode(w1, guest, g.(outbound := g.outbound[out := Outbound(request, secret, credential, Pending)])) else w1
  }

  function DecideStep(w: World, host: Side, request: nat, approve: bool, compatible: bool, now: Time): World {
    var n := NodeOf(w, host);
    if !MayDecide(n, request, approve, compatible, now) then w
    else WithNode(w, host, Decided(n, request, approve, w.next)).(next := w.next + 1)
  }

  /** The first half of CollectOutbound, up to the peer's answer. */
  function AskStep(w: World, guest: Side, out: nat, now: Time): World {
    var g, host := NodeOf(w, guest), NodeOf(w, Other(guest));
    if out !in g.outbound || g.outbound[out].state != Pending then w
    else
      var o := g.outbound[out];
      var reply := Reply(guest, out, o.request, o.localInbound, PollAnswer(host, o.request, o.requestSecret, now, w.next));
      WithNode(w, Other(guest), Polled(host, o.request, o.requestSecret, now, w.next)).(replies := w.replies + {reply}, next := w.next + 1)
  }

  /** A poll by anyone, for any request and with any secret; the answer goes to the presenter. */
  function PollStep(w: World, host: Side, request: nat, secret: nat, now: Time): World {
    WithNode(w, host, Polled(NodeOf(w, host), request, secret, now, w.next)).(next := w.next + 1)
  }

  /** The second half; without `recorded` the process stopped before the outbound row was updated. */
  function ReceiveStep(w: World, reply: Reply, recorded: bool): World {
    var g := NodeOf(w, reply.guest);
    if reply !in w.replies || reply.out !in g.outbound then w
    else
      var done := Collected(g, Other(reply.guest), reply.out, reply.localInbound, reply.answer);
      WithNode(w, reply.guest, if recorded then done else done.(outbound := g.outbound)).(replies := w.replies - {reply})
  }

  function SetStandingStep(w: World, side: Side, standing: Standing): World {
    var n := NodeOf(w, side);
    var peer := Other(side);
    if peer !in n.members || n.members[peer].standing == Revoked then w
    else WithNode(w, side, n.(members := n.members[peer := n.members[peer].(standing := standing)]))
  }

  function RotateStep(w: World, side: Side): World {
    var n := NodeOf(w, side);
    var peer := Other(side);
    if peer !in n.members || n.members[peer].standing != Active then w
    else WithNode(w, side, n.(members := n.members[peer := n.members[peer].(outbound := w.next, version := n.members[peer].version + 1)])).(next := w.next + 1)
  }

  function RemoveStep(w: World, side: Side): World {
    var n := NodeOf(w, side);
    if Other(side) !in n.members || n.members[Other(side)].standing != Revoked then w
    else WithNode(w, side, n.(members := n.members - {Other(side)}))
  }

  function Step(w: World, e: Event): World {
    match e
    case Invite(host, expires) => InviteStep(w, host, expires)
    case Join(guest, token, acceptable, arrives, now, expires) => JoinStep(w, guest, token, acceptable, arrives, now, expires)
    case Decide(host, request, approve, compatible, now) => DecideStep(w, host, request, approve, compatible, now)
    case Ask(guest, out, now) => AskStep(w, guest, out, now)
    case Poll(host, request, secret, now) => PollStep(w, host, request, secret, now)
    case Receive(reply, recorded) => ReceiveStep(w, reply, recorded)
    case SetStanding(side, standing) => SetStandingStep(w, side, standing)
    case Rotate(side) => RotateStep(w, side)
    case Remove(side) => RemoveStep(w, side)
  }

  function Run(events: seq<Event>): World {
    if events == [] then START else Step(Run(events[..|events| - 1]), events[|events| - 1])
  }
}
