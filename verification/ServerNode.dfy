/** RTCServerNode: the node's half of the signaling protocol.  Creating a voice client, and
    setting what is negotiated on one, may fail; `ok` is the outcome. */
module ServerNode {
  import opened Std

  type PeerId = string

  /** What the signaling server sends to a node. */
  datatype Cmd =
    | AddPeer(id: PeerId)
    | RemovePeer(id: PeerId)
    | Offer(id: PeerId, sdp: string)
    | Candidate(id: PeerId, mlineIndex: int, mid: string, candidate: string)

  datatype Reply = AddRes(id: PeerId, success: bool) | RemoveRes(id: PeerId)

  /** Peers are numbered in the order of their successful creation. */
  datatype Node = Node(peers: map<PeerId, nat>, made: nat, closed: seq<nat>)

  const INITIAL := Node(map[], 0, [])

  /** An offer or a candidate handed to a peer. */
  datatype Handed = Handed(peer: nat, msg: Cmd)

  datatype Outcome = Outcome(node: Node, replies: seq<Reply>, handed: Option<Handed>)

  function Step(n: Node, cmd: Cmd, ok: bool): Outcome {
    match cmd
    case AddPeer(id) =>
      if ok then Outcome(Node(n.peers[id := n.made], n.made + 1, n.closed), [AddRes(id, true)], None)
      else Outcome(n, [AddRes(id, false)], None)
    case RemovePeer(id) =>
      if id in n.peers then Outcome(Node(n.peers - {id}, n.made, n.closed + [n.peers[id]]), [RemoveRes(id)], None)
      else Outcome(n, [RemoveRes(id)], None)
    case _ =>
      Outcome(n, [], if cmd.id in n.peers then Some(Handed(n.peers[cmd.id], cmd)) else None)
  }

  // ---- whole runs ----

  datatype Done = Done(cmd: Cmd, ok: bool)

  function Run(ds: seq<Done>): Node {
    if ds == [] then INITIAL else Step(Run(Init(ds)), Last(ds).cmd, Last(ds).ok).node
  }

  /** The peer was added successfully and has not been removed since. */
  predicate Live(ds: seq<Done>, id: PeerId) {
    exists i | 0 <= i < |ds| :: AddedAt(ds, id, i)
  }

  predicate AddedAt(ds: seq<Done>, id: PeerId, i: nat)
    requires i < |ds|
  {
    ds[i] == Done(AddPeer(id), true) && forall j | i < j < |ds| :: ds[j].cmd != RemovePeer(id)
  }

  lemma LiveStep(ds: seq<Done>, d: Done, id: PeerId)
    ensures Live(ds + [d], id) <==>
            d == Done(AddPeer(id), true) || (Live(ds, id) && d.cmd != RemovePeer(id))
  {
    assert AddedAt(ds + [d], id, |ds|) <==> d == Done(AddPeer(id), true);
    forall i | 0 <= i < |ds|
      ensures AddedAt(ds + [d], id, i) <==> AddedAt(ds, id, i) && d.cmd != RemovePeer(id)
    {
      AddedAtStep(ds, d, id, i);
    }
  }

  lemma AddedAtStep(ds: seq<Done>, d: Done, id: PeerId, i: nat)
    requires i < |ds|
    ensures AddedAt(ds + [d], id, i) <==> AddedAt(ds, id, i) && d.cmd != RemovePeer(id)
  {
    var es := ds + [d];
    assert es[|ds|] == d && forall j | 0 <= j < |ds| :: es[j] == ds[j];
  }

  /** After any run the keys of the map are the peers added successfully and not removed
      since. */
  lemma {:induction false} KeysAreLive(ds: seq<Done>, id: PeerId)
    ensures id in Run(ds).peers <==> Live(ds, id)
  {
    if ds != [] {
      KeysAreLive(Init(ds), id);
      LiveStep(Init(ds), Last(ds), id);
      assert ds == Init(ds) + [Last(ds)];
    }
  }

  predicate Held(n: Node, h: nat) {
    exists id | id in n.peers :: n.peers[id] == h
  }

  /** No peer is both in the map and closed, in the map twice, or closed twice. */
  predicate Once(n: Node) {
    && (forall id | id in n.peers :: n.peers[id] < n.made && n.peers[id] !in n.closed)
    && (forall a, b | a in n.peers && b in n.peers && n.peers[a] == n.peers[b] :: a == b)
    && (forall i | 0 <= i < |n.closed| :: n.closed[i] < n.made)
    && (forall i, j | 0 <= i < j < |n.closed| :: n.closed[i] != n.closed[j])
  }

  /** Every created peer is still in the map or has been closed. */
  predicate NoneLost(n: Node) {
    forall h: nat | h < n.made :: Held(n, h) || h in n.closed
  }

  predicate Overwrites(n: Node, d: Done) {
    d.ok && d.cmd.AddPeer? && d.cmd.id in n.peers
  }

  /** No successful add names a peer that is live. */
  predicate AddsAreNew(ds: seq<Done>) {
    forall i | 0 <= i < |ds| && ds[i].cmd.AddPeer? && ds[i].ok :: !Live(ds[..i], ds[i].cmd.id)
  }

  lemma OnceStep(n: Node, d: Done)
    requires Once(n)
    ensures Once(Step(n, d.cmd, d.ok).node)
  {
  }

  lemma LostStep(n: Node, d: Done)
    requires Once(n)
    ensures NoneLost(Step(n, d.cmd, d.ok).node) <==> NoneLost(n) && !Overwrites(n, d)
  {
    var m := Step(n, d.cmd, d.ok).node;
    if Overwrites(n, d) {
      assert !Held(m, n.peers[d.cmd.id]);
    } else {
      forall h: nat | h < n.made
        ensures Held(n, h) || h in n.closed <==> Held(m, h) || h in m.closed
      {
        KeptOrClosed(n, d, h);
      }
      if d.cmd.AddPeer? && d.ok {
        assert m.peers[d.cmd.id] == n.made;
        assert Held(m, n.made);
      }
    }
  }

  lemma KeptOrClosed(n: Node, d: Done, h: nat)
    requires !Overwrites(n, d) && h < n.made
    ensures var m := Step(n, d.cmd, d.ok).node;
            Held(n, h) || h in n.closed <==> Held(m, h) || h in m.closed
  {
    var m := Step(n, d.cmd, d.ok).node;
    if Held(n, h) {
      var id :| id in n.peers && n.peers[id] == h;
      assert (id in m.peers && m.peers[id] == h) || h in m.closed;
    }
    if Held(m, h) {
      var id :| id in m.peers && m.peers[id] == h;
      assert id in n.peers && n.peers[id] == h;
    }
  }

  /** After any run each created peer is in the map once or was closed once, never both;
      and none is lost if and only if no successful add named a live peer.  (An add of a
      live peer replaces it in the map without closing it.) */
  lemma {:induction false} PeersConserved(ds: seq<Done>)
    ensures Once(Run(ds))
    ensures NoneLost(Run(ds)) <==> AddsAreNew(ds)
  {
    if ds != [] {
      var p := Init(ds);
      PeersConserved(p);
      OnceStep(Run(p), Last(ds));
      LostStep(Run(p), Last(ds));
      if Last(ds).cmd.AddPeer? {
        KeysAreLive(p, Last(ds).cmd.id);
      }
      assert forall i | 0 <= i < |p| :: p[..i] == ds[..i] && p[i] == ds[i];
    }
  }

  /** It does happen: of two peers added under one id the first is neither in the map nor
      closed. */
  lemma ReplacedIsLost(id: PeerId)
    ensures var ds := [Done(AddPeer(id), true), Done(AddPeer(id), true)];
            && !AddsAreNew(ds) && !NoneLost(Run(ds))
            && Run(ds) == Node(map[id := 1], 2, [])
  {
    var d := Done(AddPeer(id), true);
    assert Init([d, d]) == [d] && Init([d]) == [];
    assert Run([d]) == Node(map[id := 0], 1, []);
    assert !Held(Run([d, d]), 0);
    PeersConserved([d, d]);
  }

  // ---- which peer an id stands for ----

  /** How many peers were created: each gets the number of those before it. */
  function Created(ds: seq<Done>): nat {
    if ds == [] then 0 else Created(Init(ds)) + (if Last(ds).cmd.AddPeer? && Last(ds).ok then 1 else 0)
  }

  /** The i-th command is the last that added this id, and it has not been removed since. */
  predicate LastAddedAt(ds: seq<Done>, id: PeerId, i: nat) {
    && i < |ds| && ds[i] == Done(AddPeer(id), true)
    && forall j | i < j < |ds| :: ds[j].cmd != RemovePeer(id) && ds[j] != Done(AddPeer(id), true)
  }

  lemma {:induction false} CreatedIsMade(ds: seq<Done>)
    ensures Run(ds).made == Created(ds)
  {
    if ds != [] {
      CreatedIsMade(Init(ds));
    }
  }

  /** Under an id the map holds the peer that the last successful add of that id created. */
  lemma {:induction false} HoldsOwnPeer(ds: seq<Done>, id: PeerId, i: nat)
    requires LastAddedAt(ds, id, i)
    ensures id in Run(ds).peers && Run(ds).peers[id] == Created(ds[..i])
  {
    if i == |ds| - 1 {
      CreatedIsMade(Init(ds));
    } else {
      assert LastAddedAt(Init(ds), id, i) by {
        assert forall j | 0 <= j < |ds| - 1 :: Init(ds)[j] == ds[j];
      }
      HoldsOwnPeer(Init(ds), id, i);
      assert Init(ds)[..i] == ds[..i];
      assert Last(ds) == ds[|ds| - 1];
    }
  }

  lemma {:induction false} HeldWasAdded(ds: seq<Done>, id: PeerId) returns (i: nat)
    requires id in Run(ds).peers
    ensures LastAddedAt(ds, id, i)
  {
    if Last(ds) == Done(AddPeer(id), true) {
      i := |ds| - 1;
    } else {
      i := HeldWasAdded(Init(ds), id);
      assert forall j | 0 <= j < |ds| - 1 :: Init(ds)[j] == ds[j];
    }
  }

  /** An offer or a candidate is handed over exactly if its id was added and not removed
      since, and then to the very peer that add created, which has not been closed. */
  lemma HandedToLivePeer(ds: seq<Done>, cmd: Cmd, ok: bool)
    ensures var handed := Step(Run(ds), cmd, ok).handed;
            && (handed.Some? <==> (cmd.Offer? || cmd.Candidate?) && Live(ds, cmd.id))
            && (handed.Some? ==> exists i | 0 <= i < |ds| :: LastAddedAt(ds, cmd.id, i) && handed == Some(Handed(Created(ds[..i]), cmd)))
            && (handed.Some? ==> handed.value.peer < Created(ds) && handed.value.peer !in Run(ds).closed)
  {
    PeersConserved(ds);
    KeysAreLive(ds, cmd.id);
    CreatedIsMade(ds);
    if cmd.id in Run(ds).peers {
      var i := HeldWasAdded(ds, cmd.id);
      HoldsOwnPeer(ds, cmd.id, i);
    }
  }

  /** The add an id stands for is one and the same. */
  lemma LastAddIsUnique(ds: seq<Done>, id: PeerId, i: nat, j: nat)
    requires LastAddedAt(ds, id, i) && LastAddedAt(ds, id, j)
    ensures i == j
  {
  }

  /** A remove closes the peer its id stands for, and no other; without one it closes
      nothing. */
  lemma RemoveClosesOwnPeer(ds: seq<Done>, id: PeerId, ok: bool)
    ensures var closed := Run(ds + [Done(RemovePeer(id), ok)]).closed;
            && (forall i | 0 <= i < |ds| && LastAddedAt(ds, id, i) :: closed == Run(ds).closed + [Created(ds[..i])])
            && ((forall i | 0 <= i < |ds| :: !LastAddedAt(ds, id, i)) ==> closed == Run(ds).closed)
  {
    InitLast(ds, Done(RemovePeer(id), ok));
    forall i | 0 <= i < |ds| && LastAddedAt(ds, id, i)
      ensures Run(ds + [Done(RemovePeer(id), ok)]).closed == Run(ds).closed + [Created(ds[..i])]
    {
      HoldsOwnPeer(ds, id, i);
    }
    if id in Run(ds).peers {
      var i := HeldWasAdded(ds, id);
    }
  }

  /** Nothing but a remove closes a peer. */
  lemma OnlyRemoveCloses(ds: seq<Done>, d: Done)
    requires !d.cmd.RemovePeer?
    ensures Run(ds + [d]).closed == Run(ds).closed
  {
    InitLast(ds, d);
  }

  // ---- replies ----

  function Replies(ds: seq<Done>): seq<Reply> {
    if ds == [] then []
    else Replies(Init(ds)) + Step(Run(Init(ds)), Last(ds).cmd, Last(ds).ok).replies
  }

  /** The commands that ask for a reply, in order. */
  function Requests(ds: seq<Done>): seq<Done> {
    if ds == [] then []
    else Requests(Init(ds)) + (if Last(ds).cmd.AddPeer? || Last(ds).cmd.RemovePeer? then [Last(ds)] else [])
  }

  predicate Answers(r: Reply, d: Done) {
    r.id == d.cmd.id &&
    match d.cmd
    case AddPeer(_) => r.AddRes? && r.success == d.ok
    case RemovePeer(_) => r.RemoveRes?
    case _ => false
  }

  /** Replies match the commands that ask for one, one for one and in order. */
  lemma {:induction false} RepliesMatch(ds: seq<Done>)
    ensures |Replies(ds)| == |Requests(ds)|
    ensures forall i | 0 <= i < |Replies(ds)| :: Answers(Replies(ds)[i], Requests(ds)[i])
  {
    if ds != [] {
      RepliesMatch(Init(ds));
    }
  }

  // ---- the object ----

  class RtcServerNode {
    var peers: map<PeerId, nat>
    var made: nat
    /** The peers on which Close was called, in order. */
    var closed: seq<nat>

    function State(): Node
      reads this
    {
      Node(peers, made, closed)
    }

    constructor ()
      ensures State() == INITIAL
    {
      peers, made, closed := map[], 0, [];
    }

    /** One message; `ok` is what CreateRTCPeer and CreateVoiceClient make of an add, and
        SetSDP or SetCandidate of a negotiation.  The replies are those given to the
        session. */
    method OnMessageReceived(cmd: Cmd, ok: bool) returns (replies: seq<Reply>, handed: Option<Handed>)
      modifies this
      ensures Outcome(State(), replies, handed) == Step(old(State()), cmd, ok)
    {
      replies, handed := [], None;
      match cmd {
        case AddPeer(id) =>
          var added := AddPeerM(id, ok);
          if !added {
            replies := [AddRes(id, false)];
          } else {
            replies := [AddRes(id, true)];
          }
        case RemovePeer(id) =>
          var _ := RemovePeerM(id);
          replies := [RemoveRes(id)];
        case Offer(id, sdp) =>
          var _, given := OnPeerSdpM(id, sdp, ok);
          handed := given;
        case Candidate(id, mlineIndex, mid, candidate) =>
          var _, given := OnPeerCandidateM(id, mlineIndex, mid, candidate, ok);
          handed := given;
      }
    }

    method AddPeerM(id: PeerId, ok: bool) returns (added: bool)
      modifies this
      ensures added == ok
      ensures State() == Step(old(State()), AddPeer(id), ok).node
    {
      if !ok {
        return false;
      }
      peers := peers[id := made];
      made := made + 1;
      return true;
    }

    method RemovePeerM(id: PeerId) returns (found: bool)
      modifies this
      ensures found <==> id in old(peers)
      ensures State() == Step(old(State()), RemovePeer(id), true).node
    {
      if id !in peers {
        return false;
      }
      var peer := peers[id];
      peers := peers - {id};
      closed := closed + [peer];
      return true;
    }

    /** The offer is handed to the peer, if there is one; the status is what it makes of
        it. */
    method OnPeerSdpM(id: PeerId, sdp: string, ok: bool) returns (status: bool, handed: Option<Handed>)
      ensures handed == Step(State(), Offer(id, sdp), ok).handed
      ensures status <==> id in peers && ok
    {
      if id !in peers {
        return false, None;
      }
      handed := Some(Handed(peers[id], Offer(id, sdp)));
      if !ok {
        return false, handed;
      }
      return true, handed;
    }

    method OnPeerCandidateM(id: PeerId, mlineIndex: int, mid: string, candidate: string, ok: bool)
      returns (status: bool, handed: Option<Handed>)
      ensures handed == Step(State(), Candidate(id, mlineIndex, mid, candidate), ok).handed
      ensures status <==> id in peers && ok
    {
      if id !in peers {
        return false, None;
      }
      handed := Some(Handed(peers[id], Candidate(id, mlineIndex, mid, candidate)));
      if !ok {
        return false, handed;
      }
      return true, handed;
    }
  }
}
