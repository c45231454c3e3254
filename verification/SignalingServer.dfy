/** SignalingServer: the handlers that keep the peers, the nodes and the list of peers of
    each node, as functions on those tables and as an object. */
module SignalingServer {
  import opened Std
  import opened ServerNode

  type NodeId = string

  /** The ready state of a peer's socket: open, not open but not yet reported closed, or
      reported closed. */
  datatype Status = Open | Closing | Closed

  datatype PeerState = PeerState(status: Status, node: Option<NodeId>)

  /** `objs` are all Peer objects ever made, `peers` the keys of _peers, `nodes` the keys
      of _nodes in insertion order (the iteration order of a Map in ECMA-262, section
      24.1) and `lists` is _node_to_peers. */
  datatype Tables = Tables(
    objs: map<PeerId, PeerState>,
    peers: set<PeerId>,
    nodes: seq<NodeId>,
    lists: map<NodeId, seq<PeerId>>)
  {
    function List(n: NodeId): seq<PeerId> {
      if n in lists then lists[n] else []
    }
  }

  const EMPTY := Tables(map[], {}, [], map[])

  datatype Effect = ToNode(node: NodeId, cmd: Cmd) | RegistRes(peer: PeerId, success: bool)

  /** splice at findIndex: the first occurrence goes. */
  function RemoveFirst<T(==)>(s: seq<T>, x: T): seq<T> {
    if s == [] then []
    else if s[0] == x then s[1..]
    else [s[0]] + RemoveFirst(s[1..], x)
  }

  /** Peer.close: only an open socket starts to close. */
  function Close(p: PeerState): PeerState {
    if p.status.Open? then p.(status := Closing) else p
  }

  // ---- the handlers ----

  /** A connection and the microtask that follows it. */
  function ConnectPeer(t: Tables, p: PeerId, open: bool): Tables {
    t.(objs := t.objs[p := PeerState(if open then Open else Closing, None)],
       peers := if open then t.peers + {p} else t.peers - {p})
  }

  function ConnectNode(t: Tables, n: NodeId, open: bool): Tables {
    if open then t.(nodes := t.nodes + [n]) else t
  }

  /** The peer goes to the first node there is. */
  function Regist(t: Tables, p: PeerId): (Tables, seq<Effect>)
    requires p in t.objs
  {
    if t.nodes == [] then (t, [RegistRes(p, false)])
    else
      var n := t.nodes[0];
      (t.(objs := t.objs[p := t.objs[p].(node := Some(n))], lists := t.lists[n := t.List(n) + [p]]),
       [ToNode(n, AddPeer(p)), RegistRes(p, true)])
  }

  function ClosePeer(t: Tables, p: PeerId): (Tables, seq<Effect>)
    requires p in t.objs
  {
    var u := t.(objs := t.objs[p := t.objs[p].(status := Closed)], peers := t.peers - {p});
    match t.objs[p].node
    case Some(n) =>
      if n in t.nodes then (u.(lists := Unlist(t.lists, n, p)), [ToNode(n, RemovePeer(p))]) else (u, [])
    case None => (u, [])
  }

  function Unlist(lists: map<NodeId, seq<PeerId>>, n: NodeId, p: PeerId): map<NodeId, seq<PeerId>> {
    if n in lists then lists[n := RemoveFirst(lists[n], p)] else lists
  }

  /** An offer or a candidate of a peer: None where the look-up of its node gives
      undefined and the send throws. */
  function Negotiate(t: Tables, p: PeerId, cmd: Cmd): Option<Effect>
    requires p in t.objs
  {
    match t.objs[p].node
    case Some(n) => if n in t.nodes then Some(ToNode(n, cmd)) else None
    case None => None
  }

  function AddPeerRes(t: Tables, n: NodeId, p: PeerId, success: bool): Tables {
    if !success && p in t.peers then t.(objs := CloseAll(t.objs, [p]), lists := Unlist(t.lists, n, p))
    else t
  }

  function CloseNode(t: Tables, n: NodeId): Tables {
    t.(nodes := RemoveFirst(t.nodes, n), objs := CloseAll(t.objs, t.List(n)), lists := t.lists - {n})
  }

  function CloseAll(objs: map<PeerId, PeerState>, ps: seq<PeerId>): map<PeerId, PeerState> {
    map p | p in objs :: if p in ps then Close(objs[p]) else objs[p]
  }

  // ---- the objects ----

  class Peer {
    const id: PeerId
    var status: Status
    var rtcNodeId: Option<NodeId>

    constructor (id: PeerId, open: bool)
      ensures this.id == id && State() == PeerState(if open then Open else Closing, None)
    {
      this.id, status, rtcNodeId := id, if open then Open else Closing, None;
    }

    function State(): PeerState
      reads this
    {
      PeerState(status, rtcNodeId)
    }

    method CloseSocket()
      modifies `status
      ensures State() == Close(old(State()))
    {
      if status != Open {
        return;
      }
      status := Closing;
    }
  }

  function Ids(ps: seq<Peer>): seq<PeerId> {
    seq(|ps|, i requires 0 <= i < |ps| => ps[i].id)
  }

  class Signaling {
    var peers: map<PeerId, Peer>
    var nodes: seq<NodeId>
    var nodeToPeers: map<NodeId, seq<Peer>>
    /** All peers ever made. */
    ghost var objs: map<PeerId, Peer>

    ghost predicate Known(p: Peer)
      reads `objs
    {
      p.id in objs && objs[p.id] == p
    }

    ghost predicate Valid()
      reads `objs, `peers, `nodeToPeers
    {
      && (forall id | id in objs :: objs[id].id == id)
      && (forall id | id in peers :: peers[id].id == id && Known(peers[id]))
      && (forall n | n in nodeToPeers :: forall p | p in nodeToPeers[n] :: Known(p))
    }

    ghost function PeerStates(): map<PeerId, PeerState>
      reads `objs, objs.Values
    {
      map id | id in objs :: objs[id].State()
    }

    ghost function Lists(): map<NodeId, seq<PeerId>>
      reads `nodeToPeers
    {
      map n | n in nodeToPeers :: Ids(nodeToPeers[n])
    }

    ghost function State(): Tables
      reads this, objs.Values
    {
      Tables(PeerStates(), peers.Keys, nodes, Lists())
    }

    constructor ()
      ensures Valid() && State() == EMPTY
    {
      peers, nodes, nodeToPeers, objs := map[], [], map[], map[];
    }

    /** The connection event and, before any other event, its microtask. */
    method OnConnectPeer(id: PeerId, open: bool) returns (peer: Peer)
      requires Valid() && id !in objs
      modifies this
      ensures Valid() && fresh(peer) && Known(peer) && peer.id == id
      ensures State() == ConnectPeer(old(State()), id, open)
    {
      peer := new Peer(id, open);
      Enter(peer);
      OnCreatePeer(peer);
    }

    method Enter(peer: Peer)
      requires Valid() && peer.id !in objs
      modifies this
      ensures Valid() && Known(peer)
      ensures State() == old(State()).(objs := old(PeerStates())[peer.id := peer.State()], peers := old(State()).peers + {peer.id})
    {
      objs := objs[peer.id := peer];
      peers := peers[peer.id := peer];
      assert PeerStates() == old(PeerStates())[peer.id := peer.State()];
      assert Lists() == old(Lists());
    }

    method OnCreatePeer(peer: Peer)
      requires Valid()
      modifies `peers
      ensures Valid()
      ensures State() == old(State()).(peers := old(State()).peers - (if peer.status.Open? then {} else {peer.id}))
    {
      if peer.status != Open {
        peers := peers - {peer.id};
      }
      assert PeerStates() == old(PeerStates()) && Lists() == old(Lists());
    }

    method OnConnectNode(id: NodeId, open: bool)
      requires Valid() && id !in nodes
      modifies this
      ensures Valid() && State() == ConnectNode(old(State()), id, open)
    {
      nodes := nodes + [id];
      if !open {
        nodes := RemoveFirst(nodes, id);
        RemoveAppended(old(nodes), id);
      }
    }

    method OnPeerRegist(peer: Peer) returns (effects: seq<Effect>)
      requires Valid() && Known(peer)
      modifies this, peer`rtcNodeId
      ensures Valid() && (State(), effects) == Regist(old(State()), peer.id)
    {
      if nodes != [] {
        var node := nodes[0];
        peer.rtcNodeId := Some(node);
        assert PeerStates() == old(PeerStates())[peer.id := peer.State()];
        assert Lists() == old(Lists());
        effects := [ToNode(node, AddPeer(peer.id))];
        NodeToPeerAdd(node, peer);
        effects := effects + [RegistRes(peer.id, true)];
        assert effects == [ToNode(node, AddPeer(peer.id)), RegistRes(peer.id, true)];
      } else {
        effects := [RegistRes(peer.id, false)];
      }
    }

    method NodeToPeerAdd(node: NodeId, peer: Peer)
      requires Valid() && Known(peer)
      modifies `nodeToPeers
      ensures Valid()
      ensures State() == old(State()).(lists := old(State()).lists[node := old(State()).List(node) + [peer.id]])
    {
      if node !in nodeToPeers {
        nodeToPeers := nodeToPeers[node := []];
      }
      nodeToPeers := nodeToPeers[node := nodeToPeers[node] + [peer]];
      assert Ids(nodeToPeers[node]) == old(State()).List(node) + [peer.id];
      assert Lists() == old(Lists())[node := old(State()).List(node) + [peer.id]];
    }

    /** The socket is in its closed state when its close is reported. */
    method OnPeerClose(peer: Peer) returns (effects: seq<Effect>)
      requires Valid() && Known(peer)
      modifies this, peer`status
      ensures Valid() && (State(), effects) == ClosePeer(old(State()), peer.id)
    {
      effects := [];
      peer.status := Closed;
      peers := peers - {peer.id};
      assert PeerStates() == old(PeerStates())[peer.id := peer.State()];
      assert Lists() == old(Lists());
      match peer.rtcNodeId {
        case None =>
        case Some(node) =>
          if node in nodes {
            effects := [ToNode(node, RemovePeer(peer.id))];
            NodeToPeerRemove(node, peer);
          }
      }
    }

    method NodeToPeerRemove(node: NodeId, peer: Peer)
      requires Valid() && Known(peer)
      modifies `nodeToPeers
      ensures Valid()
      ensures State() == old(State()).(lists := Unlist(old(State()).lists, node, peer.id))
    {
      if node !in nodeToPeers {
        return;
      }
      var list := nodeToPeers[node];
      var idx := FindIndex(list, peer);
      if idx < |list| {
        nodeToPeers := nodeToPeers[node := list[..idx] + list[idx + 1..]];
        assert forall p | p in nodeToPeers[node] :: p in list;
        assert Ids(nodeToPeers[node]) == Ids(list)[..idx] + Ids(list)[idx + 1..];
      }
      assert Lists() == Unlist(old(Lists()), node, peer.id);
    }

    method FindIndex(list: seq<Peer>, peer: Peer) returns (idx: nat)
      requires Known(peer) && forall p | p in list :: Known(p)
      ensures idx <= |list|
      ensures RemoveFirst(Ids(list), peer.id) == if idx < |list| then Ids(list)[..idx] + Ids(list)[idx + 1..] else Ids(list)
    {
      idx := 0;
      while idx < |list| && list[idx] != peer
        invariant idx <= |list|
        invariant forall i | 0 <= i < idx :: list[i].id != peer.id
      {
        assert list[idx] in list;
        idx := idx + 1;
      }
      Spliced(Ids(list), peer.id, idx);
    }

    /** `sent` is None where the handler throws. */
    method OnPeerNegotiate(peer: Peer, cmd: Cmd) returns (sent: Option<Effect>)
      requires Valid() && Known(peer)
      ensures sent == Negotiate(State(), peer.id, cmd)
    {
      match peer.rtcNodeId {
        case None => return None;
        case Some(node) =>
          if node !in nodes {
            return None;
          }
          return Some(ToNode(node, cmd));
      }
    }

    method OnRtcNodeAddPeerRes(node: NodeId, id: PeerId, success: bool)
      requires Valid()
      modifies this, objs.Values
      ensures Valid() && State() == AddPeerRes(old(State()), node, id, success)
    {
      if !success {
        if id in peers {
          var peer := peers[id];
          peer.CloseSocket();
          assert PeerStates() == CloseAll(old(PeerStates()), [id]);
          NodeToPeerRemove(node, peer);
        }
      }
    }

    method OnRtcNodeClose(node: NodeId)
      requires Valid()
      modifies this, objs.Values
      ensures Valid() && State() == CloseNode(old(State()), node)
    {
      ghost var t := State();
      var list := if node in nodeToPeers then nodeToPeers[node] else [];
      assert Ids(list) == t.List(node);
      nodes := RemoveFirst(nodes, node);
      ClosePeers(list);
      nodeToPeers := nodeToPeers - {node};
      assert Lists() == t.lists - {node};
    }

    method ClosePeers(list: seq<Peer>)
      requires Valid() && forall p | p in list :: Known(p)
      modifies objs.Values
      ensures PeerStates() == CloseAll(old(PeerStates()), Ids(list))
    {
      ghost var before := PeerStates();
      for i := 0 to |list|
        invariant forall id | id in objs ::
                    objs[id].State() == if id in Ids(list)[..i] then Close(before[id]) else before[id]
      {
        assert list[i] in list && Known(list[i]);
        assert Ids(list)[..i + 1] == Ids(list)[..i] + [list[i].id];
        list[i].CloseSocket();
      }
      assert Ids(list)[..|list|] == Ids(list);
    }
  }

  lemma {:induction false} Spliced<T>(s: seq<T>, x: T, i: nat)
    requires i <= |s| && (forall j | 0 <= j < i :: s[j] != x) && (i < |s| ==> s[i] == x)
    ensures RemoveFirst(s, x) == if i < |s| then s[..i] + s[i + 1..] else s
  {
    if i > 0 {
      Spliced(s[1..], x, i - 1);
    }
  }

  lemma RemoveAppended<T>(s: seq<T>, x: T)
    requires x !in s
    ensures RemoveFirst(s + [x], x) == s
  {
    Spliced(s + [x], x, |s|);
  }
}
