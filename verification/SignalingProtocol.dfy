/** The signaling server and its nodes as one system: each handler is an atomic step, and
    the messages between the server and a node travel in order. */
module SignalingProtocol {
  import opened Std
  import opened ServerNode
  import opened SignalingServer

  // ---- the system ----

  /** One node with the messages on their way to it and from it.  `up` says that the
      server's side of the socket is open: what is sent to a socket that is not open is
      dropped.  `done`, `seen`, `known` and `failed` record what the node has handled: the
      commands with their outcomes, the adds, those not followed by a remove, and those that
      failed. */
  datatype Link = Link(
    up: bool,
    inbox: seq<Cmd>,
    outbox: seq<Reply>,
    node: Node,
    done: seq<Done>,
    seen: set<PeerId>,
    known: set<PeerId>,
    failed: set<PeerId>)

  datatype System = System(tables: Tables, links: map<NodeId, Link>)

  const START := System(EMPTY, map[])

  datatype Event =
    | PeerConnects(p: PeerId, open: bool)
    | NodeConnects(n: NodeId, open: bool)
    | PeerRegisters(p: PeerId)
    | PeerNegotiates(p: PeerId, cmd: Cmd)
    | PeerLeaves(p: PeerId)
    | PeerCloses(p: PeerId)
    | NodeWorks(n: NodeId, ok: bool)
    | ServerReads(n: NodeId)
    | SocketFails(n: NodeId)
    | NodeCloses(n: NodeId)

  /** When an event can happen.  A peer leaves when its side starts closing the socket, and
      `close` comes later or from the server's own closing.  Connection ids are fresh; a peer registers once, while its
      socket is open; `close` is the last event of a socket. */
  predicate Enabled(s: System, e: Event) {
    match e
    case PeerConnects(p, _) => p !in s.tables.objs
    case NodeConnects(n, _) => n !in s.links
    case PeerRegisters(p) => p in s.tables.objs && s.tables.objs[p].status.Open? && s.tables.objs[p].node.None?
    case PeerNegotiates(p, cmd) =>
      p in s.tables.objs && !s.tables.objs[p].status.Closed? && (cmd.Offer? || cmd.Candidate?) && cmd.id == p
    case PeerLeaves(p) => p in s.tables.objs && s.tables.objs[p].status.Open?
    case PeerCloses(p) => p in s.tables.objs && !s.tables.objs[p].status.Closed?
    case NodeWorks(n, _) => n in s.links && s.links[n].inbox != []
    case ServerReads(n) => n in s.links && n in s.tables.nodes && s.links[n].outbox != []
    case SocketFails(n) => n in s.links
    case NodeCloses(n) => n in s.links && n in s.tables.nodes
  }

  function Deliver(links: map<NodeId, Link>, n: NodeId, cmd: Cmd): map<NodeId, Link> {
    if n in links && links[n].up then links[n := links[n].(inbox := links[n].inbox + [cmd])] else links
  }

  function DeliverAll(links: map<NodeId, Link>, effects: seq<Effect>): map<NodeId, Link> {
    if effects == [] then links
    else
      var rest := DeliverAll(links, Init(effects));
      match Last(effects)
      case ToNode(n, cmd) => Deliver(rest, n, cmd)
      case RegistRes(_, _) => rest
  }

  function Work(k: Link, ok: bool): Link
    requires k.inbox != []
  {
    var cmd := k.inbox[0];
    var done := ServerNode.Step(k.node, cmd, ok);
    k.(inbox := k.inbox[1..], outbox := k.outbox + done.replies, node := done.node, done := k.done + [Done(cmd, ok)],
       seen := SeenAfter(cmd, k.seen), known := After(cmd, k.known),
       failed := if cmd.AddPeer? && !ok then k.failed + {cmd.id} else k.failed)
  }

  function Next(s: System, e: Event): System
    requires Enabled(s, e)
  {
    match e
    case PeerConnects(p, open) => s.(tables := ConnectPeer(s.tables, p, open))
    case NodeConnects(n, open) =>
      System(ConnectNode(s.tables, n, open), s.links[n := Link(open, [], [], ServerNode.INITIAL, [], {}, {}, {})])
    case PeerRegisters(p) =>
      var (t, effects) := Regist(s.tables, p);
      System(t, DeliverAll(s.links, effects))
    case PeerNegotiates(p, cmd) =>
      (match Negotiate(s.tables, p, cmd)
       case Some(effect) => s.(links := DeliverAll(s.links, [effect]))
       case None => s)
    case PeerLeaves(p) => s.(tables := s.tables.(objs := s.tables.objs[p := Close(s.tables.objs[p])]))
    case PeerCloses(p) =>
      var (t, effects) := ClosePeer(s.tables, p);
      System(t, DeliverAll(s.links, effects))
    case NodeWorks(n, ok) => s.(links := s.links[n := Work(s.links[n], ok)])
    case ServerReads(n) =>
      var k := s.links[n];
      System(match k.outbox[0]
             case AddRes(p, success) => AddPeerRes(s.tables, n, p, success)
             case RemoveRes(_) => s.tables,
             s.links[n := k.(outbox := k.outbox[1..])])
    case SocketFails(n) => s.(links := s.links[n := s.links[n].(up := false)])
    case NodeCloses(n) => System(CloseNode(s.tables, n), s.links[n := s.links[n].(up := false)])
  }

  /** The state a run of events leads to; None if some event was not enabled. */
  function Exec(es: seq<Event>): Option<System> {
    if es == [] then Some(START)
    else
      match Exec(Init(es))
      case Some(s) => if Enabled(s, Last(es)) then Some(Next(s, Last(es))) else None
      case None => None
  }

  // ---- commands on their way ----

  /** What a command does to a set of peers when every add succeeds. */
  function After(cmd: Cmd, ps: set<PeerId>): set<PeerId> {
    match cmd
    case AddPeer(p) => ps + {p}
    case RemovePeer(p) => ps - {p}
    case _ => ps
  }

  function SeenAfter(cmd: Cmd, ps: set<PeerId>): set<PeerId> {
    if cmd.AddPeer? then ps + {cmd.id} else ps
  }

  /** The queued commands applied to a set of peers. */
  function Apply(inbox: seq<Cmd>, ps: set<PeerId>): set<PeerId> {
    if inbox == [] then ps else Apply(inbox[1..], After(inbox[0], ps))
  }

  function ApplySeen(inbox: seq<Cmd>, ps: set<PeerId>): set<PeerId> {
    if inbox == [] then ps else ApplySeen(inbox[1..], SeenAfter(inbox[0], ps))
  }

  /** A peer is added before anything else about it, only once, and nothing about it
      follows its removal. */
  predicate Proper(cmd: Cmd, known: set<PeerId>, seen: set<PeerId>) {
    if cmd.AddPeer? then cmd.id !in seen else cmd.id in known
  }

  predicate Ordered(inbox: seq<Cmd>, known: set<PeerId>, seen: set<PeerId>) {
    inbox == [] ||
    (Proper(inbox[0], known, seen) && Ordered(inbox[1..], After(inbox[0], known), SeenAfter(inbox[0], seen)))
  }

  lemma {:induction false} Append(inbox: seq<Cmd>, cmd: Cmd, known: set<PeerId>, seen: set<PeerId>)
    ensures Apply(inbox + [cmd], known) == After(cmd, Apply(inbox, known))
    ensures ApplySeen(inbox + [cmd], seen) == SeenAfter(cmd, ApplySeen(inbox, seen)) && seen <= ApplySeen(inbox, seen)
    ensures Ordered(inbox + [cmd], known, seen) <==>
            Ordered(inbox, known, seen) && Proper(cmd, Apply(inbox, known), ApplySeen(inbox, seen))
  {
    if inbox == [] {
      assert [cmd][1..] == [] && inbox + [cmd] == [cmd];
      assert Apply([cmd][1..], After(cmd, known)) == After(cmd, known);
      assert ApplySeen([cmd][1..], SeenAfter(cmd, seen)) == SeenAfter(cmd, seen);
    } else {
      assert (inbox + [cmd])[1..] == inbox[1..] + [cmd];
      Append(inbox[1..], cmd, After(inbox[0], known), SeenAfter(inbox[0], seen));
    }
  }

  /** Peers whose add has been handled are not added again, so leaving them out before or
      after the queued commands is the same. */
  lemma {:induction false} ApplyMinus(inbox: seq<Cmd>, known: set<PeerId>, seen: set<PeerId>, out: set<PeerId>)
    requires Ordered(inbox, known, seen) && out <= seen
    ensures Apply(inbox, known - out) == Apply(inbox, known) - out
  {
    if inbox != [] {
      ApplyMinus(inbox[1..], After(inbox[0], known), SeenAfter(inbox[0], seen), out);
      assert After(inbox[0], known - out) == After(inbox[0], known) - out;
    }
  }

  // ---- the invariant ----

  /** The peers assigned to a node. */
  function Assigned(t: Tables, n: NodeId): set<PeerId> {
    set p | p in t.objs && t.objs[p].node == Some(n)
  }

  /** Those that have not been reported closed. */
  function Registered(t: Tables, n: NodeId): set<PeerId> {
    set p | p in t.objs && t.objs[p].node == Some(n) && !t.objs[p].status.Closed?
  }

  function Elements<T>(s: seq<T>): set<T> {
    set x | x in s
  }

  /** The peers whose `fail` reply is on its way. */
  function Fails(outbox: seq<Reply>): set<PeerId> {
    set r | r in outbox && r.AddRes? && !r.success :: r.id
  }

  predicate FailsOnce(outbox: seq<Reply>) {
    forall i, j | 0 <= i < j < |outbox| && outbox[i] == outbox[j] :: !(outbox[i].AddRes? && !outbox[i].success)
  }

  /** The node and the queues of an open socket agree with the tables. */
  predicate Agrees(t: Tables, n: NodeId, k: Link) {
    && Ordered(k.inbox, k.known, k.seen)
    && Apply(k.inbox, k.known) == Registered(t, n)
    && ApplySeen(k.inbox, k.seen) == Assigned(t, n)
    && k.failed <= k.seen && k.known <= k.seen
    && k.node.peers.Keys == k.known - k.failed
    && Fails(k.outbox) <= k.failed && FailsOnce(k.outbox)
    && Elements(t.List(n)) == Registered(t, n) - (k.failed - Fails(k.outbox))
  }

  predicate Distinct<T(==)>(s: seq<T>) {
    forall i, j | 0 <= i < j < |s| :: s[i] != s[j]
  }

  /** The tables fit together. */
  predicate Indexed(t: Tables) {
    && t.peers <= t.objs.Keys
    && Distinct(t.nodes)
    && (forall n | n in t.lists :: t.nodes != [] && n == t.nodes[0])
    && (forall n | n in t.lists :: Distinct(t.lists[n]) && Elements(t.lists[n]) <= Registered(t, n) * t.peers)
    && (forall p | p in t.peers :: !t.objs[p].status.Closed?)
    && (forall p | p in t.objs && t.objs[p].status.Open? ::
          p in t.peers && (t.objs[p].node.Some? ==> p in t.List(t.objs[p].node.value)))
  }

  predicate Invariant(s: System) {
    && Indexed(s.tables)
    && (forall n | n in s.tables.nodes :: n in s.links)
    && (forall p | p in s.tables.objs && s.tables.objs[p].node.Some? :: s.tables.objs[p].node.value in s.links)
    && (forall n | n in s.links && s.links[n].up :: n in s.tables.nodes && Agrees(s.tables, n, s.links[n]))
  }

  // ---- each event keeps it ----

  lemma {:induction false} RemovedFirst<T(!new)>(s: seq<T>, x: T)
    requires Distinct(s)
    ensures Distinct(RemoveFirst(s, x))
    ensures forall y :: y in RemoveFirst(s, x) <==> y in s && y != x
    ensures s != [] && s[0] != x ==> RemoveFirst(s, x) != [] && RemoveFirst(s, x)[0] == s[0]
  {
    if s != [] {
      assert s == [s[0]] + s[1..] && s[0] !in s[1..];
      if s[0] != x {
        RemovedFirst(s[1..], x);
        assert s[0] !in RemoveFirst(s[1..], x);
      }
    }
  }

  /** A table change that leaves alone what is said about a node leaves alone its link. */
  lemma AgreesFrame(t: Tables, u: Tables, n: NodeId, k: Link)
    requires Agrees(t, n, k)
    requires Registered(u, n) == Registered(t, n) && Assigned(u, n) == Assigned(t, n) && u.List(n) == t.List(n)
    ensures Agrees(u, n, k)
  {
  }

  lemma PeerConnectsKeeps(s: System, p: PeerId, open: bool)
    requires Invariant(s) && p !in s.tables.objs
    ensures Invariant(Next(s, PeerConnects(p, open)))
  {
    var u := ConnectPeer(s.tables, p, open);
    forall n
      ensures Registered(u, n) == Registered(s.tables, n) && Assigned(u, n) == Assigned(s.tables, n)
    {
    }
    forall n | n in s.links && s.links[n].up
      ensures Agrees(u, n, s.links[n])
    {
      AgreesFrame(s.tables, u, n, s.links[n]);
    }
  }

  lemma NodeConnectsKeeps(s: System, n: NodeId, open: bool)
    requires Invariant(s) && n !in s.links
    ensures Invariant(Next(s, NodeConnects(n, open)))
  {
    var t, u := s.tables, ConnectNode(s.tables, n, open);
    assert Assigned(t, n) == {} && Registered(t, n) == {} && t.List(n) == [];
    forall m | m in s.links && s.links[m].up
      ensures Agrees(u, m, s.links[m])
    {
      AgreesFrame(t, u, m, s.links[m]);
    }
  }

  lemma PeerNegotiatesKeeps(s: System, p: PeerId, cmd: Cmd)
    requires Invariant(s) && Enabled(s, PeerNegotiates(p, cmd))
    ensures Invariant(Next(s, PeerNegotiates(p, cmd)))
  {
    var t := s.tables;
    match Negotiate(t, p, cmd) {
      case Some(effect) =>
        var n := t.objs[p].node.value;
        assert DeliverAll(s.links, [effect]) == Deliver(DeliverAll(s.links, []), n, cmd);
        if n in s.links && s.links[n].up {
          var k := s.links[n];
          Append(k.inbox, cmd, k.known, k.seen);
          assert p in Registered(t, n);
          assert Agrees(t, n, k.(inbox := k.inbox + [cmd]));
        }
      case None =>
    }
  }

  lemma PeerRegistersKeeps(s: System, p: PeerId)
    requires Invariant(s) && Enabled(s, PeerRegisters(p))
    ensures Invariant(Next(s, PeerRegisters(p)))
  {
    var t := s.tables;
    var (u, effects) := Regist(t, p);
    if t.nodes == [] {
      assert DeliverAll(s.links, effects) == s.links;
    } else {
      var n := t.nodes[0];
      var links := Deliver(s.links, n, AddPeer(p));
      Delivered(s.links, n, AddPeer(p), RegistRes(p, true));
      RegistTables(t, p);
      forall m | m in links && links[m].up
        ensures Agrees(u, m, links[m])
      {
        if m == n {
          var k := s.links[n];
          Append(k.inbox, AddPeer(p), k.known, k.seen);
          assert p !in Assigned(t, n);
        } else {
          AgreesFrame(t, u, m, s.links[m]);
        }
      }
    }
  }

  lemma Delivered(links: map<NodeId, Link>, n: NodeId, cmd: Cmd, reply: Effect)
    requires reply.RegistRes?
    ensures DeliverAll(links, [ToNode(n, cmd), reply]) == DeliverAll(links, [ToNode(n, cmd)]) == Deliver(links, n, cmd)
  {
    var e := ToNode(n, cmd);
    assert Init([e, reply]) == [e] && Init([e]) == [];
  }

  lemma RegistTables(t: Tables, p: PeerId)
    requires Indexed(t) && t.nodes != [] && p in t.objs && t.objs[p].status.Open? && t.objs[p].node.None?
    ensures var u, n := Regist(t, p).0, t.nodes[0];
            && Indexed(u)
            && Registered(u, n) == Registered(t, n) + {p} && Assigned(u, n) == Assigned(t, n) + {p}
            && Elements(u.List(n)) == Elements(t.List(n)) + {p}
            && forall m | m != n :: Registered(u, m) == Registered(t, m) && Assigned(u, m) == Assigned(t, m) && u.List(m) == t.List(m)
  {
    var u, n := Regist(t, p).0, t.nodes[0];
    assert p !in Registered(t, n);
    assert p !in t.List(n) by {
      if n in t.lists {
        assert p in Elements(t.lists[n]) ==> p in Registered(t, n);
      }
    }
    assert Elements(u.List(n)) == Elements(t.List(n)) + {p};
  }

  lemma PeerLeavesKeeps(s: System, p: PeerId)
    requires Invariant(s) && Enabled(s, PeerLeaves(p))
    ensures Invariant(Next(s, PeerLeaves(p)))
  {
    var t, u := s.tables, Next(s, PeerLeaves(p)).tables;
    LeaveTables(t, p);
    forall n | n in s.links && s.links[n].up
      ensures Agrees(u, n, s.links[n])
    {
      AgreesFrame(t, u, n, s.links[n]);
    }
  }

  lemma LeaveTables(t: Tables, p: PeerId)
    requires Indexed(t) && p in t.objs && t.objs[p].status.Open?
    ensures var u := t.(objs := t.objs[p := Close(t.objs[p])]);
            && Indexed(u)
            && forall n :: Registered(u, n) == Registered(t, n) && Assigned(u, n) == Assigned(t, n)
  {
    var u := t.(objs := t.objs[p := Close(t.objs[p])]);
    forall n
      ensures Registered(u, n) == Registered(t, n) && Assigned(u, n) == Assigned(t, n)
    {
    }
  }

  lemma PeerClosesKeeps(s: System, p: PeerId)
    requires Invariant(s) && Enabled(s, PeerCloses(p))
    ensures Invariant(Next(s, PeerCloses(p)))
  {
    var t := s.tables;
    var (u, effects) := ClosePeer(t, p);
    CloseTables(t, p);
    if effects == [] {
      forall m | m in s.links && s.links[m].up
        ensures Agrees(u, m, s.links[m])
      {
        AgreesFrame(t, u, m, s.links[m]);
      }
    } else {
      var n := t.objs[p].node.value;
      var links := Deliver(s.links, n, RemovePeer(p));
      Delivered(s.links, n, RemovePeer(p), RegistRes(p, true));
      forall m | m in links && links[m].up
        ensures Agrees(u, m, links[m])
      {
        if m == n {
          var k := s.links[n];
          Append(k.inbox, RemovePeer(p), k.known, k.seen);
          assert p in Registered(t, n);
        } else {
          AgreesFrame(t, u, m, s.links[m]);
        }
      }
    }
  }

  lemma CloseTables(t: Tables, p: PeerId)
    requires Indexed(t) && p in t.objs && !t.objs[p].status.Closed?
    ensures var u := ClosePeer(t, p).0;
            && Indexed(u)
            && (forall m :: Assigned(u, m) == Assigned(t, m) && Registered(u, m) == Registered(t, m) - {p})
            && (forall m | m in t.nodes || m !in t.lists :: Elements(u.List(m)) == Elements(t.List(m)) - {p})
            && (forall m | t.objs[p].node != Some(m) :: Registered(u, m) == Registered(t, m) && u.List(m) == t.List(m))
  {
    var u := ClosePeer(t, p).0;
    forall m
      ensures Assigned(u, m) == Assigned(t, m) && Registered(u, m) == Registered(t, m) - {p}
    {
    }
    forall m | m in t.lists
      ensures m in t.nodes && (t.objs[p].node == Some(m) || p !in t.lists[m])
    {
      assert p in Elements(t.lists[m]) ==> p in Registered(t, m);
    }
    match t.objs[p].node {
      case Some(n) =>
        if n in t.lists {
          RemovedFirst(t.lists[n], p);
          assert Elements(RemoveFirst(t.lists[n], p)) == Elements(t.lists[n]) - {p};
        }
      case None =>
    }
  }

  lemma FailsAppend(outbox: seq<Reply>, r: Reply)
    ensures Fails(outbox + [r]) == Fails(outbox) + (if r.AddRes? && !r.success then {r.id} else {})
    ensures FailsOnce(outbox) && !(r.AddRes? && !r.success && r.id in Fails(outbox)) ==> FailsOnce(outbox + [r])
  {
    assert forall x | x in outbox + [r] :: x in outbox || x == r;
    assert forall x | x in outbox :: x in outbox + [r];
    assert r in outbox + [r];
  }

  lemma FailsTail(outbox: seq<Reply>)
    requires outbox != [] && FailsOnce(outbox)
    ensures FailsOnce(outbox[1..])
    ensures var r := outbox[0];
            Fails(outbox[1..]) == Fails(outbox) - (if r.AddRes? && !r.success then {r.id} else {})
  {
    assert outbox == [outbox[0]] + outbox[1..];
    assert forall x | x in outbox :: x == outbox[0] || x in outbox[1..];
    if outbox[0] in outbox[1..] {
      var j :| 0 <= j < |outbox[1..]| && outbox[1..][j] == outbox[0];
      assert outbox[j + 1] == outbox[0];
    }
  }

  /** The node takes the next command of its queue. */
  lemma WorkKeeps(t: Tables, n: NodeId, k: Link, ok: bool)
    requires Agrees(t, n, k) && k.inbox != []
    ensures Agrees(t, n, Work(k, ok))
  {
    var cmd := k.inbox[0];
    match cmd {
      case AddPeer(p) =>
        FailsAppend(k.outbox, AddRes(p, ok));
      case RemovePeer(p) =>
        FailsAppend(k.outbox, RemoveRes(p));
      case _ =>
        assert k.outbox + [] == k.outbox;
    }
  }

  lemma NodeWorksKeeps(s: System, n: NodeId, ok: bool)
    requires Invariant(s) && Enabled(s, NodeWorks(n, ok))
    ensures Invariant(Next(s, NodeWorks(n, ok)))
  {
    if s.links[n].up {
      WorkKeeps(s.tables, n, s.links[n], ok);
    }
  }

  lemma ResultTables(t: Tables, n: NodeId, p: PeerId, success: bool)
    requires Indexed(t)
    ensures var u := AddPeerRes(t, n, p, success);
            && Indexed(u) && u.objs.Keys == t.objs.Keys && u.nodes == t.nodes
            && (forall q | q in t.objs :: u.objs[q].node == t.objs[q].node)
            && (forall m :: Assigned(u, m) == Assigned(t, m) && Registered(u, m) == Registered(t, m))
            && Elements(u.List(n)) == Elements(t.List(n)) - (if success then {} else {p})
            && (forall m | m != n :: u.List(m) == t.List(m))
  {
    var u := AddPeerRes(t, n, p, success);
    forall m
      ensures Assigned(u, m) == Assigned(t, m) && Registered(u, m) == Registered(t, m)
    {
    }
    if n in t.lists {
      RemovedFirst(t.lists[n], p);
      assert Elements(RemoveFirst(t.lists[n], p)) == Elements(t.lists[n]) - {p};
      assert p in Elements(t.lists[n]) ==> p in t.peers;
    }
  }

  lemma ServerReadsKeeps(s: System, n: NodeId)
    requires Invariant(s) && Enabled(s, ServerReads(n))
    ensures Invariant(Next(s, ServerReads(n)))
  {
    var t, k := s.tables, s.links[n];
    match k.outbox[0] {
      case AddRes(p, success) =>
        var u := AddPeerRes(t, n, p, success);
        ResultTables(t, n, p, success);
        forall m | m in s.links && s.links[m].up && m != n
          ensures Agrees(u, m, s.links[m])
        {
          AgreesFrame(t, u, m, s.links[m]);
        }
        if k.up {
          FailsTail(k.outbox);
          assert Agrees(u, n, k.(outbox := k.outbox[1..]));
        }
      case RemoveRes(_) =>
        if k.up {
          FailsTail(k.outbox);
        }
    }
  }

  lemma CloseNodeTables(t: Tables, n: NodeId)
    requires Indexed(t)
    ensures var u := CloseNode(t, n);
            && Indexed(u) && u.objs.Keys == t.objs.Keys && n !in u.nodes
            && (forall m | m != n :: m in u.nodes <==> m in t.nodes)
            && (forall q | q in t.objs :: u.objs[q].node == t.objs[q].node)
            && (forall m :: Assigned(u, m) == Assigned(t, m) && Registered(u, m) == Registered(t, m))
            && (forall m | m != n :: u.List(m) == t.List(m))
  {
    var u := CloseNode(t, n);
    RemovedFirst(t.nodes, n);
    forall m
      ensures Assigned(u, m) == Assigned(t, m) && Registered(u, m) == Registered(t, m)
    {
    }
    forall p | p in u.objs && u.objs[p].status.Open?
      ensures p in u.peers && (u.objs[p].node.Some? ==> p in u.List(u.objs[p].node.value))
    {
      assert t.objs[p].status.Open?;
    }
  }

  lemma NodeClosesKeeps(s: System, n: NodeId)
    requires Invariant(s) && Enabled(s, NodeCloses(n))
    ensures Invariant(Next(s, NodeCloses(n)))
  {
    var t, u := s.tables, CloseNode(s.tables, n);
    CloseNodeTables(t, n);
    forall m | m in s.links && s.links[m].up && m != n
      ensures m in u.nodes && Agrees(u, m, s.links[m])
    {
      AgreesFrame(t, u, m, s.links[m]);
    }
  }

  lemma StepKeeps(s: System, e: Event)
    requires Invariant(s) && Enabled(s, e)
    ensures Invariant(Next(s, e))
  {
    match e {
      case PeerConnects(p, open) => PeerConnectsKeeps(s, p, open);
      case NodeConnects(n, open) => NodeConnectsKeeps(s, n, open);
      case PeerRegisters(p) => PeerRegistersKeeps(s, p);
      case PeerNegotiates(p, cmd) => PeerNegotiatesKeeps(s, p, cmd);
      case PeerLeaves(p) => PeerLeavesKeeps(s, p);
      case PeerCloses(p) => PeerClosesKeeps(s, p);
      case NodeWorks(n, ok) => NodeWorksKeeps(s, n, ok);
      case ServerReads(n) => ServerReadsKeeps(s, n);
      case SocketFails(n) =>
      case NodeCloses(n) => NodeClosesKeeps(s, n);
    }
  }

  /** Every state that a run reaches satisfies the invariant. */
  lemma {:induction false} Always(es: seq<Event>)
    ensures Exec(es).Some? ==> Invariant(Exec(es).value)
  {
    if es != [] && Exec(es).Some? {
      Always(Init(es));
      StepKeeps(Exec(Init(es)).value, Last(es));
    }
  }

  // ---- what is on its way, also after a socket has failed ----

  /** The node and the commands still on their way to it, whatever became of the server's
      side of the socket. */
  predicate Flows(t: Tables, n: NodeId, k: Link) {
    && ApplySeen(k.inbox, k.seen) <= Assigned(t, n)
    && InOrder(k)
    && k.node == ServerNode.Run(k.done)
    && Once(k.node) && NoneLost(k.node)
  }

  predicate InOrder(k: Link) {
    && Ordered(k.inbox, k.known, k.seen)
    && k.failed <= k.seen && k.known <= k.seen
    && k.node.peers.Keys == k.known - k.failed
  }

  predicate AllFlow(s: System) {
    forall n | n in s.links :: Flows(s.tables, n, s.links[n])
  }

  lemma WorkInOrder(k: Link, ok: bool)
    requires InOrder(k) && k.inbox != []
    ensures InOrder(Work(k, ok))
  {
    match k.inbox[0] {
      case AddPeer(p) =>
      case RemovePeer(p) =>
      case _ =>
    }
  }

  lemma WorkLosesNoPeer(k: Link, ok: bool)
    requires InOrder(k) && k.inbox != [] && Once(k.node) && NoneLost(k.node)
    ensures Once(Work(k, ok).node) && NoneLost(Work(k, ok).node)
  {
    var d := Done(k.inbox[0], ok);
    assert !Overwrites(k.node, d);
    OnceStep(k.node, d);
    LostStep(k.node, d);
  }

  lemma WorkFlows(t: Tables, n: NodeId, k: Link, ok: bool)
    requires Flows(t, n, k) && k.inbox != []
    ensures Flows(t, n, Work(k, ok))
  {
    WorkInOrder(k, ok);
    WorkLosesNoPeer(k, ok);
    InitLast(k.done, Done(k.inbox[0], ok));
  }

  /** Events other than the node's own step leave the node alone, and add to its queue
      only while the socket is open. */
  predicate Untouched(k: Link, l: Link) {
    && l == k.(up := l.up, inbox := l.inbox, outbox := l.outbox)
    && (l.inbox != k.inbox ==> l.up)
  }

  lemma {:induction false} DeliverLeaves(links: map<NodeId, Link>, effects: seq<Effect>)
    ensures DeliverAll(links, effects).Keys == links.Keys
    ensures forall n | n in links :: DeliverAll(links, effects)[n].up == links[n].up && Untouched(links[n], DeliverAll(links, effects)[n])
  {
    if effects != [] {
      DeliverLeaves(links, Init(effects));
    }
  }

  lemma EventLeaves(s: System, e: Event, n: NodeId)
    requires Enabled(s, e) && !(e.NodeWorks? && e.n == n)
    ensures if n in s.links then n in Next(s, e).links && Untouched(s.links[n], Next(s, e).links[n])
            else n in Next(s, e).links ==> e.NodeConnects? && e.n == n
  {
    match e {
      case PeerRegisters(p) => DeliverLeaves(s.links, Regist(s.tables, p).1);
      case PeerCloses(p) => DeliverLeaves(s.links, ClosePeer(s.tables, p).1);
      case PeerNegotiates(p, cmd) =>
        if Negotiate(s.tables, p, cmd).Some? {
          DeliverLeaves(s.links, [Negotiate(s.tables, p, cmd).value]);
        }
      case _ =>
    }
  }

  /** What a peer is assigned to never changes. */
  lemma AssignedGrows(s: System, e: Event, n: NodeId)
    requires Enabled(s, e)
    ensures Assigned(s.tables, n) <= Assigned(Next(s, e).tables, n)
  {
    var t, u := s.tables, Next(s, e).tables;
    forall p | p in t.objs && t.objs[p].node == Some(n)
      ensures p in u.objs && u.objs[p].node == Some(n)
    {
    }
  }

  lemma StepFlows(s: System, e: Event)
    requires Invariant(s) && AllFlow(s) && Enabled(s, e)
    ensures AllFlow(Next(s, e))
  {
    var r := Next(s, e);
    StepKeeps(s, e);
    forall n | n in r.links
      ensures Flows(r.tables, n, r.links[n])
    {
      if e.NodeWorks? && e.n == n {
        WorkFlows(s.tables, n, s.links[n], e.ok);
      } else {
        EventLeaves(s, e, n);
        AssignedGrows(s, e, n);
        assert r.links[n].up ==> Agrees(r.tables, n, r.links[n]);
      }
    }
  }

  lemma {:induction false} AlwaysFlows(es: seq<Event>)
    ensures Exec(es).Some? ==> AllFlow(Exec(es).value)
  {
    if es != [] && Exec(es).Some? {
      AlwaysFlows(Init(es));
      Always(Init(es));
      StepFlows(Exec(Init(es)).value, Last(es));
    }
  }

  /** No node ever loses a peer: in every reachable state each peer it made is in its map
      once, or was closed once.  The server never has a live peer added again. */
  lemma NodesLoseNoPeer(es: seq<Event>, n: NodeId)
    requires Exec(es).Some? && n in Exec(es).value.links
    ensures Once(Exec(es).value.links[n].node) && NoneLost(Exec(es).value.links[n].node)
  {
    AlwaysFlows(es);
  }

  // ---- what follows ----

  /** The two parties agree: for a node whose socket is open, the queued commands applied
      to the node's map give the server's list for that node without the peers whose
      `fail` is on its way. */
  lemma Agreement(es: seq<Event>, n: NodeId)
    requires Exec(es).Some? && n in Exec(es).value.links && Exec(es).value.links[n].up
    ensures var s := Exec(es).value;
            var k := s.links[n];
            Apply(k.inbox, k.node.peers.Keys) == Elements(s.tables.List(n)) - Fails(k.outbox)
  {
    Always(es);
    var k := Exec(es).value.links[n];
    ApplyMinus(k.inbox, k.known, k.seen, k.failed);
  }

  /** With nothing on its way in either direction the two views are the same set. */
  lemma QuietAgreement(es: seq<Event>, n: NodeId)
    requires Exec(es).Some? && n in Exec(es).value.links && Exec(es).value.links[n].up
    requires Exec(es).value.links[n].inbox == [] && Exec(es).value.links[n].outbox == []
    ensures var s := Exec(es).value;
            s.links[n].node.peers.Keys == Elements(s.tables.List(n)) && Distinct(s.tables.List(n))
  {
    Agreement(es, n);
    Always(es);
  }

  /** No negotiation message is orphaned: when an offer or a candidate is next in the
      queue of a node, its peer is assigned to that node, its add has been handled and its
      remove has not, and the node hands it, exactly if creating the peer succeeded, to the
      very peer that this add created, which has not been closed.  This includes what was
      sent before the socket failed. */
  lemma NotOrphaned(es: seq<Event>, n: NodeId, ok: bool)
    requires Exec(es).Some? && n in Exec(es).value.links
    requires var k := Exec(es).value.links[n];
             k.inbox != [] && (k.inbox[0].Offer? || k.inbox[0].Candidate?)
    ensures var s := Exec(es).value;
            var k := s.links[n];
            var p := k.inbox[0].id;
            var handed := ServerNode.Step(k.node, k.inbox[0], ok).handed;
            && p in Assigned(s.tables, n) && p in k.known
            && (handed.Some? <==> p !in k.failed)
            && (handed.Some? ==> handed.value.peer !in k.node.closed)
            && (handed.Some? ==> exists i | 0 <= i < |k.done| ::
                  ServerNode.LastAddedAt(k.done, p, i) && handed == Some(Handed(Created(k.done[..i]), k.inbox[0])))
  {
    AlwaysFlows(es);
    var k := Exec(es).value.links[n];
    SeenGrows(k.inbox, k.seen);
    HandedToLivePeer(k.done, k.inbox[0], ok);
  }

  lemma {:induction false} SeenGrows(inbox: seq<Cmd>, seen: set<PeerId>)
    ensures seen <= ApplySeen(inbox, seen)
  {
    if inbox != [] {
      SeenGrows(inbox[1..], SeenAfter(inbox[0], seen));
    }
  }

  /** And it gets there: what a registered peer with an open socket sends is queued for
      the node it is assigned to, behind everything already sent, and for no other. */
  lemma OfferIsQueued(es: seq<Event>, p: PeerId, cmd: Cmd)
    requires Exec(es).Some? && Enabled(Exec(es).value, PeerNegotiates(p, cmd))
    requires Exec(es).value.tables.objs[p].status.Open? && Exec(es).value.tables.objs[p].node.Some?
    ensures var s := Exec(es).value;
            var n := s.tables.objs[p].node.value;
            && n in s.links
            && Next(s, PeerNegotiates(p, cmd)).links
               == if s.links[n].up then s.links[n := s.links[n].(inbox := s.links[n].inbox + [cmd])] else s.links
  {
    Always(es);
    var s := Exec(es).value;
    var effect := ToNode(s.tables.objs[p].node.value, cmd);
    assert Init([effect]) == [] && DeliverAll(s.links, []) == s.links;
  }

  /** Looking up the node of a registered peer that is not reported closed fails exactly
      when that node has closed, and never for a peer whose socket is open. */
  lemma NegotiateThrowsIff(es: seq<Event>, p: PeerId, cmd: Cmd)
    requires Exec(es).Some? && Enabled(Exec(es).value, PeerNegotiates(p, cmd))
    requires Exec(es).value.tables.objs[p].node.Some?
    ensures var t := Exec(es).value.tables;
            && (Negotiate(t, p, cmd) == None <==> t.objs[p].node.value !in t.nodes)
            && (Negotiate(t, p, cmd) == None ==> t.objs[p].status.Closing?)
  {
    Always(es);
  }

  /** It does fail: the node closes, and before the close of its peer is reported an
      offer of that peer is read. */
  lemma NegotiateCanThrow()
    ensures exists es, p, cmd ::
              && Exec(es).Some? && Enabled(Exec(es).value, PeerNegotiates(p, cmd))
              && Exec(es).value.tables.objs[p].node.Some?
              && Negotiate(Exec(es).value.tables, p, cmd) == None
  {
    var e1, e2, e3, e4 := NodeConnects("n", true), PeerConnects("p", true), PeerRegisters("p"), NodeCloses("n");
    var s1 := ExecStep([], START, e1);
    var s2 := ExecStep([] + [e1], s1, e2);
    var s3 := ExecStep([] + [e1] + [e2], s2, e3);
    DeliverLeaves(s2.links, Regist(s2.tables, "p").1);
    var s4 := ExecStep([] + [e1] + [e2] + [e3], s3, e4);
    assert s3.tables.objs["p"] == PeerState(Open, Some("n")) && s3.tables.nodes == ["n"];
    var cmd := Offer("p", "");
    assert Enabled(s4, PeerNegotiates("p", cmd)) && Negotiate(s4.tables, "p", cmd) == None;
  }

  lemma ExecStep(es: seq<Event>, s: System, e: Event) returns (r: System)
    requires Exec(es) == Some(s) && Enabled(s, e)
    ensures r == Next(s, e) && Exec(es + [e]) == Some(r)
  {
    r := Next(s, e);
    InitLast(es, e);
  }

  /** In every reachable state only the first node in insertion order can have a list of
      peers; a listed peer is assigned to it, not reported closed and still in the table
      of peers, and it is listed once. */
  lemma NodeIndex(es: seq<Event>, n: NodeId)
    requires Exec(es).Some? && n in Exec(es).value.tables.lists
    ensures var t := Exec(es).value.tables;
            && t.nodes != [] && n == t.nodes[0]
            && Distinct(t.lists[n])
            && forall p | p in t.lists[n] :: p in t.objs && p in t.peers && t.objs[p].node == Some(n) && !t.objs[p].status.Closed?
  {
    Always(es);
    var t := Exec(es).value.tables;
    forall p | p in t.lists[n]
      ensures p in t.objs && p in t.peers && t.objs[p].node == Some(n) && !t.objs[p].status.Closed?
    {
      assert p in Elements(t.lists[n]);
    }
  }

  /** A node that is not among the nodes any more never comes back, so no peer is ever
      assigned to it again. */
  lemma {:induction false} ClosedNodeStaysOut(es: seq<Event>, more: seq<Event>, n: NodeId)
    requires Exec(es).Some? && n in Exec(es).value.links && n !in Exec(es).value.tables.nodes
    requires Exec(es + more).Some?
    ensures var s := Exec(es + more).value;
            && n in s.links && n !in s.tables.nodes
            && Assigned(s.tables, n) == Assigned(Exec(es).value.tables, n)
  {
    if more == [] {
      assert es + more == es;
    } else {
      assert Init(es + more) == es + Init(more);
      ClosedNodeStaysOut(es, Init(more), n);
      Always(es + Init(more));
      StaysOut(Exec(es + Init(more)).value, Last(more), n);
    }
  }

  lemma StaysOut(s: System, e: Event, n: NodeId)
    requires Invariant(s) && Enabled(s, e) && n in s.links && n !in s.tables.nodes
    ensures n in Next(s, e).links && n !in Next(s, e).tables.nodes
    ensures Assigned(Next(s, e).tables, n) == Assigned(s.tables, n)
  {
    match e {
      case NodeCloses(m) => CloseNodeTables(s.tables, m);
      case ServerReads(m) =>
        if s.links[m].outbox[0].AddRes? {
          ResultTables(s.tables, m, s.links[m].outbox[0].id, s.links[m].outbox[0].success);
        }
      case PeerLeaves(p) => LeaveTables(s.tables, p);
      case PeerRegisters(p) => DeliverLeaves(s.links, Regist(s.tables, p).1);
      case PeerCloses(p) =>
        CloseTables(s.tables, p);
        DeliverLeaves(s.links, ClosePeer(s.tables, p).1);
      case PeerNegotiates(p, cmd) =>
        if Negotiate(s.tables, p, cmd).Some? {
          DeliverLeaves(s.links, [Negotiate(s.tables, p, cmd).value]);
        }
      case _ =>
    }
  }
}
