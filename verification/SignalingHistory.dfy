/** What the events of a run say about the state of the signaling system, without its
    tables: which nodes there are and in which order, how a registration is answered, and
    which peers are open. */
module SignalingHistory {
  import opened Std
  import opened ServerNode
  import opened SignalingServer
  import opened SignalingProtocol

  // ---- nodes ----

  ghost predicate ConnectedAt(es: seq<Event>, n: NodeId, i: nat) {
    i < |es| && es[i] == NodeConnects(n, true)
  }

  ghost predicate StaysFrom(es: seq<Event>, n: NodeId, i: nat) {
    ConnectedAt(es, n, i) && forall j | i < j < |es| :: es[j] != NodeCloses(n)
  }

  /** The node has connected and has not closed since. */
  ghost predicate StillThere(es: seq<Event>, n: NodeId) {
    exists i: nat :: StaysFrom(es, n, i)
  }

  /** The ids stand in the order in which the nodes connected. */
  ghost predicate InConnectionOrder(es: seq<Event>, nodes: seq<NodeId>) {
    forall a, b | 0 <= a < b < |nodes| :: Before(es, nodes[a], nodes[b])
  }

  ghost predicate Before(es: seq<Event>, m: NodeId, n: NodeId) {
    forall i: nat, j: nat | ConnectedAt(es, m, i) && ConnectedAt(es, n, j) :: i < j
  }

  lemma ConnectedStep(es: seq<Event>, e: Event, n: NodeId, i: nat)
    ensures ConnectedAt(es + [e], n, i) <==> ConnectedAt(es, n, i) || (i == |es| && e == NodeConnects(n, true))
  {
    if i < |es| {
      assert (es + [e])[i] == es[i];
    }
  }

  lemma StaysStep(es: seq<Event>, e: Event, n: NodeId, i: nat)
    ensures StaysFrom(es + [e], n, i) <==>
            (StaysFrom(es, n, i) && e != NodeCloses(n)) || (i == |es| && e == NodeConnects(n, true))
  {
    var ds := es + [e];
    ConnectedStep(es, e, n, i);
    assert ds[|es|] == e && forall j | 0 <= j < |es| :: ds[j] == es[j];
  }

  lemma StillThereStep(es: seq<Event>, e: Event, n: NodeId)
    ensures StillThere(es + [e], n) <==> (StillThere(es, n) && e != NodeCloses(n)) || e == NodeConnects(n, true)
  {
    if StillThere(es + [e], n) {
      var i: nat :| StaysFrom(es + [e], n, i);
      StaysStep(es, e, n, i);
    }
    if StillThere(es, n) && e != NodeCloses(n) {
      var i: nat :| StaysFrom(es, n, i);
      StaysStep(es, e, n, i);
    }
    StaysStep(es, e, n, |es|);
  }

  /** Every node that ever connected has its link. */
  lemma {:induction false} ConnectedHasLink(es: seq<Event>, n: NodeId, i: nat)
    requires Exec(es).Some? && ConnectedAt(es, n, i)
    ensures n in Exec(es).value.links
  {
    var s, e := Exec(Init(es)).value, Last(es);
    if i < |es| - 1 {
      assert Init(es)[i] == es[i];
      ConnectedHasLink(Init(es), n, i);
      LinksStay(s, e, n);
    }
  }

  lemma LinksStay(s: System, e: Event, n: NodeId)
    requires Enabled(s, e) && n in s.links
    ensures n in Next(s, e).links
  {
    if !(e.NodeWorks? && e.n == n) {
      EventLeaves(s, e, n);
    }
  }

  lemma NodesStep(s: System, e: Event)
    requires Enabled(s, e)
    ensures Next(s, e).tables.nodes ==
            if e.NodeConnects? && e.open then s.tables.nodes + [e.n]
            else if e.NodeCloses? then RemoveFirst(s.tables.nodes, e.n)
            else s.tables.nodes
  {
  }

  lemma OrderOfRest(es: seq<Event>, nodes: seq<NodeId>, n: NodeId)
    requires InConnectionOrder(es, nodes)
    ensures InConnectionOrder(es, RemoveFirst(nodes, n))
  {
    var k := FirstIndex(nodes, n);
    var rest := RemoveFirst(nodes, n);
    Spliced(nodes, n, k);
    forall a, b | 0 <= a < b < |rest|
      ensures Before(es, rest[a], rest[b])
    {
      var c := InWhole(nodes, rest, k, a);
      var d := InWhole(nodes, rest, k, b);
      assert Before(es, nodes[c], nodes[d]);
    }
  }

  lemma InWhole<T>(s: seq<T>, rest: seq<T>, k: nat, a: nat) returns (c: nat)
    requires k <= |s| && rest == (if k < |s| then s[..k] + s[k + 1..] else s) && a < |rest|
    ensures c == (if a < k then a else a + 1) && c < |s| && rest[a] == s[c]
  {
    c := if a < k then a else a + 1;
  }

  lemma FirstIndex<T>(s: seq<T>, x: T) returns (k: nat)
    ensures k <= |s| && (forall j | 0 <= j < k :: s[j] != x) && (k < |s| ==> s[k] == x)
  {
    k := 0;
    while k < |s| && s[k] != x
      invariant k <= |s| && forall j | 0 <= j < k :: s[j] != x
    {
      k := k + 1;
    }
  }

  ghost predicate NodesFit(es: seq<Event>, nodes: seq<NodeId>) {
    && (forall n :: n in nodes <==> StillThere(es, n))
    && InConnectionOrder(es, nodes)
  }

  lemma OrderStep(es: seq<Event>, e: Event)
    requires Exec(es).Some? && Enabled(Exec(es).value, e) && InConnectionOrder(es, Exec(es).value.tables.nodes)
    ensures InConnectionOrder(es + [e], Next(Exec(es).value, e).tables.nodes)
  {
    var s := Exec(es).value;
    var nodes, after := s.tables.nodes, Next(s, e).tables.nodes;
    NodesStep(s, e);
    Always(es);
    assert forall n | n in nodes :: n in s.links;
    if e.NodeCloses? {
      OrderOfRest(es, nodes, e.n);
    }
    forall a, b | 0 <= a < b < |after|
      ensures Before(es + [e], after[a], after[b])
    {
      var added := e.NodeConnects? && e.open && b == |nodes|;
      assert after[a] in nodes || e.NodeCloses?;
      if e.NodeCloses? {
        assert Before(es, after[a], after[b]);
      } else if !added {
        assert Before(es, nodes[a], nodes[b]);
      }
      BeforeStep(es, e, after[a], after[b]);
    }
  }

  /** A node stays before another, and before one that connects now. */
  lemma BeforeStep(es: seq<Event>, e: Event, m: NodeId, n: NodeId)
    requires Exec(es).Some? && Enabled(Exec(es).value, e)
    requires e != NodeConnects(m, true)
    requires Before(es, m, n) || e == NodeConnects(n, true)
    ensures Before(es + [e], m, n)
  {
    forall i: nat, j: nat | ConnectedAt(es + [e], m, i) && ConnectedAt(es + [e], n, j)
      ensures i < j
    {
      ConnectedStep(es, e, m, i);
      ConnectedStep(es, e, n, j);
      if e == NodeConnects(n, true) && j < |es| {
        ConnectedHasLink(es, n, j);
      }
    }
  }

  lemma MembersStep(es: seq<Event>, e: Event, n: NodeId)
    requires Exec(es).Some? && Enabled(Exec(es).value, e)
    requires n in Exec(es).value.tables.nodes <==> StillThere(es, n)
    ensures n in Next(Exec(es).value, e).tables.nodes <==> StillThere(es + [e], n)
  {
    var s := Exec(es).value;
    NodesStep(s, e);
    StillThereStep(es, e, n);
    if e.NodeCloses? {
      Always(es);
      RemovedFirst(s.tables.nodes, e.n);
    }
  }

  /** In every reachable state the server's nodes are those that have connected and have not
      closed since, in the order in which they connected. */
  lemma {:induction false} NodesInOrder(es: seq<Event>)
    requires Exec(es).Some?
    ensures NodesFit(es, Exec(es).value.tables.nodes)
  {
    if es != [] {
      var before, e := Init(es), Last(es);
      assert es == before + [e];
      NodesInOrder(before);
      OrderStep(before, e);
      forall n
        ensures n in Exec(es).value.tables.nodes <==> StillThere(es, n)
      {
        MembersStep(before, e, n);
      }
    }
  }

  // ---- registrations ----

  /** What a list of effects tells callers. */
  function Answers(effects: seq<Effect>): seq<Effect> {
    if effects == [] then []
    else Answers(Init(effects)) + (if Last(effects).RegistRes? then [Last(effects)] else [])
  }

  ghost predicate Earliest(es: seq<Event>, n: NodeId) {
    && StillThere(es, n)
    && forall m | StillThere(es, m) && m != n :: Before(es, n, m)
  }

  /** A registration is answered once, to that peer: with a success exactly if some node is
      there, and then the peer is assigned to the one that connected first; with a failure
      otherwise, and then it is assigned to none. */
  lemma RegistrationAnswered(es: seq<Event>, p: PeerId)
    requires Exec(es).Some? && Enabled(Exec(es).value, PeerRegisters(p))
    ensures var s := Exec(es).value;
            var (t, effects) := Regist(s.tables, p);
            && Next(s, PeerRegisters(p)).tables == t
            && Answers(effects) == [RegistRes(p, exists n :: StillThere(es, n))]
            && (if exists n :: StillThere(es, n) then t.objs[p].node.Some? && Earliest(es, t.objs[p].node.value)
                else t.objs[p].node == None)
  {
    var t := Exec(es).value.tables;
    NodesInOrder(es);
    assert (exists n :: StillThere(es, n)) <==> t.nodes != [] by {
      if t.nodes != [] {
        assert t.nodes[0] in t.nodes;
      }
    }
    RegistAnswers(t, p);
    if t.nodes != [] {
      FirstIsEarliest(es, t.nodes);
    }
  }

  lemma RegistAnswers(t: Tables, p: PeerId)
    requires p in t.objs
    ensures Answers(Regist(t, p).1) == [RegistRes(p, t.nodes != [])]
  {
    if t.nodes == [] {
      OnlyAnswer([], RegistRes(p, false));
    } else {
      OnlyAnswer([ToNode(t.nodes[0], AddPeer(p))], RegistRes(p, true));
    }
  }

  lemma OnlyAnswer(commands: seq<Effect>, told: Effect)
    requires commands == [] || (|commands| == 1 && commands[0].ToNode?)
    requires told.RegistRes?
    ensures Answers(commands + [told]) == [told]
  {
    InitLast(commands, told);
    if commands != [] {
      assert Init(commands) == [];
    }
  }

  lemma FirstIsEarliest(es: seq<Event>, nodes: seq<NodeId>)
    requires NodesFit(es, nodes) && nodes != []
    ensures Earliest(es, nodes[0])
  {
    forall m | StillThere(es, m) && m != nodes[0]
      ensures Before(es, nodes[0], m)
    {
      var b :| 0 <= b < |nodes| && nodes[b] == m;
    }
    assert nodes[0] in nodes;
  }

  // ---- peers ----

  /** The event takes the peer's open socket down: it leaves or is closed, the node it is
      assigned to closes, or the server reads that its node failed to create it. */
  ghost predicate TakesDown(s: System, e: Event, p: PeerId)
    requires Enabled(s, e)
  {
    || e == PeerLeaves(p)
    || e == PeerCloses(p)
    || (e.NodeCloses? && p in s.tables.objs && s.tables.objs[p].node == Some(e.n))
    || (e.ServerReads? && s.links[e.n].outbox[0] == AddRes(p, false))
  }

  ghost predicate DownAt(es: seq<Event>, p: PeerId, i: nat) {
    && i < |es| && Exec(es[..i]).Some? && Enabled(Exec(es[..i]).value, es[i])
    && p in Exec(es[..i]).value.tables.objs
    && TakesDown(Exec(es[..i]).value, es[i], p)
  }

  ghost predicate EverDown(es: seq<Event>, p: PeerId) {
    exists i: nat :: DownAt(es, p, i)
  }

  lemma DownStep(es: seq<Event>, e: Event, p: PeerId, i: nat)
    ensures DownAt(es + [e], p, i) <==> if i < |es| then DownAt(es, p, i) else i == |es| && DownAt(es + [e], p, |es|)
  {
    if i < |es| {
      assert (es + [e])[..i] == es[..i] && (es + [e])[i] == es[i];
    }
  }

  lemma EverDownStep(es: seq<Event>, e: Event, p: PeerId)
    requires Exec(es).Some? && Enabled(Exec(es).value, e)
    ensures EverDown(es + [e], p) <==>
            EverDown(es, p) || (p in Exec(es).value.tables.objs && TakesDown(Exec(es).value, e, p))
  {
    assert (es + [e])[..|es|] == es;
    if EverDown(es + [e], p) {
      var i: nat :| DownAt(es + [e], p, i);
      DownStep(es, e, p, i);
    }
    if EverDown(es, p) {
      var i: nat :| DownAt(es, p, i);
      DownStep(es, e, p, i);
    }
    if p in Exec(es).value.tables.objs && TakesDown(Exec(es).value, e, p) {
      assert DownAt(es + [e], p, |es|);
    }
  }

  /** The state of a peer before an event tells its state after. */
  lemma PeerStep(s: System, e: Event, p: PeerId)
    requires Invariant(s) && Enabled(s, e)
    ensures var t, u := s.tables, Next(s, e).tables;
            && (p in t.objs ==> p in u.objs)
            && (p in t.objs && t.objs[p].status.Open? && !TakesDown(s, e, p) ==> u.objs[p].status.Open?)
            && (p in t.objs && (!t.objs[p].status.Open? || TakesDown(s, e, p)) ==> !u.objs[p].status.Open?)
  {
    var t := s.tables;
    if e.NodeCloses? && e.n in t.lists {
      assert p in t.lists[e.n] ==> p in Elements(t.lists[e.n]) && p in Registered(t, e.n);
    }
  }

  lemma TableStep(s: System, e: Event, p: PeerId)
    requires Invariant(s) && Enabled(s, e)
    ensures var t, u := s.tables, Next(s, e).tables;
            && (p in u.objs <==> p in t.objs || (e.PeerConnects? && e.p == p))
            && (p in t.objs ==> (u.objs[p].status.Closed? <==> t.objs[p].status.Closed? || e == PeerCloses(p)))
            && (p in u.peers <==> (p in t.peers && e != PeerCloses(p)) || e == PeerConnects(p, true))
  {
  }

  /** In every reachable state: a peer is open exactly if its socket was open when it
      connected and nothing has taken it down; the server's table holds the peers that
      connected open and whose close has not been reported. */
  lemma {:induction false} PeersFromEvents(es: seq<Event>, p: PeerId)
    requires Exec(es).Some?
    ensures var t := Exec(es).value.tables;
            && (p in t.objs <==> PeerConnects(p, true) in es || PeerConnects(p, false) in es)
            && (p in t.objs && t.objs[p].status.Open? <==> PeerConnects(p, true) in es && !EverDown(es, p))
            && (p in t.objs && t.objs[p].status.Closed? <==> PeerCloses(p) in es)
            && (p in t.peers <==> PeerConnects(p, true) in es && PeerCloses(p) !in es)
  {
    if es != [] {
      var before, e := Init(es), Last(es);
      assert es == before + [e];
      PeersFromEvents(before, p);
      Always(before);
      PeerStep(Exec(before).value, e, p);
      TableStep(Exec(before).value, e, p);
      EverDownStep(before, e, p);
      assert forall x :: x in es <==> x in before || x == e;
      if p !in Exec(before).value.tables.objs {
        NotDownBefore(before, p);
      }
    }
  }

  /** Nothing takes down a peer that has not connected. */
  lemma {:induction false} NotDownBefore(es: seq<Event>, p: PeerId)
    requires Exec(es).Some? && p !in Exec(es).value.tables.objs
    ensures !EverDown(es, p)
  {
    if es != [] {
      var before, e := Init(es), Last(es);
      assert es == before + [e];
      Always(before);
      PeerStep(Exec(before).value, e, p);
      TableStep(Exec(before).value, e, p);
      NotDownBefore(before, p);
      EverDownStep(before, e, p);
    }
  }
}
