/** RTCWebSocketClient: the ring of messages to send, consumed one callback late, and the
    assembly of received fragments (section 5.4 of RFC 6455).  The ring itself and the
    sockets are libwebsockets; the result of each lws_write is a parameter. */
module WebSocketClient {
  import opened Std

  type Msg = seq<Byte>

  // ---- sending ----

  /** `ring` holds the messages that have not been consumed, oldest first. */
  datatype Sender = Sender(ring: seq<Msg>, consumePending: bool)

  datatype Op = Send(msg: Msg) | Writeable(result: int)

  const TWO_TO_64 := 0x1_0000_0000_0000_0000

  /** `len < pmsg->_len` compares an int32 with a size_t, so a negative result is taken
      for a huge one. */
  predicate CountsAsWritten(result: int, size: nat) {
    (if result < 0 then result + TWO_TO_64 else result) >= size
  }

  /** The message a writable callback offers to the socket. */
  function Consume(s: Sender): Sender {
    if s.consumePending then Sender(if s.ring == [] then [] else s.ring[1..], false) else s
  }

  function Step(s: Sender, op: Op, slots: nat): Sender {
    match op
    case Send(msg) => if |s.ring| < slots then s.(ring := s.ring + [msg]) else s
    case Writeable(result) =>
      var c := Consume(s);
      if c.ring == [] then c else c.(consumePending := CountsAsWritten(result, |c.ring[0]|))
  }

  /** A run: the state, the messages that were accepted, those whose write took all their
      bytes, and how many writes counted as complete without being so. */
  datatype History = History(sender: Sender, accepted: seq<Msg>, complete: seq<Msg>, miscounted: nat)

  const EMPTY := History(Sender([], false), [], [], 0)

  function Record(h: History, op: Op, slots: nat): History {
    var t := Step(h.sender, op, slots);
    match op
    case Send(msg) =>
      if |h.sender.ring| < slots then h.(sender := t, accepted := h.accepted + [msg]) else h
    case Writeable(result) =>
      if t.ring == [] then h.(sender := t)
      else if result >= |t.ring[0]| then h.(sender := t, complete := h.complete + [t.ring[0]])
      else if CountsAsWritten(result, |t.ring[0]|) then h.(sender := t, miscounted := h.miscounted + 1)
      else h.(sender := t)
  }

  function Run(ops: seq<Op>, slots: nat): History {
    if ops == [] then EMPTY else Record(Run(Init(ops), slots), Last(ops), slots)
  }

  /** The messages behind the tail, and the one whose write has completed. */
  function Retired(h: History): int {
    |h.accepted| - |h.sender.ring| + (if h.sender.consumePending then 1 else 0)
  }

  predicate Fifo(h: History) {
    && |h.sender.ring| <= |h.accepted|
    && h.sender.ring == h.accepted[|h.accepted| - |h.sender.ring|..]
    && (h.sender.consumePending ==> h.sender.ring != [])
    && |h.complete| + h.miscounted == Retired(h)
    && (h.miscounted == 0 ==> h.complete == h.accepted[..Retired(h)])
  }

  lemma SendKeeps(h: History, msg: Msg, slots: nat)
    requires Fifo(h)
    ensures Fifo(Record(h, Send(msg), slots))
  {
    if |h.sender.ring| < slots {
      assert (h.accepted + [msg])[..Retired(h)] == h.accepted[..Retired(h)];
    }
  }

  /** The state after the consumption that opens a callback; what is retired is the same. */
  lemma ConsumeKeeps(h: History)
    requires Fifo(h)
    ensures Fifo(h.(sender := Consume(h.sender))) && Retired(h.(sender := Consume(h.sender))) == Retired(h)
  {
  }

  lemma WriteKeeps(h: History, result: int, slots: nat)
    requires Fifo(h)
    ensures Fifo(Record(h, Writeable(result), slots))
  {
    ConsumeKeeps(h);
    var c := h.(sender := Consume(h.sender));
    if c.sender.ring != [] {
      OfferKeeps(c, result);
    }
  }

  /** The write of the first message, when nothing is left to consume. */
  lemma OfferKeeps(c: History, result: int)
    requires Fifo(c) && !c.sender.consumePending && c.sender.ring != []
    ensures var flagged := c.(sender := c.sender.(consumePending := true));
            && Fifo(flagged.(complete := c.complete + [c.sender.ring[0]]))
            && Fifo(flagged.(miscounted := c.miscounted + 1))
  {
    var at := Retired(c);
    assert c.accepted[at] == c.sender.ring[0];
    assert c.accepted[..at + 1] == c.accepted[..at] + [c.sender.ring[0]];
  }

  lemma {:induction false} RingIsTheEnd(ops: seq<Op>, slots: nat)
    ensures Fifo(Run(ops, slots))
  {
    if ops != [] {
      RingIsTheEnd(Init(ops), slots);
      match Last(ops) {
        case Send(msg) => SendKeeps(Run(Init(ops), slots), msg, slots);
        case Writeable(result) => WriteKeeps(Run(Init(ops), slots), result, slots);
      }
    }
  }

  // ---- what is accepted ----

  /** Every message that was given to Send. */
  function Sends(ops: seq<Op>): seq<Msg> {
    if ops == [] then [] else Sends(Init(ops)) + (if Last(ops).Send? then [Last(ops).msg] else [])
  }

  /** The ring never holds more than it has room for; what is accepted is some of what was
      sent, in order; and nothing is refused until as many messages as there are slots have
      been accepted. */
  lemma {:induction false} RefusedWhenFull(ops: seq<Op>, slots: nat)
    ensures var h := Run(ops, slots);
            && |h.sender.ring| <= slots
            && Subsequence(h.accepted, Sends(ops)) && |h.accepted| <= |Sends(ops)|
            && (|Sends(ops)| <= slots ==> h.accepted == Sends(ops))
  {
    if ops != [] {
      RefusedWhenFull(Init(ops), slots);
      RingIsTheEnd(Init(ops), slots);
      AcceptStep(Run(Init(ops), slots), Last(ops), slots, Sends(Init(ops)), Sends(ops));
    }
  }

  lemma AcceptStep(h: History, op: Op, slots: nat, before: seq<Msg>, after: seq<Msg>)
    requires Fifo(h) && |h.sender.ring| <= slots
    requires Subsequence(h.accepted, before) && |h.accepted| <= |before|
    requires after == before + (if op.Send? then [op.msg] else [])
    ensures var g := Record(h, op, slots);
            && |g.sender.ring| <= slots
            && Subsequence(g.accepted, after) && |g.accepted| <= |after|
            && (h.accepted == before && |after| <= slots ==> g.accepted == after)
  {
    match op {
      case Send(msg) =>
        InitLast(h.accepted, msg);
        InitLast(before, msg);
      case Writeable(_) =>
        assert after == before;
    }
  }

  /** A message is refused exactly when every slot holds a message that was accepted and
      has not been taken off the ring. */
  lemma AcceptedIffRoom(ops: seq<Op>, msg: Msg, slots: nat)
    ensures var h, g := Run(ops, slots), Run(ops + [Send(msg)], slots);
            var taken := Retired(h) - (if h.sender.consumePending then 1 else 0);
            g.accepted == if |h.accepted| - taken == slots then h.accepted else h.accepted + [msg]
  {
    InitLast(ops, Send(msg));
    RingIsTheEnd(ops, slots);
    RefusedWhenFull(ops, slots);
  }

  // ---- which results of lws_write break the queue ----

  /** What the types of the source allow: lws_write gives an int32, and no string reaches
      2^63 bytes. */
  predicate Representable(op: Op) {
    match op
    case Send(msg) => |msg| < 0x8000_0000_0000_0000
    case Writeable(result) => -0x8000_0000 <= result < 0x8000_0000
  }

  predicate AllRepresentable(ops: seq<Op>) {
    forall i | 0 <= i < |ops| :: Representable(ops[i])
  }

  /** The i-th event offers a message to lws_write, which reports an error. */
  predicate ErrorAt(ops: seq<Op>, slots: nat, i: nat)
    requires i < |ops|
  {
    ops[i].Writeable? && ops[i].result < 0 && Consume(Run(ops[..i], slots).sender).ring != []
  }

  predicate NoErrors(ops: seq<Op>, slots: nat) {
    forall i | 0 <= i < |ops| :: !ErrorAt(ops, slots, i)
  }

  lemma NoErrorsStep(ops: seq<Op>, slots: nat)
    requires ops != []
    ensures NoErrors(ops, slots) <==> NoErrors(Init(ops), slots) && !ErrorAt(ops, slots, |ops| - 1)
  {
    forall i | 0 <= i < |ops| - 1
      ensures ErrorAt(ops, slots, i) <==> ErrorAt(Init(ops), slots, i)
    {
      assert ops[..i] == Init(ops)[..i];
    }
  }

  predicate AllShort(ring: seq<Msg>) {
    forall m | m in ring :: |m| < 0x8000_0000_0000_0000
  }

  lemma {:induction false} RingIsShort(ops: seq<Op>, slots: nat)
    requires AllRepresentable(ops)
    ensures AllShort(Run(ops, slots).sender.ring)
  {
    if ops != [] {
      RingIsShort(Init(ops), slots);
      assert Representable(Last(ops));
    }
  }

  /** One event raises the tally exactly when it is such an error: for an int32 and a
      size below 2^63, the mixed comparison is wrong for the negative results only. */
  lemma MiscountStep(h: History, op: Op, slots: nat)
    requires AllShort(h.sender.ring) && Representable(op)
    ensures Record(h, op, slots).miscounted ==
            h.miscounted + if op.Writeable? && op.result < 0 && Consume(h.sender).ring != [] then 1 else 0
  {
    if op.Writeable? && Consume(h.sender).ring != [] {
      assert Consume(h.sender).ring[0] in h.sender.ring;
    }
  }

  lemma {:induction false} MiscountedIffError(ops: seq<Op>, slots: nat)
    requires AllRepresentable(ops)
    ensures Run(ops, slots).miscounted == 0 <==> NoErrors(ops, slots)
  {
    if ops != [] {
      MiscountedIffError(Init(ops), slots);
      RingIsShort(Init(ops), slots);
      MiscountStep(Run(Init(ops), slots), Last(ops), slots);
      NoErrorsStep(ops, slots);
      assert ops[..|ops| - 1] == Init(ops);
    }
  }

  /** Over every interleaving of sends and writable callbacks the ring is the end of what
      was accepted.  If no write of an offered message reports an error, the messages
      written in full are the consumed ones and the one whose flag is up, in order and
      each once: nothing is consumed before it is written, and nothing is written in full
      twice. */
  lemma SendIsFifo(ops: seq<Op>, slots: nat)
    requires AllRepresentable(ops)
    ensures var h := Run(ops, slots);
            && 0 <= Retired(h) <= |h.accepted| && |h.sender.ring| <= |h.accepted|
            && h.sender.ring == h.accepted[|h.accepted| - |h.sender.ring|..]
            && (NoErrors(ops, slots) ==> h.complete == h.accepted[..Retired(h)])
  {
    RingIsTheEnd(ops, slots);
    MiscountedIffError(ops, slots);
  }

  /** The exact condition: what was retired was written in full if and only if no write
      of an offered message reported an error. */
  lemma RetiredIsWrittenIff(ops: seq<Op>, slots: nat)
    requires AllRepresentable(ops)
    ensures var h := Run(ops, slots);
            0 <= Retired(h) <= |h.accepted| &&
            (h.complete == h.accepted[..Retired(h)] <==> NoErrors(ops, slots))
  {
    RingIsTheEnd(ops, slots);
    MiscountedIffError(ops, slots);
  }

  /** Otherwise a message is lost: an error is taken for a complete write, and the next
      callback consumes what was never sent. */
  lemma ErrorLosesMessage(m: Msg)
    requires 0 < |m| < 0x8000_0000_0000_0000
    ensures var ops := [Send(m), Writeable(-1), Writeable(0)];
            var h := Run(ops, 1);
            && AllRepresentable(ops) && ErrorAt(ops, 1, 1)
            && h.accepted == [m] && h.sender.ring == [] && h.complete == []
  {
    var ops := [Send(m), Writeable(-1), Writeable(0)];
    assert Init(ops) == [Send(m), Writeable(-1)] && Init(Init(ops)) == [Send(m)] && Init([Send(m)]) == [];
    assert Run([Send(m)], 1) == History(Sender([m], false), [m], [], 0);
    assert Run(Init(ops), 1) == History(Sender([m], true), [m], [], 1);
    assert ops[..1] == [Send(m)];
  }

  /** What the socket has not yet taken in full, by the ring's own account. */
  function Unwritten(s: Sender): seq<Msg>
    requires s.consumePending ==> s.ring != []
  {
    if s.consumePending then s.ring[1..] else s.ring
  }

  /** No message is lost or sent twice while the ring lives, so what its destruction drops
      is what was never written: again exactly when no write reported an error. */
  lemma ConservedIff(ops: seq<Op>, slots: nat)
    requires AllRepresentable(ops)
    ensures var h := Run(ops, slots);
            && (h.sender.consumePending ==> h.sender.ring != [])
            && (h.complete + Unwritten(h.sender) == h.accepted <==> NoErrors(ops, slots))
  {
    RingIsTheEnd(ops, slots);
    MiscountedIffError(ops, slots);
    RetiredAndUnwritten(Run(ops, slots));
  }

  lemma RetiredAndUnwritten(h: History)
    requires Fifo(h)
    ensures h.complete + Unwritten(h.sender) == h.accepted <==> h.miscounted == 0
  {
    var done, left := h.accepted[..Retired(h)], h.accepted[Retired(h)..];
    assert Unwritten(h.sender) == left && done + left == h.accepted;
    if h.complete + left == h.accepted {
      assert |h.complete| == |done|;
    }
  }

  // ---- receiving ----

  /** A receive callback; `last` says that nothing of the message remains. */
  datatype Piece = Piece(data: Msg, last: bool)

  datatype Receiver = Receiver(recvMsg: Msg, delivered: seq<Msg>)

  /** A callback without data is ignored, also when it is the last of a message. */
  function Take(r: Receiver, p: Piece): Receiver {
    if p.data == [] then r
    else if !p.last then r.(recvMsg := r.recvMsg + p.data)
    else Receiver([], r.delivered + [r.recvMsg + p.data])
  }

  function TakeAll(r: Receiver, ps: seq<Piece>): Receiver {
    if ps == [] then r else Take(TakeAll(r, Init(ps)), Last(ps))
  }

  /** Fragments of a message that is not finished. */
  function Open(cut: seq<Msg>): seq<Piece> {
    seq(|cut|, i requires 0 <= i < |cut| => Piece(cut[i], false))
  }

  /** A message cut into one or more fragments. */
  function Fragments(cut: seq<Msg>): seq<Piece>
    requires cut != []
  {
    Open(Init(cut)) + [Piece(Last(cut), true)]
  }

  function Flatten(cut: seq<Msg>): Msg {
    if cut == [] then [] else Flatten(Init(cut)) + Last(cut)
  }

  predicate Cuts(cuts: seq<seq<Msg>>) {
    forall i | 0 <= i < |cuts| :: cuts[i] != []
  }

  function Stream(cuts: seq<seq<Msg>>): seq<Piece>
    requires Cuts(cuts)
  {
    if cuts == [] then [] else Stream(Init(cuts)) + Fragments(Last(cuts))
  }

  function Originals(cuts: seq<seq<Msg>>): seq<Msg> {
    seq(|cuts|, i requires 0 <= i < |cuts| => Flatten(cuts[i]))
  }

  lemma {:induction false} TakeConcat(r: Receiver, ps: seq<Piece>, qs: seq<Piece>)
    ensures TakeAll(r, ps + qs) == TakeAll(TakeAll(r, ps), qs)
  {
    if qs == [] {
      assert ps + qs == ps;
    } else {
      TakeConcat(r, ps, Init(qs));
      assert Init(ps + qs) == ps + Init(qs);
    }
  }

  lemma {:induction false} TakeOpen(r: Receiver, cut: seq<Msg>)
    ensures TakeAll(r, Open(cut)) == r.(recvMsg := r.recvMsg + Flatten(cut))
  {
    if cut != [] {
      TakeOpen(r, Init(cut));
      assert Open(cut) == Open(Init(cut)) + [Piece(Last(cut), false)];
      InitLast(Open(Init(cut)), Piece(Last(cut), false));
    }
  }

  lemma TakeFragments(r: Receiver, cut: seq<Msg>)
    requires cut != []
    ensures TakeAll(r, Fragments(cut)) ==
            if Last(cut) == [] then r.(recvMsg := r.recvMsg + Flatten(cut))
            else Receiver([], r.delivered + [r.recvMsg + Flatten(cut)])
  {
    var before := Open(Init(cut));
    TakeOpen(r, Init(cut));
    InitLast(before, Piece(Last(cut), true));
    assert Fragments(cut) == before + [Piece(Last(cut), true)];
    Regroup(r.recvMsg, Flatten(Init(cut)), Last(cut));
  }

  predicate EndsWithData(cut: seq<Msg>) {
    cut != [] && Last(cut) != []
  }

  /** However the messages are cut, if the last fragment of each carries data, they are
      delivered as they were sent, in order; and while the next one arrives, _recv_msg is
      the part of it received so far. */
  lemma {:induction false} Reassembled(cuts: seq<seq<Msg>>, part: seq<Msg>)
    requires Cuts(cuts) && forall i | 0 <= i < |cuts| :: EndsWithData(cuts[i])
    ensures TakeAll(Receiver([], []), Stream(cuts) + Open(part)) == Receiver(Flatten(part), Originals(cuts))
  {
    TakeConcat(Receiver([], []), Stream(cuts), Open(part));
    if cuts != [] {
      Reassembled(Init(cuts), []);
      assert Stream(Init(cuts)) + Open([]) == Stream(Init(cuts));
      TakeConcat(Receiver([], []), Stream(Init(cuts)), Fragments(Last(cuts)));
      TakeFragments(Receiver([], Originals(Init(cuts))), Last(cuts));
      assert [] + Flatten(Last(cuts)) == Flatten(Last(cuts));
      assert Originals(cuts) == Originals(Init(cuts)) + [Flatten(Last(cuts))];
    }
    TakeOpen(TakeAll(Receiver([], []), Stream(cuts)), part);
    assert [] + Flatten(part) == Flatten(part);
  }

  function CountEnds(cuts: seq<seq<Msg>>): (k: nat)
    ensures k <= |cuts|
    ensures k == |cuts| <==> forall i | 0 <= i < |cuts| :: EndsWithData(cuts[i])
  {
    if cuts == [] then 0 else CountEnds(Init(cuts)) + (if EndsWithData(Last(cuts)) then 1 else 0)
  }

  lemma {:induction false} DeliveredCount(cuts: seq<seq<Msg>>)
    requires Cuts(cuts)
    ensures |TakeAll(Receiver([], []), Stream(cuts)).delivered| == CountEnds(cuts)
  {
    if cuts != [] {
      DeliveredCount(Init(cuts));
      TakeConcat(Receiver([], []), Stream(Init(cuts)), Fragments(Last(cuts)));
      TakeFragments(TakeAll(Receiver([], []), Stream(Init(cuts))), Last(cuts));
    }
  }

  /** The exact condition: the delivered messages are the originals if and only if every
      message ends with a fragment that carries data.  (RFC 6455 allows an empty final
      fragment, and an empty message; neither is delivered.) */
  lemma {:induction false} ReassembledIff(cuts: seq<seq<Msg>>)
    requires Cuts(cuts)
    ensures TakeAll(Receiver([], []), Stream(cuts)).delivered == Originals(cuts)
       <==> forall i | 0 <= i < |cuts| :: EndsWithData(cuts[i])
  {
    DeliveredCount(cuts);
    if forall i | 0 <= i < |cuts| :: EndsWithData(cuts[i]) {
      Reassembled(cuts, []);
      assert Stream(cuts) + Open([]) == Stream(cuts);
    }
  }

  /** An empty final fragment glues its message to the next one. */
  lemma EmptyFinalGlues(a: Msg, b: Msg)
    requires a != [] && b != []
    ensures TakeAll(Receiver([], []), Stream([[a, []], [b]])) == Receiver([], [a + b])
  {
    var r := Receiver([], []);
    assert Init([[a, []], [b]]) == [[a, []]] && Init([[a, []]]) == [];
    assert Stream([[a, []]]) == Fragments([a, []]);
    TakeConcat(r, Fragments([a, []]), Fragments([b]));
    assert Init([a, []]) == [a] && Init([a]) == [] && Init([b]) == [];
    assert Flatten([a]) == [] + a == a && Flatten([b]) == [] + b == b;
    assert Flatten([a, []]) == Flatten([a]) + [] == a;
    TakeFragments(r, [a, []]);
    TakeFragments(Receiver(a, []), [b]);
    assert [] + a == a;
  }

  // ---- the object ----

  class RtcWebSocketClient {
    /** The number of free elements of an empty ring. */
    const slots: nat
    var ring: seq<Msg>
    var writeConsumePending: bool
    var recvMsg: Msg
    /** The ring has not been destroyed. */
    var live: bool

    function State(): Sender
      reads `ring, `writeConsumePending
    {
      Sender(ring, writeConsumePending)
    }

    constructor (slots: nat)
      ensures State() == Sender([], false) && recvMsg == [] && this.slots == slots && live
    {
      this.slots, ring, writeConsumePending, recvMsg, live := slots, [], false, [], true;
    }

    /** The send of a message: the insertion, and on success a request for a callback. */
    method SendMsg(msg: Msg) returns (ok: bool)
      requires live
      modifies `ring
      ensures State() == Step(old(State()), Send(msg), slots) && ok == (|old(ring)| < slots)
    {
      if |ring| >= slots {
        return false;
      }
      ring := ring + [msg];
      return true;
    }

    /** `result` is what lws_write returns for the message offered. */
    method OnWriteable(result: int) returns (offered: Option<Msg>)
      requires live
      modifies `ring, `writeConsumePending
      ensures State() == Step(old(State()), Writeable(result), slots)
      ensures offered == if ring == [] then None else Some(ring[0])
    {
      if writeConsumePending {
        if ring != [] {
          ring := ring[1..];
        }
        writeConsumePending := false;
      }
      if ring == [] {
        return None;
      }
      offered := Some(ring[0]);
      if (if result < 0 then result + TWO_TO_64 else result) < |ring[0]| {
        return;
      }
      writeConsumePending := true;
    }

    method OnReceive(data: Msg, remaining: nat, isFinalFragment: bool) returns (delivered: seq<Msg>)
      modifies `recvMsg
      ensures Receiver(recvMsg, delivered) == Take(Receiver(old(recvMsg), []), Piece(data, remaining == 0 && isFinalFragment))
    {
      delivered := [];
      if data == [] {
        return;
      }
      recvMsg := recvMsg + data;
      if remaining > 0 || !isFinalFragment {
        return;
      }
      delivered := [recvMsg];
      recvMsg := [];
    }

    /** The destructor's part: all that waits is freed, and the ring with it.  After the
        events `ops`, these are the accepted messages that were not written, and the one
        that was but is not consumed yet. */
    method ResetRing(ghost ops: seq<Op>) returns (freed: seq<Msg>)
      requires if live then State() == Run(ops, slots).sender && AllRepresentable(ops) else ring == []
      modifies `ring, `live
      ensures !live && ring == []
      ensures !old(live) ==> freed == []
      ensures old(live) && NoErrors(ops, slots) ==>
                var h := Run(ops, slots);
                && |freed| >= (if writeConsumePending then 1 else 0)
                && h.complete + freed[if writeConsumePending then 1 else 0..] == h.accepted
    {
      if !live {
        freed := [];
        return;
      }
      ConservedIff(ops, slots);
      freed := ring;
      ring, live := [], false;
    }
  }
}
