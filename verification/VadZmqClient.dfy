/** RTCVADZmqClient and its ProcessorThread: the lifecycle, and the queue between the
    detectors and the socket. */
module VadZmqClient {
  import opened Std
  import opened Framing

  datatype Phase = Uninit | Ready | Started | Failed

  // ---- the two objects as values ----

  /** `open` is false when readyToRun failed, and then the loop never runs. */
  datatype Worker = Worker(queue: seq<Voice>, open: bool)

  /** `sent` is everything ever written to a socket. */
  datatype Client = Client(phase: Phase, worker: Option<Worker>, sent: seq<Voice>)

  /** What can happen, in any order: a Start whose thread does or does not run and whose
      socket does or does not open, a Stop, a SendVADPCM, one turn of the thread. */
  datatype Op = Start(runs: bool, opens: bool) | Stop | Send(voice: Voice) | Turn

  const INITIAL := Client(Uninit, None, [])

  function Step(c: Client, op: Op): Client {
    match op
    case Start(runs, opens) =>
      if c.phase.Started? then c
      else if runs then Client(Started, Some(Worker([], opens)), c.sent)
      else Client(Failed, None, c.sent)
    case Stop =>
      if !c.phase.Started? then c else Client(Ready, None, c.sent)
    case Send(voice) =>
      if c.phase.Started? && c.worker.Some? then c.(worker := Some(c.worker.value.(queue := c.worker.value.queue + [voice])))
      else c
    case Turn =>
      // A wait ends with something queued or with the stop flag, and Stop waits for the
      // thread to end.
      if c.worker.Some? && c.worker.value.open && c.worker.value.queue != [] then
        var w := c.worker.value;
        Client(c.phase, Some(w.(queue := w.queue[1..])), c.sent + [w.queue[0]])
      else c
  }

  function Run(ops: seq<Op>): Client {
    if ops == [] then INITIAL else Step(Run(Init(ops)), Last(ops))
  }

  // ---- what the history says ----

  /** The last start that took effect has not been stopped. */
  predicate Up(ops: seq<Op>) {
    ops != [] &&
    match Last(ops)
    case Start(runs, _) => runs || Up(Init(ops))
    case Stop => false
    case Send(_) => Up(Init(ops))
    case Turn => Up(Init(ops))
  }

  /** The voices given to SendVADPCM since the client came up. */
  function Session(ops: seq<Op>): seq<Voice> {
    if !Up(ops) || !Up(Init(ops)) then []
    else Session(Init(ops)) + (if Last(ops).Send? then [Last(ops).voice] else [])
  }

  /** The voices given to SendVADPCM while the client was up. */
  function Accepted(ops: seq<Op>): seq<Voice> {
    if ops == [] then []
    else Accepted(Init(ops)) + (if Last(ops).Send? && Up(ops) then [Last(ops).voice] else [])
  }

  /** What was sent before the client last came up. */
  function Before(ops: seq<Op>): seq<Voice> {
    if ops == [] then []
    else if Up(ops) && Up(Init(ops)) then Before(Init(ops))
    else Run(Init(ops)).sent
  }

  /** Over every interleaving: the client is started exactly when its thread exists and
      exactly when the history says so, and in the session what was sent, followed by
      what is queued, is what was given, in order. */
  lemma {:induction false} QueueIsFifo(ops: seq<Op>)
    ensures var c := Run(ops);
            && (c.phase.Started? <==> c.worker.Some?) && (c.phase.Started? <==> Up(ops))
            && (if Up(ops) then c.sent + c.worker.value.queue == Before(ops) + Session(ops)
                else c.sent == Before(ops))
  {
    if ops != [] {
      QueueIsFifo(Init(ops));
      var c, d := Run(Init(ops)), Run(ops);
      match Last(ops) {
        case Start(_, _) =>
        case Stop =>
        case Send(voice) =>
          if Up(ops) {
            assert d.sent + d.worker.value.queue == c.sent + c.worker.value.queue + [voice];
            assert Before(ops) + Session(ops) == Before(Init(ops)) + Session(Init(ops)) + [voice];
          }
        case Turn =>
          if Up(ops) {
            assert d.sent + d.worker.value.queue == c.sent + c.worker.value.queue;
          }
      }
    }
  }

  lemma {:induction false} SubsequencePrefix<T>(a: seq<T>, tail: seq<T>, b: seq<T>)
    requires Subsequence(a + tail, b)
    ensures Subsequence(a, b)
    decreases |b|
  {
    if tail == [] {
      assert a + tail == a;
    } else if Subsequence(a + tail, Init(b)) {
      SubsequencePrefix(a, tail, Init(b));
    } else {
      assert Init(a + tail) == a + Init(tail);
      SubsequencePrefix(a, Init(tail), Init(b));
    }
  }

  /** A start while down, or a stop while up. */
  predicate EffectiveAt(ops: seq<Op>, i: nat) {
    && i < |ops|
    && ((ops[i].Start? && !Up(ops[..i])) || (ops[i].Stop? && Up(ops[..i])))
  }

  predicate LastEffectiveAt(ops: seq<Op>, i: nat) {
    EffectiveAt(ops, i) && forall j | i < j < |ops| :: !EffectiveAt(ops, j)
  }

  /** What an effective start or stop makes of the client. */
  predicate Leaves(op: Op, c: Client) {
    match op
    case Start(true, opens) => c.phase == Started && c.worker.Some? && c.worker.value.open == opens
    case Start(false, _) => c.phase == Failed && c.worker == None
    case _ => c.phase == Ready && c.worker == None
  }

  /** The state is what the last start or stop that took effect made of it, and so is the
      socket. */
  lemma {:induction false} PhaseFromHistory(ops: seq<Op>)
    ensures forall i | 0 <= i < |ops| && LastEffectiveAt(ops, i) :: Leaves(ops[i], Run(ops))
    ensures (forall i | 0 <= i < |ops| :: !EffectiveAt(ops, i)) ==> Run(ops).phase == Uninit && Run(ops).worker == None
  {
    if ops != [] {
      var before := Init(ops);
      PhaseFromHistory(before);
      QueueIsFifo(before);
      EffectiveStep(ops);
      if EffectiveAt(ops, |ops| - 1) {
        assert Leaves(Last(ops), Run(ops));
      } else {
        PhaseStays(Run(before), Last(ops));
      }
    }
  }

  lemma EffectiveStep(ops: seq<Op>)
    requires ops != []
    ensures EffectiveAt(ops, |ops| - 1) <==> if Up(Init(ops)) then Last(ops).Stop? else Last(ops).Start?
    ensures forall i | 0 <= i < |ops| - 1 :: EffectiveAt(ops, i) <==> EffectiveAt(Init(ops), i)
  {
    assert ops[..|ops| - 1] == Init(ops);
    forall i | 0 <= i < |ops| - 1
      ensures EffectiveAt(ops, i) <==> EffectiveAt(Init(ops), i)
    {
      assert ops[..i] == Init(ops)[..i];
    }
  }

  lemma PhaseStays(c: Client, op: Op)
    requires c.phase.Started? <==> c.worker.Some?
    requires (op.Start? ==> c.phase.Started?) && (op.Stop? ==> !c.phase.Started?)
    ensures var d := Step(c, op);
            && d.phase == c.phase && (d.worker.None? <==> c.worker.None?)
            && (d.worker.Some? ==> d.worker.value.open == c.worker.value.open)
  {
  }

  /** What was sent, followed by what is queued. */
  function Held(c: Client): seq<Voice> {
    c.sent + (if c.worker.Some? then c.worker.value.queue else [])
  }

  lemma HeldStep(c: Client, op: Op)
    requires c.phase.Started? <==> c.worker.Some?
    ensures Held(Step(c, op)) == match op
              case Start(_, _) => Held(c)
              case Stop => c.sent
              case Send(voice) => if c.phase.Started? then Held(c) + [voice] else Held(c)
              case Turn => Held(c)
  {
  }

  /** Over every interleaving and any number of restarts, no voice is sent twice, out of
      order, or without having been accepted; a stop only loses what was still queued. */
  lemma {:induction false} SentInOrder(ops: seq<Op>)
    ensures Subsequence(Held(Run(ops)), Accepted(ops)) && Subsequence(Run(ops).sent, Accepted(ops))
  {
    var d := Run(ops);
    if ops != [] {
      SentInOrder(Init(ops));
      QueueIsFifo(Init(ops));
      QueueIsFifo(ops);
      HeldStep(Run(Init(ops)), Last(ops));
      var before := Accepted(Init(ops));
      if Last(ops).Send? && Up(ops) {
        InitLast(Held(Run(Init(ops))), Last(ops).voice);
        InitLast(before, Last(ops).voice);
      } else {
        assert Accepted(ops) == before;
      }
    }
    SubsequencePrefix(d.sent, if d.worker.Some? then d.worker.value.queue else [], Accepted(ops));
  }

  /** And it does get sent: as many turns as voices are queued send them all, if the
      socket is open. */
  lemma TurnsDrain(ops: seq<Op>, turns: nat)
    requires Up(ops) && Run(ops).worker.Some? && Run(ops).worker.value.open
    requires turns >= |Run(ops).worker.value.queue|
    ensures var d := Run(ops + Turns(turns));
            d.sent == Before(ops) + Session(ops) && d.worker == Some(Worker([], true))
  {
    QueueIsFifo(ops);
    TurnsSend(ops, turns);
    var queue := Run(ops).worker.value.queue;
    assert queue[..|queue|] == queue && queue[|queue|..] == [];
  }

  function Turns(k: nat): seq<Op> {
    seq(k, _ => Turn)
  }

  /** The client after k turns that find its socket open. */
  function Turned(c: Client, k: nat): Client
    requires c.worker.Some?
  {
    var queue := c.worker.value.queue;
    var n := if k < |queue| then k else |queue|;
    Client(c.phase, Some(Worker(queue[n..], true)), c.sent + queue[..n])
  }

  lemma {:induction false} TurnsSend(ops: seq<Op>, k: nat)
    requires Run(ops).worker.Some? && Run(ops).worker.value.open
    ensures Run(ops + Turns(k)) == Turned(Run(ops), k)
  {
    if k == 0 {
      assert ops + Turns(0) == ops;
      assert Turned(Run(ops), 0).sent == Run(ops).sent;
    } else {
      TurnsSend(ops, k - 1);
      assert ops + Turns(k) == ops + Turns(k - 1) + [Turn];
      InitLast(ops + Turns(k - 1), Turn);
      TurnStep(Run(ops), k - 1);
    }
  }

  lemma TurnStep(c: Client, k: nat)
    requires c.worker.Some? && c.worker.value.open
    ensures Step(Turned(c, k), Turn) == Turned(c, k + 1)
  {
    var queue := c.worker.value.queue;
    if k < |queue| {
      assert queue[..k + 1] == queue[..k] + [queue[k]];
      assert queue[k..][1..] == queue[k + 1..];
    }
  }

  // ---- the objects ----

  class ProcessorThread {
    var activeVoices: seq<Voice>
    var isStopping: bool
    const hasSocket: bool

    constructor (hasSocket: bool)
      ensures activeVoices == [] && !isStopping && this.hasSocket == hasSocket
    {
      activeVoices, isStopping := [], false;
      this.hasSocket := hasSocket;
    }

    method PushVadPcmBuffer(voice: Voice)
      modifies `activeVoices
      ensures activeVoices == old(activeVoices) + [voice]
    {
      activeVoices := activeVoices + [voice];
    }

    /** One turn after its wait has ended; `parts` is what it writes to the socket. */
    method ThreadLoop() returns (parts: seq<Part>)
      requires activeVoices != [] || isStopping
      requires activeVoices != [] ==> Sendable(activeVoices[0])
      modifies `activeVoices
      ensures if isStopping then activeVoices == old(activeVoices) && parts == []
              else
                && activeVoices == old(activeVoices[1..])
                && parts == if hasSocket then Parts(old(activeVoices[0])) else []
    {
      parts := [];
      if isStopping {
        return;
      }
      var voice := activeVoices[0];
      activeVoices := activeVoices[1..];
      if hasSocket {
        parts := parts + [Part(Encode(voice.id), true)];
        if voice.kind != "end" {
          parts := parts + [Part(Encode(voice.kind), true)];
        } else {
          parts := parts + [Part(Encode(voice.kind), false)];
        }
        if voice.kind != "end" {
          parts := parts + [Part(voice.data, false)];
        }
      }
    }

    method Stop()
      modifies `isStopping
      ensures isStopping
    {
      isStopping := true;
    }
  }

  class ZmqClient {
    var state: Phase
    var thread: ProcessorThread?
    /** Everything the threads have written, message by message. */
    ghost var written: seq<Voice>

    ghost predicate Valid()
      reads this, thread
    {
      && (state.Started? <==> thread != null)
      && (thread != null ==> !thread.isStopping)
    }

    ghost function State(): Client
      reads this, thread
    {
      Client(state, if thread == null then None else Some(Worker(thread.activeVoices, thread.hasSocket)), written)
    }

    constructor ()
      ensures Valid() && State() == INITIAL
    {
      state, thread, written := Uninit, null, [];
    }

    /** `runs` and `opens` are what the system makes of the new thread; the result is
        the status of the reply. */
    method OnStart(runs: bool, opens: bool) returns (ok: bool)
      requires Valid()
      modifies this
      ensures Valid() && State() == Step(old(State()), Start(runs, opens))
      ensures ok <==> state.Started?
    {
      if state == Started {
        return true;
      }
      thread := new ProcessorThread(opens);
      if !runs {
        thread := null;
        state := Failed;
        return false;
      }
      state := Started;
      return true;
    }

    method OnStop() returns (ok: bool)
      requires Valid()
      modifies this, thread
      ensures Valid() && State() == Step(old(State()), Op.Stop)
      ensures ok <==> old(state).Started?
    {
      if state != Started {
        return false;
      }
      if thread != null {
        thread.Stop();
        thread := null;
      }
      state := Ready;
      return true;
    }

    method OnSendVadPcm(voice: Voice)
      requires Valid()
      modifies thread
      ensures Valid() && State() == Step(old(State()), Send(voice))
    {
      if state == Started {
        if thread != null {
          thread.PushVadPcmBuffer(voice);
        }
      }
    }

    /** One turn of the thread that finds something queued. */
    method OnTurn() returns (parts: seq<Part>)
      requires Valid() && thread != null && thread.hasSocket && thread.activeVoices != []
      requires Sendable(thread.activeVoices[0])
      modifies thread, `written
      ensures Valid() && State() == Step(old(State()), Turn)
      ensures written == old(written) + [old(thread.activeVoices[0])] && parts == Parts(Last(written))
    {
      written := written + [thread.activeVoices[0]];
      parts := thread.ThreadLoop();
    }
  }
}
