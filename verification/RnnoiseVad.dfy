/** RTCRNNoiseVad: the speech state machine behind `pushPCM`, as a function on its
    state, and what every run of it keeps.  The object itself is in RnnoiseFrontEnd. */
module RnnoiseVad {
  import opened Std
  import opened Speech
  import opened VadInterface
  import opened ChunkPacker

  /** The passive push that ends an utterance: the first with a count above the halved
      threshold. */
  const HANGOVER: nat := NON_SPEECH_THRESHOLD / 2 + 1

  /** One push; `send` is the detector's _is_send_stt. */
  function Step(v: Vad, p: Push, send: bool): (Vad, seq<Chunk>) {
    match p
    case Active(pcm) =>
      var packer := if v.isSpeech then v.packer else v.packer.(isStart := true);
      var (q, out) := if send then Add(packer, pcm) else (packer, []);
      (Vad(true, 0, q), out)
    case Passive =>
      if !v.isSpeech then (v, [])
      else if v.passives + 1 > NON_SPEECH_THRESHOLD / 2 then
        var (q, out) := if send then Finish(v.packer) else (v.packer, []);
        (Vad(false, v.passives + 1, q), out)
      else (v.(passives := v.passives + 1), [])
  }

  /** The state after a history of pushes, and all the chunks sent on the way. */
  function Run(ps: seq<Push>, send: bool): (Vad, seq<Chunk>) {
    if ps == [] then (INITIAL_VAD, [])
    else
      var (v, cs) := Run(Init(ps), send);
      var (w, out) := Step(v, Last(ps), send);
      (w, cs + out)
  }

  /** The chunks the last push of a history sends. */
  function Emitted(ps: seq<Push>): seq<Chunk>
    requires ps != []
  {
    Step(Run(Init(ps), true).0, Last(ps), true).1
  }

  lemma RunStep(ps: seq<Push>, p: Push, send: bool)
    ensures var (v, cs) := Run(ps, send);
            var (w, out) := Step(v, p, send);
            Run(ps + [p], send) == (w, cs + out)
  {
    InitLast(ps, p);
  }

  // ---- control: the hangover ----

  /** The flag and the counter say what the history says: in speech exactly when an
      active push has come since the last utterance end, and then the counter is the
      number of passive pushes since the last active one. */
  predicate Tracks(v: Vad, ps: seq<Push>) {
    && (v.isSpeech <==> InSpeech(ps, HANGOVER))
    && (v.isSpeech ==> v.passives == Trailing(ps) < HANGOVER)
  }

  lemma TracksStep(v: Vad, ps: seq<Push>, p: Push, send: bool)
    requires Tracks(v, ps)
    ensures Tracks(Step(v, p, send).0, ps + [p])
    ensures p.Passive? ==> (EndsNow(ps + [p], HANGOVER) <==> v.isSpeech && v.passives == 100)
  {
    match p {
      case Active(pcm) => AfterActive(ps, pcm, HANGOVER);
      case Passive => AfterPassive(ps, HANGOVER);
    }
  }

  lemma {:induction false} CounterIsExact(ps: seq<Push>, send: bool)
    ensures Tracks(Run(ps, send).0, ps)
  {
    if ps != [] {
      CounterIsExact(Init(ps), send);
      TracksStep(Run(Init(ps), send).0, Init(ps), Last(ps), send);
      assert ps == Init(ps) + [Last(ps)];
    }
  }

  /** An `end` is sent at a push exactly when it is the 101st passive one in a row
      after an active one. */
  lemma EndExactly(ps: seq<Push>)
    requires ps != []
    ensures (exists c :: c in Emitted(ps) && c.kind.End?) <==> EndsNow(ps, 101)
  {
    CounterIsExact(Init(ps), true);
    EndOfStep(Run(Init(ps), true).0, Last(ps));
    EndsNowIff(Run(Init(ps), true).0, Init(ps), Last(ps), ps);
  }

  lemma EndsNowIff(v: Vad, ps: seq<Push>, p: Push, qs: seq<Push>)
    requires Tracks(v, ps) && qs == ps + [p]
    ensures EndsNow(qs, HANGOVER) <==> p.Passive? && v.isSpeech && v.passives >= 100
  {
    match p {
      case Active(_) => assert Last(qs).Active?;
      case Passive => TracksStep(v, ps, p, true);
    }
  }

  lemma EndOfStep(v: Vad, p: Push)
    ensures (exists c :: c in Step(v, p, true).1 && c.kind.End?) <==> p.Passive? && v.isSpeech && v.passives >= 100
  {
    if p.Passive? && v.isSpeech && v.passives >= 100 {
      assert Chunk(End, []) in Step(v, p, true).1;
    }
  }

  /** With sending off nothing is sent and no buffer is begun. */
  lemma {:induction false} SendingOff(ps: seq<Push>)
    ensures Run(ps, false).1 == [] && Run(ps, false).0.packer.pending == None
  {
    if ps != [] {
      SendingOff(Init(ps));
    }
  }

  // ---- data: nothing is lost, added or reordered ----

  /** Between two `end`s the detector sent exactly the PCM of one utterance, and what
      it has sent since the last `end`, followed by what is still pending, is the open
      utterance. */
  predicate Carries(v: Vad, cs: seq<Chunk>, ps: seq<Push>) {
    && ClosedPayloads(cs) == Completed(ps, HANGOVER)
    && OpenPayload(cs) + v.packer.Pending() == Current(ps, HANGOVER)
    && (!v.isSpeech ==> v.packer.pending == None)
  }

  lemma CarriesStep(v: Vad, cs: seq<Chunk>, ps: seq<Push>, p: Push)
    requires Tracks(v, ps) && Carries(v, cs, ps)
    ensures Carries(Step(v, p, true).0, cs + Step(v, p, true).1, ps + [p])
  {
    match p {
      case Active(pcm) => CarriesActive(v, cs, ps, pcm);
      case Passive => CarriesPassive(v, cs, ps);
    }
  }

  lemma CarriesActive(v: Vad, cs: seq<Chunk>, ps: seq<Push>, pcm: seq<Byte>)
    requires Carries(v, cs, ps)
    ensures Carries(Step(v, Active(pcm), true).0, cs + Step(v, Active(pcm), true).1, ps + [Active(pcm)])
  {
    AfterActive(ps, pcm, HANGOVER);
    AddConserves(if v.isSpeech then v.packer else v.packer.(isStart := true), pcm, cs);
    Regroup(OpenPayload(cs), v.packer.Pending(), pcm);
  }

  lemma CarriesPassive(v: Vad, cs: seq<Chunk>, ps: seq<Push>)
    requires Tracks(v, ps) && Carries(v, cs, ps)
    ensures Carries(Step(v, Passive, true).0, cs + Step(v, Passive, true).1, ps + [Passive])
  {
    var qs := ps + [Passive];
    var (w, out) := Step(v, Passive, true);
    EndsNowIff(v, ps, Passive, qs);
    PassiveUtterances(ps, qs);
    if EndsNow(qs, HANGOVER) {
      FinishCloses(v.packer, cs);
      CarriesEnd(v, cs, ps, w, cs + out, qs);
    } else {
      assert cs + out == cs;
      CarriesQuiet(v, cs, ps, w, qs);
    }
  }

  lemma PassiveUtterances(ps: seq<Push>, qs: seq<Push>)
    requires qs == ps + [Passive]
    ensures if EndsNow(qs, HANGOVER)
            then Completed(qs, HANGOVER) == Completed(ps, HANGOVER) + [Current(ps, HANGOVER)] && Current(qs, HANGOVER) == []
            else Completed(qs, HANGOVER) == Completed(ps, HANGOVER) && Current(qs, HANGOVER) == Current(ps, HANGOVER)
  {
    AfterPassive(ps, HANGOVER);
  }

  lemma CarriesEnd(v: Vad, cs: seq<Chunk>, ps: seq<Push>, w: Vad, ds: seq<Chunk>, qs: seq<Push>)
    requires Carries(v, cs, ps) && w.packer.pending == None
    requires Completed(qs, HANGOVER) == Completed(ps, HANGOVER) + [Current(ps, HANGOVER)] && Current(qs, HANGOVER) == []
    requires ClosedPayloads(ds) == ClosedPayloads(cs) + [OpenPayload(cs) + v.packer.Pending()] && OpenPayload(ds) == []
    ensures Carries(w, ds, qs)
  {
  }

  lemma CarriesQuiet(v: Vad, cs: seq<Chunk>, ps: seq<Push>, w: Vad, qs: seq<Push>)
    requires Carries(v, cs, ps) && w.packer == v.packer && w.isSpeech == v.isSpeech
    requires Completed(qs, HANGOVER) == Completed(ps, HANGOVER) && Current(qs, HANGOVER) == Current(ps, HANGOVER)
    ensures Carries(w, cs, qs)
  {
  }

  lemma ConservesNext(ps: seq<Push>, p: Push, qs: seq<Push>)
    requires Carries(Run(ps, true).0, Run(ps, true).1, ps) && qs == ps + [p]
    ensures Carries(Run(qs, true).0, Run(qs, true).1, qs)
  {
    CounterIsExact(ps, true);
    CarriesStep(Run(ps, true).0, Run(ps, true).1, ps, p);
    RunStep(ps, p, true);
  }

  /** Every run, whatever the sizes of its pushes. */
  lemma {:induction false} Conserves(ps: seq<Push>)
    ensures Carries(Run(ps, true).0, Run(ps, true).1, ps)
  {
    if ps == [] {
      assert Run(ps, true) == (INITIAL_VAD, []);
    } else {
      Conserves(Init(ps));
      assert ps == Init(ps) + [Last(ps)];
      ConservesNext(Init(ps), Last(ps), ps);
    }
  }

  /** In every run the payloads sent so far, followed by the pending bytes, are all the
      active PCM so far, in order. */
  lemma AllPcmIsSent(ps: seq<Push>)
    ensures var (v, cs) := Run(ps, true);
            Payloads(cs) + v.packer.Pending() == ActivePcm(ps)
  {
    var (v, cs) := Run(ps, true);
    Conserves(ps);
    PayloadsSplit(cs);
    UtterancesCover(ps, HANGOVER);
    Regroup(Concat(ClosedPayloads(cs)), OpenPayload(cs), v.packer.Pending());
  }

  // ---- labels ----

  /** The flags and the chunks sent so far fit together: a `start` is due exactly when
      the stream of chunks is empty or stands at an `end` while speech goes on. */
  predicate InPhase(v: Vad, cs: seq<Chunk>) {
    && (v.packer.isStart ==> v.isSpeech && v.packer.pending.Some?)
    && (!v.isSpeech ==> v.packer.pending.None?)
    && ((cs == [] || Last(cs).kind.End?) <==> (!v.isSpeech || v.packer.isStart))
  }

  lemma InPhaseStep(v: Vad, cs: seq<Chunk>, p: Push)
    requires InPhase(v, cs) && Grammar(cs)
    ensures InPhase(Step(v, p, true).0, cs + Step(v, p, true).1) && Grammar(cs + Step(v, p, true).1)
  {
    GrammarAppend(cs, Step(v, p, true).1);
  }

  /** In every run the labels form a prefix of (start speeching* end)*. */
  lemma {:induction false} LabelGrammar(ps: seq<Push>)
    ensures Grammar(Run(ps, true).1) && InPhase(Run(ps, true).0, Run(ps, true).1)
  {
    if ps != [] {
      LabelGrammar(Init(ps));
      InPhaseStep(Run(Init(ps), true).0, Run(Init(ps), true).1, Last(ps));
    }
  }

  // ---- sizes ----

  /** Every active push of the history carries `n` blocks of 10 ms. */
  predicate Uniform(ps: seq<Push>, n: nat) {
    forall i | 0 <= i < |ps| && ps[i].Active? :: |ps[i].pcm| == BLOCK_BYTES * n
  }

  predicate Divides6(n: nat) {
    n == 1 || n == 2 || n == 3 || n == 6
  }

  predicate WholePushes(v: Vad, n: nat)
    requires n > 0
  {
    && |v.packer.Pending()| % (BLOCK_BYTES * n) == 0
    && |v.packer.Pending()| < MAX_PENDING
    && (v.packer.pending.Some? ==> v.packer.pending.value != [])
  }

  lemma OneMorePush(size: nat, n: nat)
    requires Divides6(n) && size < MAX_PENDING && size % (BLOCK_BYTES * n) == 0
    ensures (size + BLOCK_BYTES * n) % (BLOCK_BYTES * n) == 0 && size + BLOCK_BYTES * n <= MAX_PENDING
    ensures size % BLOCK_BYTES == 0 && (size + BLOCK_BYTES * n) % BLOCK_BYTES == 0
  {
    NextMultiple(size, n);
    WholeMultiple(size, n);
    WholeMultiple(size + BLOCK_BYTES * n, n);
  }

  lemma NextMultiple(size: nat, n: nat)
    requires Divides6(n) && size < MAX_PENDING && size % (BLOCK_BYTES * n) == 0
    ensures (size + BLOCK_BYTES * n) % (BLOCK_BYTES * n) == 0 && size + BLOCK_BYTES * n <= MAX_PENDING
  {
    if n == 1 {
    } else if n == 2 {
    } else if n == 3 {
    } else {
    }
  }

  lemma WholeMultiple(size: nat, n: nat)
    requires n > 0 && size % (BLOCK_BYTES * n) == 0
    ensures size % BLOCK_BYTES == 0
  {
    var q := size / (BLOCK_BYTES * n);
    assert size == q * (BLOCK_BYTES * n) == (q * n) * BLOCK_BYTES;
  }

  lemma BoundedStep(v: Vad, p: Push, n: nat)
    requires Divides6(n) && (p.Active? ==> |p.pcm| == BLOCK_BYTES * n)
    requires WholePushes(v, n)
    ensures WholePushes(Step(v, p, true).0, n) && WellSized(Step(v, p, true).1)
    ensures p.Active? ==> v.packer.Fits(p.pcm)
  {
    match p {
      case Active(pcm) => BoundedActive(v, pcm, n);
      case Passive => BoundedPassive(v, n);
    }
  }

  lemma BoundedActive(v: Vad, pcm: seq<Byte>, n: nat)
    requires Divides6(n) && |pcm| == BLOCK_BYTES * n && WholePushes(v, n)
    ensures WholePushes(Step(v, Active(pcm), true).0, n) && WellSized(Step(v, Active(pcm), true).1)
    ensures v.packer.Fits(pcm)
  {
    OneMorePush(|v.packer.Pending()|, n);
    AddSized(if v.isSpeech then v.packer else v.packer.(isStart := true), pcm);
  }

  lemma BoundedPassive(v: Vad, n: nat)
    requires Divides6(n) && WholePushes(v, n)
    ensures WholePushes(Step(v, Passive, true).0, n) && WellSized(Step(v, Passive, true).1)
  {
    OneMorePush(|v.packer.Pending()|, n);
    FinishSized(v.packer);
    assert 0 % (BLOCK_BYTES * n) == 0;
  }

  /** With a fixed number of blocks that divides 6, what is pending after a push is a
      whole number of pushes and less than a full buffer, and every chunk is full
      except the last of an utterance. */
  lemma {:induction false} Bounded(ps: seq<Push>, n: nat)
    requires Divides6(n) && Uniform(ps, n)
    ensures WholePushes(Run(ps, true).0, n)
    ensures WellSized(Run(ps, true).1)
  {
    if ps != [] {
      Bounded(Init(ps), n);
      BoundedStep(Run(Init(ps), true).0, Last(ps), n);
      WellSizedAppend(Run(Init(ps), true).1, Emitted(ps));
    }
  }

  /** No copy of the run leaves the pending buffer. */
  predicate NeverOverruns(ps: seq<Push>) {
    forall i | 0 <= i < |ps| && ps[i].Active? :: Run(ps[..i], true).0.packer.Fits(ps[i].pcm)
  }

  lemma DivisorIsSafe(ps: seq<Push>, n: nat)
    requires Divides6(n) && Uniform(ps, n)
    ensures NeverOverruns(ps)
  {
    forall i | 0 <= i < |ps| && ps[i].Active?
      ensures Run(ps[..i], true).0.packer.Fits(ps[i].pcm)
    {
      Bounded(ps[..i], n);
      BoundedStep(Run(ps[..i], true).0, ps[i], n);
    }
  }

  /** The copies of every run with `n` blocks a push stay inside the buffer if and only
      if `n` divides 6: otherwise the second push at the latest steps over the size the
      flush waits for. */
  lemma SafeIffDivides6(n: nat)
    requires n > 0
    ensures (forall ps | Uniform(ps, n) :: NeverOverruns(ps)) <==> Divides6(n)
  {
    if Divides6(n) {
      forall ps: seq<Push> | Uniform(ps, n)
        ensures NeverOverruns(ps)
      {
        DivisorIsSafe(ps, n);
      }
    } else {
      TwoPushesOverrun(n);
    }
  }

  lemma TwoPushesOverrun(n: nat)
    requires n > 0 && !Divides6(n)
    ensures exists ps :: Uniform(ps, n) && !NeverOverruns(ps)
  {
    var p := Active(seq(BLOCK_BYTES * n, _ => 0));
    var ps := [p, p];
    RunStep([], p, true);
    assert ps[..1] == [] + [p] && ps[..0] == [];
    assert |ps[1].pcm| == BLOCK_BYTES * n;
    assert Uniform(ps, n);
    if n < 6 {
      assert |Run(ps[..1], true).0.packer.Pending()| == BLOCK_BYTES * n;
      assert !Run(ps[..1], true).0.packer.Fits(ps[1].pcm);
    } else {
      assert !Run(ps[..0], true).0.packer.Fits(ps[0].pcm);
    }
    assert !NeverOverruns(ps);
  }
}
