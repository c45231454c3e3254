/** RTCLegacyVad: one 10 ms frame at a time, driven by the verdicts of an external
    detector.  It differs from RTCRNNoiseVad in the test that opens an utterance: the
    flag `_is_start_vad`, which the first flush clears, instead of `_is_speech`. */
module LegacyVad {
  import opened Std
  import opened Speech
  import opened VadInterface
  import opened ChunkPacker

  const HANGOVER: nat := NON_SPEECH_THRESHOLD + 1

  datatype Verdict = Voice(pcm: seq<Byte>) | Silence | Error

  function Step(v: Vad, verdict: Verdict, send: bool): (Vad, seq<Chunk>) {
    match verdict
    case Voice(pcm) =>
      var begun := if v.packer.isStart then v else Vad(true, v.passives, v.packer.(isStart := true));
      var (q, out) := if send then Add(begun.packer, pcm) else (begun.packer, []);
      (Vad(begun.isSpeech, 0, q), out)
    case Silence =>
      if !v.isSpeech then (v, [])
      else if v.passives + 1 > NON_SPEECH_THRESHOLD then
        var (q, out) := if send then Finish(v.packer) else (v.packer, []);
        (Vad(false, v.passives + 1, q), out)
      else (v.(passives := v.passives + 1), [])
    case Error => (v, [])
  }

  /** What a list of verdicts does to a state, and the chunks it sends. */
  function Feed(v: Vad, vs: seq<Verdict>, send: bool): (Vad, seq<Chunk>) {
    if vs == [] then (v, [])
    else
      var (u, cs) := Feed(v, Init(vs), send);
      var (w, out) := Step(u, Last(vs), send);
      (w, cs + out)
  }

  /** A whole run, with sending on. */
  function Run(vs: seq<Verdict>): (Vad, seq<Chunk>) {
    Feed(INITIAL_VAD, vs, true)
  }

  lemma FeedStep(v: Vad, vs: seq<Verdict>, verdict: Verdict, send: bool)
    ensures var (u, cs) := Feed(v, vs, send);
            var (w, out) := Step(u, verdict, send);
            Feed(v, vs + [verdict], send) == (w, cs + out)
  {
    InitLast(vs, verdict);
  }

  /** Verdicts given in two calls do what they do in one. */
  lemma {:induction false} FeedInTwo(u: Vad, us: seq<Verdict>, vs: seq<Verdict>, send: bool)
    ensures var (v, cs) := Feed(u, us, send);
            var (w, out) := Feed(v, vs, send);
            Feed(u, us + vs, send) == (w, cs + out)
  {
    var (v, cs) := Feed(u, us, send);
    if vs == [] {
      assert us + vs == us && cs + [] == cs;
    } else {
      FeedInTwo(u, us, Init(vs), send);
      assert Init(us + vs) == us + Init(vs);
      var (w, out) := Feed(v, Init(vs), send);
      Regroup(cs, out, Step(w, Last(vs), send).1);
    }
  }

  /** With sending off nothing is sent and the pending buffer stays as it is. */
  lemma {:induction false} SendingOff(v: Vad, vs: seq<Verdict>)
    ensures Feed(v, vs, false).1 == [] && Feed(v, vs, false).0.packer.pending == v.packer.pending
  {
    if vs != [] {
      SendingOff(v, Init(vs));
    }
  }

  /** The history without its error verdicts. */
  function Pushes(vs: seq<Verdict>): seq<Push> {
    if vs == [] then []
    else
      Pushes(Init(vs)) + match Last(vs) {
        case Voice(pcm) => [Active(pcm)]
        case Silence => [Passive]
        case Error => []
      }
  }

  // ---- what every run keeps, for frames of any size ----

  /** The flags, the counter and the chunks agree with the history. */
  predicate Tracks(v: Vad, cs: seq<Chunk>, ps: seq<Push>) {
    && (v.isSpeech <==> InSpeech(ps, HANGOVER))
    && (v.isSpeech ==> v.passives == Trailing(ps) < HANGOVER)
    && (v.packer.isStart <==> v.packer.pending.Some?)
    && (v.packer.isStart ==> v.isSpeech)
    && ClosedPayloads(cs) == Completed(ps, HANGOVER)
    && OpenPayload(cs) + v.packer.Pending() == Current(ps, HANGOVER)
  }

  lemma TracksVoice(v: Vad, cs: seq<Chunk>, ps: seq<Push>, pcm: seq<Byte>)
    requires Tracks(v, cs, ps)
    ensures Tracks(Step(v, Voice(pcm), true).0, cs + Step(v, Voice(pcm), true).1, ps + [Active(pcm)])
  {
    var (w, out) := Step(v, Voice(pcm), true);
    var packer := v.packer.(isStart := true);
    AfterActive(ps, pcm, HANGOVER);
    AddConserves(packer, pcm, cs);
    TracksActive(v, cs, ps, pcm, w, cs + out, ps + [Active(pcm)]);
  }

  lemma TracksActive(v: Vad, cs: seq<Chunk>, ps: seq<Push>, pcm: seq<Byte>, w: Vad, ds: seq<Chunk>, qs: seq<Push>)
    requires Tracks(v, cs, ps)
    requires w.isSpeech && w.passives == 0 && (w.packer.isStart <==> w.packer.pending.Some?)
    requires InSpeech(qs, HANGOVER) && Trailing(qs) == 0 && Completed(qs, HANGOVER) == Completed(ps, HANGOVER)
    requires Current(qs, HANGOVER) == Current(ps, HANGOVER) + pcm
    requires ClosedPayloads(ds) == ClosedPayloads(cs)
    requires OpenPayload(ds) + w.packer.Pending() == OpenPayload(cs) + v.packer.Pending() + pcm
    ensures Tracks(w, ds, qs)
  {
  }

  lemma TracksSilence(v: Vad, cs: seq<Chunk>, ps: seq<Push>)
    requires Tracks(v, cs, ps)
    ensures Tracks(Step(v, Silence, true).0, cs + Step(v, Silence, true).1, ps + [Passive])
  {
    SilenceEndsIff(v, cs, ps);
    AfterPassive(ps, HANGOVER);
    var (w, out) := Step(v, Silence, true);
    if v.isSpeech && v.passives == 200 {
      FinishCloses(v.packer, cs);
      TracksEnd(v, cs, ps, w, cs + out, ps + [Passive]);
    } else {
      assert cs + out == cs;
      TracksQuiet(v, cs, ps, ps + [Passive]);
    }
  }

  lemma SilenceEndsIff(v: Vad, cs: seq<Chunk>, ps: seq<Push>)
    requires Tracks(v, cs, ps)
    ensures EndsNow(ps + [Passive], HANGOVER) <==> v.isSpeech && v.passives == 200
  {
    AfterPassive(ps, HANGOVER);
  }

  lemma TracksQuiet(v: Vad, cs: seq<Chunk>, ps: seq<Push>, qs: seq<Push>)
    requires Tracks(v, cs, ps) && (v.isSpeech ==> v.passives < 200)
    requires InSpeech(qs, HANGOVER) == InSpeech(ps, HANGOVER) && Trailing(qs) == Trailing(ps) + 1
    requires Completed(qs, HANGOVER) == Completed(ps, HANGOVER) && Current(qs, HANGOVER) == Current(ps, HANGOVER)
    ensures Tracks(if v.isSpeech then v.(passives := v.passives + 1) else v, cs, qs)
  {
  }

  lemma TracksEnd(v: Vad, cs: seq<Chunk>, ps: seq<Push>, w: Vad, ds: seq<Chunk>, qs: seq<Push>)
    requires Tracks(v, cs, ps)
    requires !w.isSpeech && w.packer.pending == None && !w.packer.isStart
    requires !InSpeech(qs, HANGOVER) && Current(qs, HANGOVER) == []
    requires Completed(qs, HANGOVER) == Completed(ps, HANGOVER) + [Current(ps, HANGOVER)]
    requires ClosedPayloads(ds) == ClosedPayloads(cs) + [OpenPayload(cs) + v.packer.Pending()]
    requires OpenPayload(ds) == []
    ensures Tracks(w, ds, qs)
  {
  }

  /** In every run: the payloads between two `end`s are the PCM of one utterance, what
      is pending completes the open one, the start flag is up exactly while a buffer is
      pending, and the counter is exact. */
  lemma {:induction false} Conserves(vs: seq<Verdict>)
    ensures Tracks(Run(vs).0, Run(vs).1, Pushes(vs))
  {
    if vs != [] {
      Conserves(Init(vs));
      var (v, cs) := Run(Init(vs));
      match Last(vs) {
        case Voice(pcm) => TracksVoice(v, cs, Pushes(Init(vs)), pcm);
        case Silence => TracksSilence(v, cs, Pushes(Init(vs)));
        case Error =>
          assert cs + [] == cs;
          assert Pushes(Init(vs)) + [] == Pushes(Init(vs));
      }
    }
  }

  /** And what was sent so far, followed by what is pending, are all the active frames, in
      order. */
  lemma AllPcmIsSent(vs: seq<Verdict>)
    ensures var (v, cs) := Run(vs);
            Payloads(cs) + v.packer.Pending() == ActivePcm(Pushes(vs))
  {
    var (v, cs) := Run(vs);
    Conserves(vs);
    PayloadsSplit(cs);
    UtterancesCover(Pushes(vs), HANGOVER);
    Regroup(Concat(ClosedPayloads(cs)), OpenPayload(cs), v.packer.Pending());
  }

  /** A segment ends with exactly one `end`, at its 201st passive verdict in a row;
      error verdicts neither count nor interrupt. */
  lemma EndExactly(vs: seq<Verdict>)
    requires vs != []
    ensures (exists c :: c in Step(Run(Init(vs)).0, Last(vs), true).1 && c.kind.End?)
       <==> Last(vs).Silence? && EndsNow(Pushes(vs), 201)
  {
    var (v, cs) := Run(Init(vs));
    Conserves(Init(vs));
    StepEnds(v, Last(vs));
    if Last(vs).Silence? {
      SilenceEndsIff(v, cs, Pushes(Init(vs)));
    }
  }

  lemma StepEnds(v: Vad, verdict: Verdict)
    ensures (exists c :: c in Step(v, verdict, true).1 && c.kind.End?) <==> verdict.Silence? && v.isSpeech && v.passives >= 200
  {
    if verdict.Silence? && v.isSpeech && v.passives >= 200 {
      assert Chunk(End, []) in Step(v, verdict, true).1;
    }
  }

  // ---- one utterance: n voiced frames, and then silence ----

  function Spoken(frame: seq<Byte>, n: nat, silences: nat): seq<Verdict> {
    if silences > 0 then Spoken(frame, n, silences - 1) + [Silence]
    else if n > 0 then Spoken(frame, n - 1, 0) + [Voice(frame)]
    else []
  }

  /** An utterance of `size` bytes is open, with k passive pushes behind it. */
  predicate Waiting(ps: seq<Push>, k: nat, size: nat) {
    && InSpeech(ps, HANGOVER) && Trailing(ps) == k
    && Completed(ps, HANGOVER) == [] && |Current(ps, HANGOVER)| == size
  }

  lemma VoiceNext(ps: seq<Push>, frame: seq<Byte>, size: nat, qs: seq<Push>)
    requires qs == ps + [Active(frame)]
    requires Waiting(ps, 0, size) || (ps == [] && size == 0)
    ensures Waiting(qs, 0, size + |frame|)
  {
    AfterActive(ps, frame, HANGOVER);
  }

  lemma SilenceNext(ps: seq<Push>, k: nat, size: nat, qs: seq<Push>)
    requires qs == ps + [Passive] && Waiting(ps, k, size)
    ensures k + 1 < HANGOVER ==> Waiting(qs, k + 1, size)
    ensures k + 1 == HANGOVER ==> |Completed(qs, HANGOVER)| == 1 && |Completed(qs, HANGOVER)[0]| == size
  {
    AfterPassive(ps, HANGOVER);
  }

  lemma PushesNext(vs: seq<Verdict>)
    ensures Pushes(vs + [Silence]) == Pushes(vs) + [Passive]
    ensures forall pcm :: Pushes(vs + [Voice(pcm)]) == Pushes(vs) + [Active(pcm)]
  {
  }

  lemma {:induction false} SpokenOpens(frame: seq<Byte>, n: nat)
    requires |frame| == BLOCK_BYTES && n > 0
    ensures Waiting(Pushes(Spoken(frame, n, 0)), 0, n * BLOCK_BYTES)
  {
    var before := Spoken(frame, n - 1, 0);
    if n == 1 {
      assert before == [] && Pushes(before) == [];
    } else {
      SpokenOpens(frame, n - 1);
    }
    PushesNext(before);
    assert Spoken(frame, n, 0) == before + [Voice(frame)];
    VoiceNext(Pushes(before), frame, (n - 1) * BLOCK_BYTES, Pushes(before + [Voice(frame)]));
  }

  lemma {:induction false} SpokenWaits(frame: seq<Byte>, n: nat, silences: nat)
    requires |frame| == BLOCK_BYTES && n > 0 && silences < HANGOVER
    ensures Waiting(Pushes(Spoken(frame, n, silences)), silences, n * BLOCK_BYTES)
  {
    if silences == 0 {
      SpokenOpens(frame, n);
    } else {
      var before := Spoken(frame, n, silences - 1);
      SpokenWaits(frame, n, silences - 1);
      PushesNext(before);
      assert Spoken(frame, n, silences) == before + [Silence];
      SilenceNext(Pushes(before), silences - 1, n * BLOCK_BYTES, Pushes(before + [Silence]));
    }
  }

  lemma SpokenEnds(frame: seq<Byte>, n: nat)
    requires |frame| == BLOCK_BYTES && n > 0
    ensures var us := Completed(Pushes(Spoken(frame, n, HANGOVER)), HANGOVER);
            |us| == 1 && |us[0]| == n * BLOCK_BYTES
  {
    var before := Spoken(frame, n, HANGOVER - 1);
    SpokenWaits(frame, n, HANGOVER - 1);
    PushesNext(before);
    SilenceNext(Pushes(before), HANGOVER - 1, n * BLOCK_BYTES, Pushes(before + [Silence]));
  }

  lemma {:induction false} SpokenIsFramed(frame: seq<Byte>, n: nat, silences: nat)
    requires |frame| == BLOCK_BYTES
    ensures Framed(Spoken(frame, n, silences))
  {
    if silences > 0 {
      SpokenIsFramed(frame, n, silences - 1);
    } else if n > 0 {
      SpokenIsFramed(frame, n - 1, 0);
    }
  }

  // ---- sizes, for frames of 10 ms ----

  predicate Framed(vs: seq<Verdict>) {
    forall i | 0 <= i < |vs| && vs[i].Voice? :: |vs[i].pcm| == BLOCK_BYTES
  }

  predicate WholeFrames(v: Vad) {
    |v.packer.Pending()| % BLOCK_BYTES == 0 && |v.packer.Pending()| < MAX_PENDING
    && (v.packer.pending.Some? ==> v.packer.pending.value != [])
  }

  lemma BoundedStep(v: Vad, verdict: Verdict)
    requires WholeFrames(v) && (verdict.Voice? ==> |verdict.pcm| == BLOCK_BYTES)
    ensures WholeFrames(Step(v, verdict, true).0) && WellSized(Step(v, verdict, true).1)
    ensures verdict.Voice? ==> v.packer.Fits(verdict.pcm)
  {
    match verdict {
      case Voice(pcm) => AddSized(v.packer.(isStart := true), pcm);
      case Silence => FinishSized(v.packer);
      case Error =>
    }
  }

  /** Every copy stays inside the pending buffer, which holds whole frames and is never
      left full, and every chunk is full except the last of a segment. */
  lemma {:induction false} Bounded(vs: seq<Verdict>)
    requires Framed(vs)
    ensures WholeFrames(Run(vs).0) && WellSized(Run(vs).1)
    ensures |Run(vs).0.packer.Pending()| + BLOCK_BYTES <= MAX_PENDING
  {
    if vs != [] {
      Bounded(Init(vs));
      var (v, cs) := Run(Init(vs));
      BoundedStep(v, Last(vs));
      WellSizedAppend(cs, Step(v, Last(vs), true).1);
    }
    RoomForOne(|Run(vs).0.packer.Pending()|);
  }

  lemma RoomForOne(size: nat)
    requires size % BLOCK_BYTES == 0 && size < MAX_PENDING
    ensures size + BLOCK_BYTES <= MAX_PENDING
  {
    assert size == size / BLOCK_BYTES * BLOCK_BYTES;
  }

  // ---- labels ----

  /** In no run is a chunk ever labelled `speeching`: the flag comes up again with the
      first frame after each flush, so every chunk with PCM says `start`. */
  lemma {:induction false} NeverSpeeching(vs: seq<Verdict>)
    ensures forall c | c in Run(vs).1 :: !c.kind.Speeching?
  {
    if vs != [] {
      NeverSpeeching(Init(vs));
      Conserves(Init(vs));
      StepNeverSpeeching(Run(Init(vs)).0, Last(vs));
    }
  }

  lemma StepNeverSpeeching(v: Vad, verdict: Verdict)
    requires v.packer.isStart <==> v.packer.pending.Some?
    ensures forall c | c in Step(v, verdict, true).1 :: !c.kind.Speeching?
  {
  }

  /** No two chunks with PCM follow one another. */
  predicate OneChunkEach(cs: seq<Chunk>) {
    forall i | 0 <= i < |cs| :: OneChunkAt(cs, i)
  }

  predicate OneChunkAt(cs: seq<Chunk>, i: nat)
    requires i < |cs|
  {
    !cs[i].kind.End? && i > 0 ==> cs[i - 1].kind.End?
  }

  predicate EndAfterPcmAt(cs: seq<Chunk>, i: nat)
    requires i < |cs|
  {
    cs[i].kind.End? ==> i > 0 && !cs[i - 1].kind.End?
  }

  predicate EndsAfterPcm(v: Vad, cs: seq<Chunk>) {
    && (forall i | 0 <= i < |cs| :: EndAfterPcmAt(cs, i))
    && (v.isSpeech && !v.packer.isStart ==> cs != [] && !Last(cs).kind.End?)
  }

  lemma EndsFollowPcmStep(v: Vad, cs: seq<Chunk>, verdict: Verdict)
    requires EndsAfterPcm(v, cs) && (v.packer.isStart <==> v.packer.pending.Some?)
    ensures EndsAfterPcm(Step(v, verdict, true).0, cs + Step(v, verdict, true).1)
  {
    var out := Step(v, verdict, true).1;
    forall i | 0 <= i < |cs + out|
      ensures EndAfterPcmAt(cs + out, i)
    {
      if i < |cs| {
        assert EndAfterPcmAt(cs, i);
      }
    }
  }

  /** An `end` always follows a chunk with PCM. */
  lemma {:induction false} EndsFollowPcm(vs: seq<Verdict>)
    ensures EndsAfterPcm(Run(vs).0, Run(vs).1)
  {
    if vs != [] {
      EndsFollowPcm(Init(vs));
      Conserves(Init(vs));
      EndsFollowPcmStep(Run(Init(vs)).0, Run(Init(vs)).1, Last(vs));
    }
  }

  lemma GrammarIsOneChunkEach(vs: seq<Verdict>)
    ensures Grammar(Run(vs).1) <==> OneChunkEach(Run(vs).1)
  {
    NeverSpeeching(vs);
    EndsFollowPcm(vs);
    var cs := Run(vs).1;
    if OneChunkEach(cs) {
      forall i | 0 <= i < |cs|
        ensures LabelledAt(cs, i)
      {
        assert OneChunkAt(cs, i) && EndAfterPcmAt(cs, i) && cs[i] in cs;
      }
    } else {
      var i :| 0 <= i < |cs| && !OneChunkAt(cs, i);
      assert cs[i] in cs && !LabelledAt(cs, i);
    }
  }

  predicate Short(us: seq<seq<Byte>>) {
    forall u | u in us :: |u| <= MAX_PENDING
  }

  predicate Counted(cs: seq<Chunk>) {
    && |OpenPayload(cs)| % MAX_PENDING == 0
    && (OpenPayload(cs) == [] <==> (cs == [] || Last(cs).kind.End?))
    && (OneChunkEach(cs) <==> Short(ClosedPayloads(cs)) && |OpenPayload(cs)| <= MAX_PENDING)
  }

  lemma CountedAppend(cs: seq<Chunk>, c: Chunk)
    ensures OneChunkEach(cs + [c]) <==> OneChunkEach(cs) && (c.kind.End? || cs == [] || Last(cs).kind.End?)
  {
    var ds := cs + [c];
    assert forall i | 0 <= i < |cs| :: OneChunkAt(ds, i) <==> OneChunkAt(cs, i);
    assert OneChunkAt(ds, |cs|) <==> c.kind.End? || cs == [] || Last(cs).kind.End?;
  }

  lemma ShortAppend(us: seq<seq<Byte>>, u: seq<Byte>)
    ensures Short(us + [u]) <==> Short(us) && |u| <= MAX_PENDING
  {
    assert u in us + [u];
    assert forall x | x in us :: x in us + [u];
  }

  lemma CountedFull(cs: seq<Chunk>, c: Chunk)
    requires Counted(cs) && !c.kind.End? && |c.payload| == MAX_PENDING
    ensures Counted(cs + [c])
  {
    CountedAppend(cs, c);
    InitLast(cs, c);
  }

  lemma CountedEnd(cs: seq<Chunk>)
    requires Counted(cs)
    ensures Counted(cs + [Chunk(End, [])])
  {
    CountedAppend(cs, Chunk(End, []));
    InitLast(cs, Chunk(End, []));
    ShortAppend(ClosedPayloads(cs), OpenPayload(cs));
  }

  lemma CountedShortEnd(cs: seq<Chunk>, c: Chunk)
    requires Counted(cs) && !c.kind.End? && 0 < |c.payload| <= MAX_PENDING
    ensures Counted(cs + [c, Chunk(End, [])])
  {
    CountedAppend(cs, c);
    InitLast(cs, c);
    CountedAppend(cs + [c], Chunk(End, []));
    InitLast(cs + [c], Chunk(End, []));
    ShortAppend(ClosedPayloads(cs), OpenPayload(cs) + c.payload);
    assert cs + [c, Chunk(End, [])] == cs + [c] + [Chunk(End, [])];
  }

  lemma CountedStep(v: Vad, cs: seq<Chunk>, verdict: Verdict)
    requires Counted(cs) && WholeFrames(v) && (verdict.Voice? ==> |verdict.pcm| == BLOCK_BYTES)
    ensures Counted(cs + Step(v, verdict, true).1)
  {
    var out := Step(v, verdict, true).1;
    if out == [] {
      assert cs + out == cs;
    } else if verdict.Voice? {
      CountedFull(cs, out[0]);
    } else if |out| == 1 {
      CountedEnd(cs);
    } else {
      CountedShortEnd(cs, out[0]);
      assert out == [out[0], Chunk(End, [])];
    }
  }

  lemma {:induction false} CountedRun(vs: seq<Verdict>)
    requires Framed(vs)
    ensures Counted(Run(vs).1)
  {
    if vs != [] {
      CountedRun(Init(vs));
      Bounded(Init(vs));
      CountedStep(Run(Init(vs)).0, Run(Init(vs)).1, Last(vs));
    }
  }

  /** So the label grammar of the other detector holds exactly for the histories in
      which every finished utterance fits one buffer and the open one has not filled
      two. */
  lemma GrammarIff(vs: seq<Verdict>)
    requires Framed(vs)
    ensures Grammar(Run(vs).1) <==>
            Short(Completed(Pushes(vs), 201)) && |Current(Pushes(vs), 201)| < 2 * MAX_PENDING
  {
    GrammarIsOneChunkEach(vs);
    CountedRun(vs);
    OpenSize(vs);
    TwoBuffers(|OpenPayload(Run(vs).1)|, |Current(Pushes(vs), 201)|);
  }

  lemma TwoBuffers(sent: nat, current: nat)
    requires sent % MAX_PENDING == 0 && sent <= current < sent + MAX_PENDING
    ensures sent <= MAX_PENDING <==> current < 2 * MAX_PENDING
  {
  }

  lemma OpenSize(vs: seq<Verdict>)
    requires Framed(vs)
    ensures ClosedPayloads(Run(vs).1) == Completed(Pushes(vs), 201)
    ensures |OpenPayload(Run(vs).1)| <= |Current(Pushes(vs), 201)| < |OpenPayload(Run(vs).1)| + MAX_PENDING
  {
    Conserves(vs);
    Bounded(vs);
  }
}
