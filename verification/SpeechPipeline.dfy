/** The speech pipeline end to end: what the transcriber is given, said about the pushes
    the detectors saw. */
module SpeechPipeline {
  import opened Std
  import opened Speech
  import opened Framing
  import opened VadInterface
  import opened ChunkPacker
  import opened SttServer
  import RnnoiseVad
  import LegacyVad
  import VadZmqClient

  // ---- transcripts of a list of buffers ----

  /** Buffers the transcriber is given as they are: not empty, whole samples. */
  predicate Whole(bs: seq<seq<Byte>>) {
    forall b | b in bs :: |b| > 0 && |b| % 2 == 0
  }

  function Audios(bs: seq<seq<Byte>>): seq<seq<real>>
    requires Whole(bs)
  {
    seq(|bs|, i requires 0 <= i < |bs| => Audio(bs[i]))
  }

  /** Each transcript is the samples of its buffer, in order. */
  predicate AllPlay(ts: seq<seq<real>>, bs: seq<seq<Byte>>) {
    |ts| == |bs| && forall i | 0 <= i < |ts| :: Plays(ts[i], bs[i])
  }

  lemma AudiosPlay(ts: seq<seq<real>>, bs: seq<seq<Byte>>)
    requires Whole(bs) && ts <= Audios(bs)
    ensures AllPlay(ts, bs[..|ts|])
  {
    forall i | 0 <= i < |ts|
      ensures Plays(ts[i], bs[i])
    {
      assert ts[i] == Audios(bs)[i] && bs[i] in bs;
      AudioPlays(bs[i]);
    }
  }

  lemma {:induction false} TranscriptsAreAudios(id: string, bs: seq<seq<Byte>>)
    requires Whole(bs)
    ensures TranscriptsOf(Transcripts(id, bs), id) == Audios(bs)
  {
    if bs != [] {
      assert Whole(Init(bs)) && Last(bs) in bs;
      TranscriptsAreAudios(id, Init(bs));
      OneMoreTranscript(Transcripts(id, Init(bs)), id, Last(bs));
      AudiosStep(bs);
    }
  }

  lemma AudiosStep(bs: seq<seq<Byte>>)
    requires Whole(bs) && bs != [] && Whole(Init(bs))
    ensures Audios(bs) == Audios(Init(bs)) + [Audio(Last(bs))]
  {
  }

  lemma OneMoreTranscript(ts: seq<Transcript>, id: string, b: seq<Byte>)
    requires |b| > 0 && |b| % 2 == 0
    ensures TranscriptsOf(ts + Transcribed(id, b), id) == TranscriptsOf(ts, id) + [Audio(b)]
  {
    InitLast(ts, Transcript(id, Audio(b)));
  }

  // ---- chunk streams whose `end`s follow PCM ----

  predicate EndsFollowPcm(cs: seq<Chunk>) {
    forall i | 0 <= i < |cs| :: LegacyVad.EndAfterPcmAt(cs, i)
  }

  lemma SizedIsAudible(cs: seq<Chunk>)
    requires WellSized(cs)
    ensures Audible(cs)
  {
    forall i | 0 <= i < |cs|
      ensures if cs[i].kind.End? then cs[i].payload == [] else 0 < |cs[i].payload| && |cs[i].payload| % 2 == 0
    {
      assert SizedAt(cs, i);
    }
  }

  predicate WholeSoFar(cs: seq<Chunk>) {
    && Whole(ClosedPayloads(cs))
    && |OpenPayload(cs)| % 2 == 0
    && (OpenPayload(cs) != [] <==> (cs != [] && !Last(cs).kind.End?))
  }

  lemma WholeStep(p: seq<Chunk>, c: Chunk, cs: seq<Chunk>)
    requires WholeSoFar(p) && cs == p + [c]
    requires if c.kind.End? then p != [] && !Last(p).kind.End? else |c.payload| > 0 && |c.payload| % 2 == 0
    ensures WholeSoFar(cs)
  {
    InitLast(p, c);
    assert forall b | b in ClosedPayloads(p) + [OpenPayload(p)] :: b in ClosedPayloads(p) || b == OpenPayload(p);
  }

  lemma {:induction false} ClosedAreWhole(cs: seq<Chunk>)
    requires Audible(cs) && EndsFollowPcm(cs)
    ensures WholeSoFar(cs)
  {
    if cs != [] {
      EndsFollowPcmPrefix(cs);
      ClosedAreWhole(Init(cs));
      WholeStep(Init(cs), Last(cs), cs);
    }
  }

  lemma EndsFollowPcmPrefix(cs: seq<Chunk>)
    requires EndsFollowPcm(cs) && cs != []
    ensures EndsFollowPcm(Init(cs))
    ensures Last(cs).kind.End? ==> Init(cs) != [] && !Last(Init(cs)).kind.End?
  {
    forall i | 0 <= i < |Init(cs)|
      ensures LegacyVad.EndAfterPcmAt(Init(cs), i)
    {
      assert LegacyVad.EndAfterPcmAt(cs, i);
    }
    assert LegacyVad.EndAfterPcmAt(cs, |cs| - 1);
  }

  lemma GrammarEndsFollowPcm(cs: seq<Chunk>)
    requires Grammar(cs)
    ensures EndsFollowPcm(cs)
  {
    forall i | 0 <= i < |cs|
      ensures LegacyVad.EndAfterPcmAt(cs, i)
    {
      assert LabelledAt(cs, i);
    }
  }

  /** A stream of labelled chunks, well formed in both respects, is transcribed
      utterance by utterance. */
  lemma ChunksTranscribed(cs: seq<Chunk>, id: string)
    requires Grammar(cs) && Audible(cs)
    ensures Whole(ClosedPayloads(cs))
    ensures TranscriptsOf(SttServer.Run(Events(id, cs)).transcripts, id) == Audios(ClosedPayloads(cs))
    ensures SttServer.Run(Events(id, cs)).Buffer(id) == OpenPayload(cs)
  {
    GrammarEndsFollowPcm(cs);
    ClosedAreWhole(cs);
    Assembles(id, cs);
    TranscriptsAreAudios(id, ClosedPayloads(cs));
  }

  // ---- one client ----

  lemma WellFormed(ps: seq<Push>, n: nat)
    requires RnnoiseVad.Divides6(n) && RnnoiseVad.Uniform(ps, n)
    ensures Grammar(RnnoiseVad.Run(ps, true).1) && Audible(RnnoiseVad.Run(ps, true).1)
  {
    RnnoiseVad.LabelGrammar(ps);
    RnnoiseVad.Bounded(ps, n);
    SizedIsAudible(RnnoiseVad.Run(ps, true).1);
  }

  /** For every history of pushes with a fixed number of blocks that divides 6: the
      server transcribes exactly the utterances that have ended, each one whole, and its
      buffer with the detector's pending bytes is the utterance still open. */
  lemma {:induction false} RnnoiseEndToEnd(ps: seq<Push>, n: nat, id: string)
    requires RnnoiseVad.Divides6(n) && RnnoiseVad.Uniform(ps, n)
    ensures var (v, cs) := RnnoiseVad.Run(ps, true);
            var s := SttServer.Run(Events(id, cs));
            && Whole(Completed(ps, RnnoiseVad.HANGOVER))
            && TranscriptsOf(s.transcripts, id) == Audios(Completed(ps, RnnoiseVad.HANGOVER))
            && AllPlay(TranscriptsOf(s.transcripts, id), Completed(ps, RnnoiseVad.HANGOVER))
            && s.Buffer(id) + v.packer.Pending() == Current(ps, RnnoiseVad.HANGOVER)
  {
    RnnoiseVad.Conserves(ps);
    WellFormed(ps, n);
    ChunksTranscribed(RnnoiseVad.Run(ps, true).1, id);
    var us := Completed(ps, RnnoiseVad.HANGOVER);
    AudiosPlay(Audios(us), us);
    assert us[..|us|] == us;
  }

  /** At no point of the run does a `start` throw away PCM: the buffer it replaces is
      empty. */
  lemma StartFindsEmptyBuffer(ps: seq<Push>, id: string, i: nat)
    requires i < |RnnoiseVad.Run(ps, true).1| && RnnoiseVad.Run(ps, true).1[i].kind.Start?
    ensures SttServer.Run(Events(id, RnnoiseVad.Run(ps, true).1[..i])).Buffer(id) == []
  {
    var cs := RnnoiseVad.Run(ps, true).1;
    RnnoiseVad.LabelGrammar(ps);
    var upTo := cs[..i + 1];
    GrammarPrefix(cs, i + 1);
    Assembles(id, upTo);
    assert Init(upTo) == cs[..i] && Last(upTo) == cs[i];
  }

  lemma GrammarPrefix(cs: seq<Chunk>, k: nat)
    requires Grammar(cs) && k <= |cs|
    ensures Grammar(cs[..k])
  {
    forall i | 0 <= i < k
      ensures LabelledAt(cs[..k], i)
    {
      assert LabelledAt(cs, i);
    }
  }

  // ---- the legacy detector: only the last chunk is heard ----

  /** The bytes of the last buffer an utterance is cut into. */
  function Tail(u: seq<Byte>): seq<Byte> {
    u[|u| - TailSize(|u|)..]
  }

  function TailSize(size: nat): (t: nat)
    ensures t <= size && t <= MAX_PENDING
    ensures size > 0 ==> t > 0
    ensures t == size <==> size <= MAX_PENDING
    ensures size % 2 == 0 ==> t % 2 == 0
  {
    if size == 0 then 0 else (size - 1) % MAX_PENDING + 1
  }

  function Tails(us: seq<seq<Byte>>): seq<seq<Byte>> {
    seq(|us|, i requires 0 <= i < |us| => Tail(us[i]))
  }

  predicate HearsTails(cs: seq<Chunk>) {
    && |OpenPayload(cs)| % MAX_PENDING == 0
    && LastPayload(cs) == Tail(OpenPayload(cs))
    && LastPayloads(cs) == Tails(ClosedPayloads(cs))
  }

  lemma TailSizeOfLast(size: nat, last: nat)
    requires size % MAX_PENDING == 0 && 0 < last <= MAX_PENDING
    ensures TailSize(size + last) == last
  {
    var k := size / MAX_PENDING;
    assert size == MAX_PENDING * k;
  }

  lemma TailOfLast(u: seq<Byte>, last: seq<Byte>)
    requires |u| % MAX_PENDING == 0 && 0 < |last| <= MAX_PENDING
    ensures Tail(u + last) == last
  {
    TailSizeOfLast(|u|, |last|);
  }

  lemma TailsAppend(us: seq<seq<Byte>>, u: seq<Byte>)
    ensures Tails(us + [u]) == Tails(us) + [Tail(u)]
  {
  }

  lemma HearsEnd(cs: seq<Chunk>)
    requires LastPayload(cs) == Tail(OpenPayload(cs)) && LastPayloads(cs) == Tails(ClosedPayloads(cs))
    ensures HearsTails(cs + [Chunk(End, [])])
  {
    InitLast(cs, Chunk(End, []));
    TailsAppend(ClosedPayloads(cs), OpenPayload(cs));
  }

  lemma HearsPcm(cs: seq<Chunk>, c: Chunk)
    requires HearsTails(cs) && !c.kind.End? && 0 < |c.payload| <= MAX_PENDING
    ensures LastPayload(cs + [c]) == Tail(OpenPayload(cs + [c])) && LastPayloads(cs + [c]) == Tails(ClosedPayloads(cs + [c]))
  {
    OnePcm(cs, c);
    TailOfLast(OpenPayload(cs), c.payload);
  }

  lemma HearsFull(cs: seq<Chunk>, c: Chunk)
    requires HearsTails(cs) && !c.kind.End? && |c.payload| == MAX_PENDING
    ensures HearsTails(cs + [c])
  {
    HearsPcm(cs, c);
    OnePcm(cs, c);
    OneMoreBuffer(|OpenPayload(cs)|);
  }

  lemma OnePcm(cs: seq<Chunk>, c: Chunk)
    requires !c.kind.End?
    ensures var ds := cs + [c];
            && OpenPayload(ds) == OpenPayload(cs) + c.payload && LastPayload(ds) == c.payload
            && ClosedPayloads(ds) == ClosedPayloads(cs) && LastPayloads(ds) == LastPayloads(cs)
  {
    InitLast(cs, c);
  }

  lemma OneMoreBuffer(size: nat)
    requires size % MAX_PENDING == 0
    ensures (size + MAX_PENDING) % MAX_PENDING == 0
  {
  }

  lemma HearsStep(v: Vad, cs: seq<Chunk>, verdict: LegacyVad.Verdict)
    requires HearsTails(cs) && LegacyVad.WholeFrames(v) && (verdict.Voice? ==> |verdict.pcm| == BLOCK_BYTES)
    ensures HearsTails(cs + LegacyVad.Step(v, verdict, true).1)
  {
    LegacyOutput(v, verdict);
    HearsOutput(cs, LegacyVad.Step(v, verdict, true).1);
  }

  /** What one verdict sends: PCM at most, which is full unless an `end` follows. */
  predicate OutputShape(out: seq<Chunk>) {
    || out == []
    || out == [Chunk(End, [])]
    || (out == [out[0]] && !out[0].kind.End? && |out[0].payload| == MAX_PENDING)
    || (out == [out[0], Chunk(End, [])] && !out[0].kind.End? && 0 < |out[0].payload| <= MAX_PENDING)
  }

  lemma LegacyOutput(v: Vad, verdict: LegacyVad.Verdict)
    requires LegacyVad.WholeFrames(v) && (verdict.Voice? ==> |verdict.pcm| == BLOCK_BYTES)
    ensures OutputShape(LegacyVad.Step(v, verdict, true).1)
  {
  }

  lemma HearsOutput(cs: seq<Chunk>, out: seq<Chunk>)
    requires HearsTails(cs) && OutputShape(out)
    ensures HearsTails(cs + out)
  {
    if out == [] {
      assert cs + out == cs;
    } else if out == [Chunk(End, [])] {
      HearsEnd(cs);
    } else {
      var more := cs + [out[0]];
      HearsPcm(cs, out[0]);
      if |out| == 2 {
        HearsEnd(more);
        assert cs + out == more + [Chunk(End, [])];
      } else {
        HearsFull(cs, out[0]);
        assert cs + out == more;
      }
    }
  }

  lemma {:induction false} LegacyHears(vs: seq<LegacyVad.Verdict>)
    requires LegacyVad.Framed(vs)
    ensures HearsTails(LegacyVad.Run(vs).1)
  {
    if vs != [] {
      LegacyHears(Init(vs));
      LegacyVad.Bounded(Init(vs));
      HearsStep(LegacyVad.Run(Init(vs)).0, LegacyVad.Run(Init(vs)).1, Last(vs));
    }
  }

  lemma TailsAreWhole(us: seq<seq<Byte>>)
    requires Whole(us)
    ensures Whole(Tails(us))
  {
    forall b | b in Tails(us)
      ensures |b| > 0 && |b| % 2 == 0
    {
      var i :| 0 <= i < |us| && b == Tail(us[i]);
      assert us[i] in us;
    }
  }

  /** With the legacy detector the server is given, for every utterance, only the bytes
      of the last buffer it was cut into. */
  lemma {:induction false} LegacyEndToEnd(vs: seq<LegacyVad.Verdict>, id: string)
    requires LegacyVad.Framed(vs)
    ensures var us := Completed(LegacyVad.Pushes(vs), LegacyVad.HANGOVER);
            && Whole(us) && Whole(Tails(us))
            && TranscriptsOf(SttServer.Run(Events(id, LegacyVad.Run(vs).1)).transcripts, id) == Audios(Tails(us))
  {
    var cs := LegacyVad.Run(vs).1;
    LegacyVad.Conserves(vs);
    LegacyVad.Bounded(vs);
    LegacyVad.EndsFollowPcm(vs);
    LegacyVad.NeverSpeeching(vs);
    SizedIsAudible(cs);
    ClosedAreWhole(cs);
    TailsAreWhole(ClosedPayloads(cs));
    LegacyHears(vs);
    Replaces(id, cs);
    TranscriptsAreAudios(id, LastPayloads(cs));
  }

  /** So the pipeline keeps its promise with the legacy detector exactly when every
      utterance that has ended fits one buffer. */
  lemma LegacyCompleteIff(vs: seq<LegacyVad.Verdict>, id: string)
    requires LegacyVad.Framed(vs)
    ensures var us := Completed(LegacyVad.Pushes(vs), LegacyVad.HANGOVER);
            && Whole(us)
            && (TranscriptsOf(SttServer.Run(Events(id, LegacyVad.Run(vs).1)).transcripts, id) == Audios(us)
                <==> LegacyVad.Short(us))
  {
    var us := Completed(LegacyVad.Pushes(vs), LegacyVad.HANGOVER);
    LegacyEndToEnd(vs, id);
    TailsEqualIff(us);
  }

  /** From the seventh frame on an utterance is not transcribed whole: what the server is
      given is shorter than what was said. */
  lemma LegacyLosesAudio(frame: seq<Byte>, n: nat, id: string)
    requires |frame| == BLOCK_BYTES && n > 6
    ensures var vs := LegacyVad.Spoken(frame, n, LegacyVad.HANGOVER);
            var us := Completed(LegacyVad.Pushes(vs), LegacyVad.HANGOVER);
            var ts := TranscriptsOf(SttServer.Run(Events(id, LegacyVad.Run(vs).1)).transcripts, id);
            && LegacyVad.Framed(vs) && Whole(us) && !LegacyVad.Short(us)
            && |us| == 1 && |us[0]| == n * BLOCK_BYTES
            && |ts| == 1 && |ts[0]| <= MAX_PENDING / 2 < |Audio(us[0])|
  {
    var vs := LegacyVad.Spoken(frame, n, LegacyVad.HANGOVER);
    var us := Completed(LegacyVad.Pushes(vs), LegacyVad.HANGOVER);
    LegacyVad.SpokenIsFramed(frame, n, LegacyVad.HANGOVER);
    LegacyVad.SpokenEnds(frame, n);
    LegacyEndToEnd(vs, id);
    OneUtteranceTooLong(us, n);
  }

  lemma OneUtteranceTooLong(us: seq<seq<Byte>>, n: nat)
    requires |us| == 1 && |us[0]| == n * BLOCK_BYTES && n > 6 && Whole(us) && Whole(Tails(us))
    ensures !LegacyVad.Short(us)
    ensures |Audios(Tails(us))| == 1 && |Audios(Tails(us))[0]| <= MAX_PENDING / 2 < |Audio(us[0])|
  {
    assert us[0] in us && Tails(us)[0] in Tails(us);
  }

  lemma TailsEqualIff(us: seq<seq<Byte>>)
    requires Whole(us) && Whole(Tails(us))
    ensures Audios(Tails(us)) == Audios(us) <==> LegacyVad.Short(us)
  {
    if LegacyVad.Short(us) {
      forall i | 0 <= i < |us|
        ensures Tail(us[i]) == us[i]
      {
        assert us[i] in us;
      }
      assert Tails(us) == us;
    } else {
      var u :| u in us && |u| > MAX_PENDING;
      var i :| 0 <= i < |us| && us[i] == u;
      assert |Tail(u)| < |u| && Tails(us)[i] in Tails(us);
      assert |Audios(us)[i]| == |u| / 2 && |Audios(Tails(us))[i]| == |Tail(u)| / 2;
    }
  }

  // ---- all clients, the queue, the wire and the pool ----

  function VoicesFor(vs: seq<Voice>, id: string): seq<Voice> {
    if vs == [] then []
    else VoicesFor(Init(vs), id) + (if Last(vs).id == id then [Last(vs)] else [])
  }

  function Voices(id: string, cs: seq<Chunk>): seq<Voice> {
    seq(|cs|, i requires 0 <= i < |cs| => VoiceOf(id, cs[i]))
  }

  lemma {:induction false} VoicesForPrefix(vs: seq<Voice>, k: nat, id: string)
    requires k <= |vs|
    ensures VoicesFor(vs[..k], id) <= VoicesFor(vs, id)
  {
    if k < |vs| {
      VoicesForPrefix(Init(vs), k, id);
      assert Init(vs)[..k] == vs[..k];
    } else {
      assert vs[..k] == vs;
    }
  }

  lemma {:induction false} EventsForVoices(vs: seq<Voice>, id: string)
    ensures EventsFor(EventsOf(vs), id) == EventsOf(VoicesFor(vs, id))
  {
    if vs != [] {
      EventsForVoices(Init(vs), id);
      assert EventsOf(vs) == EventsOf(Init(vs)) + [EventOf(Last(vs))];
      InitLast(EventsOf(Init(vs)), EventOf(Last(vs)));
    }
  }

  lemma {:induction false} ClosedPrefix(cs: seq<Chunk>, k: nat)
    requires k <= |cs|
    ensures ClosedPayloads(cs[..k]) <= ClosedPayloads(cs)
  {
    if k < |cs| {
      ClosedPrefix(Init(cs), k);
      assert Init(cs)[..k] == cs[..k];
    } else {
      assert cs[..k] == cs;
    }
  }

  function CountEnds(es: seq<Event>): nat {
    if es == [] then 0 else CountEnds(Init(es)) + (if Last(es).kind == "end" then 1 else 0)
  }

  lemma {:induction false} EndsClose(id: string, cs: seq<Chunk>)
    ensures CountEnds(Events(id, cs)) == |ClosedPayloads(cs)|
  {
    if cs != [] {
      EndsClose(id, Init(cs));
      assert Init(Events(id, cs)) == Events(id, Init(cs));
    }
  }

  /** The detector of each client: its history, and the fixed size of its pushes. */
  datatype Source = Source(history: seq<Push>, blocks: nat) {
    predicate Valid() {
      RnnoiseVad.Divides6(blocks) && RnnoiseVad.Uniform(history, blocks)
    }

    function Chunks(): seq<Chunk> {
      RnnoiseVad.Run(history, true).1
    }

    function Utterances(): seq<seq<Byte>> {
      Completed(history, RnnoiseVad.HANGOVER)
    }
  }

  /** The voices queued in the first session of the client are the chunks of the
      detectors, in some order that keeps the order of each detector. */
  ghost predicate Feeds(sources: string -> Source, ops: seq<VadZmqClient.Op>) {
    && VadZmqClient.Up(ops) && VadZmqClient.Before(ops) == []
    && forall id ::
      && sources(id).Valid()
      && VoicesFor(VadZmqClient.Session(ops), id) == Voices(id, sources(id).Chunks())
  }

  /** Some of the received events have been handled, those of each client in the order
      they were received. */
  ghost predicate Handled(handled: seq<Event>, received: seq<Event>) {
    forall id :: EventsFor(handled, id) <= EventsFor(received, id)
  }

  /** At every moment, for every interleaving of the detectors, of the queue's thread and
      of the pool: what has been transcribed for a client is a prefix of its utterances,
      one for each `end` that has been handled, each sample for sample; and when all its
      chunks have been handled, it is all of them. */
  lemma {:induction false} EndToEnd(sources: string -> Source, ops: seq<VadZmqClient.Op>, identity: seq<Byte>, handled: seq<Event>, id: string)
    requires Feeds(sources, ops)
    requires forall v | v in VadZmqClient.Run(ops).sent :: Sendable(v)
    requires Handled(handled, Receive(Routed(identity, VadZmqClient.Run(ops).sent)).events)
    ensures var us := sources(id).Utterances();
            var ts := TranscriptsOf(SttServer.Run(handled).transcripts, id);
            && Whole(us) && ts <= Audios(us)
            && |ts| == CountEnds(EventsFor(handled, id))
            && AllPlay(ts, us[..|ts|])
            && (|EventsFor(handled, id)| == |sources(id).Chunks()| ==> ts == Audios(us))
  {
    HandledIsPrefix(sources, ops, identity, handled, id);
    Isolation(handled, id);
    PrefixTranscribed(sources(id), |EventsFor(handled, id)|, id);
    AudiosPlay(TranscriptsOf(SttServer.Run(handled).transcripts, id), sources(id).Utterances());
  }

  /** What has been handled for a client is the beginning of what its detector sent. */
  lemma HandledIsPrefix(sources: string -> Source, ops: seq<VadZmqClient.Op>, identity: seq<Byte>, handled: seq<Event>, id: string)
    requires Feeds(sources, ops)
    requires forall v | v in VadZmqClient.Run(ops).sent :: Sendable(v)
    requires Handled(handled, Receive(Routed(identity, VadZmqClient.Run(ops).sent)).events)
    ensures var k := |EventsFor(handled, id)|;
            k <= |sources(id).Chunks()| && EventsFor(handled, id) == Events(id, sources(id).Chunks()[..k])
  {
    var sent, all := VadZmqClient.Run(ops).sent, VadZmqClient.Session(ops);
    SentIsPrefix(ops);
    EndsCarryNothing(sources, ops);
    ReceiveRoundTrip(identity, sent);
    EventsForVoices(sent, id);
    VoicesForPrefix(all, |sent|, id);
    assert sent == all[..|sent|];
    EventsPrefix(id, sources(id).Chunks(), VoicesFor(sent, id), EventsFor(handled, id));
  }

  lemma EventsPrefix(id: string, cs: seq<Chunk>, sent: seq<Voice>, es: seq<Event>)
    requires sent <= Voices(id, cs) && es <= EventsOf(sent)
    ensures |es| <= |cs| && es == Events(id, cs[..|es|])
  {
    forall i | 0 <= i < |es|
      ensures es[i] == Events(id, cs[..|es|])[i]
    {
      assert es[i] == EventsOf(sent)[i] && sent[i] == Voices(id, cs)[i];
    }
  }

  lemma SentIsPrefix(ops: seq<VadZmqClient.Op>)
    requires VadZmqClient.Up(ops) && VadZmqClient.Before(ops) == []
    ensures VadZmqClient.Run(ops).sent <= VadZmqClient.Session(ops)
  {
    VadZmqClient.QueueIsFifo(ops);
    var c := VadZmqClient.Run(ops);
    Split(c.sent, c.worker.value.queue, VadZmqClient.Session(ops));
  }

  lemma Split(a: seq<Voice>, b: seq<Voice>, c: seq<Voice>)
    requires a + b == [] + c
    ensures a <= c
  {
    assert c == a + b;
  }

  lemma EndsCarryNothing(sources: string -> Source, ops: seq<VadZmqClient.Op>)
    requires Feeds(sources, ops)
    ensures forall v | v in VadZmqClient.Session(ops) :: v.kind == "end" ==> v.data == []
  {
    var all := VadZmqClient.Session(ops);
    forall v | v in all
      ensures v.kind == "end" ==> v.data == []
    {
      VoiceIsFor(all, v);
      var cs := sources(v.id).Chunks();
      assert v in Voices(v.id, cs);
      var i :| 0 <= i < |cs| && v == VoiceOf(v.id, cs[i]);
      WellFormed(sources(v.id).history, sources(v.id).blocks);
    }
  }

  lemma {:induction false} VoiceIsFor(vs: seq<Voice>, v: Voice)
    requires v in vs
    ensures v in VoicesFor(vs, v.id)
  {
    if v != Last(vs) {
      assert v in Init(vs);
      VoiceIsFor(Init(vs), v);
    }
  }

  lemma PrefixTranscribed(source: Source, k: nat, id: string)
    requires source.Valid() && k <= |source.Chunks()|
    ensures var us := source.Utterances();
            var ts := TranscriptsOf(SttServer.Run(Events(id, source.Chunks()[..k])).transcripts, id);
            && Whole(us) && ts <= Audios(us)
            && |ts| == CountEnds(Events(id, source.Chunks()[..k]))
            && (k == |source.Chunks()| ==> ts == Audios(us))
  {
    var cs := source.Chunks();
    RnnoiseVad.Conserves(source.history);
    WellFormed(source.history, source.blocks);
    ChunksTranscribed(cs, id);
    GrammarPrefix(cs, k);
    ChunksTranscribed(cs[..k], id);
    ClosedPrefix(cs, k);
    AudiosPrefix(ClosedPayloads(cs[..k]), ClosedPayloads(cs));
    EndsClose(id, cs[..k]);
    assert cs[..|cs|] == cs;
  }

  lemma AudiosPrefix(bs: seq<seq<Byte>>, cs: seq<seq<Byte>>)
    requires Whole(bs) && Whole(cs) && bs <= cs
    ensures Audios(bs) <= Audios(cs)
  {
  }
}
