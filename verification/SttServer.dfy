/** The speech-to-text server: one PCM buffer per client, handed to the transcriber on
    `end`.  The model and its text are external; a transcript is the audio passed to it. */
module SttServer {
  import opened Std
  import opened Framing
  import opened ChunkPacker
  import Pcm

  datatype Transcript = Transcript(id: string, audio: seq<real>)

  datatype Server = Server(buffers: map<string, seq<Byte>>, transcripts: seq<Transcript>) {
    /** client_pcm_buffers is a defaultdict. */
    function Buffer(id: string): seq<Byte> {
      if id in buffers then buffers[id] else []
    }
  }

  const INITIAL := Server(map[], [])

  /** np.frombuffer as int16, scaled by 1 / 32768. */
  function Audio(b: seq<Byte>): seq<real>
    requires |b| % 2 == 0
  {
    var s := Pcm.Samples(b);
    seq(|s|, i requires 0 <= i < |s| => Pcm.ToFloat(s[i]))
  }

  /** The audio is the samples of the buffer, in order: each pair of bytes as a signed
      little-endian number, over 32768. */
  predicate Plays(audio: seq<real>, b: seq<Byte>) {
    |b| == 2 * |audio| && forall i | 0 <= i < |audio| :: 32768.0 * audio[i] == Pcm.Signed(b, i) as real
  }

  lemma AudioPlays(b: seq<Byte>)
    requires |b| % 2 == 0
    ensures Plays(Audio(b), b)
  {
  }

  /** So the transcriber is given the samples that were copied into the buffer. */
  lemma AudioOfSamples(s: seq<Int16>)
    ensures |Audio(Pcm.Bytes(s))| == |s|
    ensures forall i | 0 <= i < |s| :: 32768.0 * Audio(Pcm.Bytes(s))[i] == s[i] as real
  {
    AudioPlays(Pcm.Bytes(s));
    forall i | 0 <= i < |s|
      ensures 32768.0 * Audio(Pcm.Bytes(s))[i] == s[i] as real
    {
      Pcm.BytesAreLittleEndian(s, i);
    }
  }

  /** What an `end` makes of a buffer: nothing of an empty one, and nothing of one that
      is not a whole number of samples, where np.frombuffer raises. */
  function Transcribed(id: string, b: seq<Byte>): seq<Transcript> {
    if |b| > 0 && |b| % 2 == 0 then [Transcript(id, Audio(b))] else []
  }

  /** handle_event, under the client's lock. */
  function Handle(s: Server, e: Event): Server {
    if e.kind == "start" then s.(buffers := s.buffers[e.id := e.pcm])
    else if e.kind == "speeching" then s.(buffers := s.buffers[e.id := s.Buffer(e.id) + e.pcm])
    else if e.kind == "end" then
      Server(s.buffers[e.id := []], s.transcripts + Transcribed(e.id, s.Buffer(e.id)))
    else s
  }

  function Run(es: seq<Event>): Server {
    if es == [] then INITIAL else Handle(Run(Init(es)), Last(es))
  }

  // ---- any events, in any order ----

  /** The PCM of the events that carry some. */
  function HeardPcm(es: seq<Event>): seq<Byte> {
    if es == [] then []
    else HeardPcm(Init(es)) + (if Last(es).kind == "start" || Last(es).kind == "speeching" then Last(es).pcm else [])
  }

  /** Where the events begin that make up the buffer: behind the last `end`, or at a later
      `start`. */
  predicate OpensAt(es: seq<Event>, k: nat) {
    && k <= |es|
    && (k == 0 || es[k - 1].kind == "end" || (k < |es| && es[k].kind == "start"))
    && (forall j | k <= j < |es| :: es[j].kind != "end")
    && (forall j | k < j < |es| :: es[j].kind != "start")
  }

  /** Whatever the events are, a client's buffer is the PCM since its last `start`, or its
      last `end` if that came later. */
  lemma {:induction false} BufferIsHeard(es: seq<Event>, id: string, k: nat)
    requires OpensAt(EventsFor(es, id), k)
    ensures Run(es).Buffer(id) == HeardPcm(EventsFor(es, id)[k..])
  {
    Isolation(es, id);
    EventsForOwn(es, id);
    OwnBuffer(EventsFor(es, id), id, k);
  }

  lemma {:induction false} EventsForOwn(es: seq<Event>, id: string)
    ensures forall e | e in EventsFor(es, id) :: e.id == id
  {
    if es != [] {
      EventsForOwn(Init(es), id);
    }
  }

  lemma {:induction false} OwnBuffer(es: seq<Event>, id: string, k: nat)
    requires OpensAt(es, k) && forall e | e in es :: e.id == id
    ensures Run(es).Buffer(id) == HeardPcm(es[k..])
  {
    if es != [] {
      var e := Last(es);
      assert e in es;
      if k == |es| {
        assert es[k..] == [];
      } else {
        assert es[k..] == Init(es)[k..] + [e];
        InitLast(Init(es)[k..], e);
        if e.kind == "start" {
          assert k == |es| - 1 && Init(es)[k..] == [];
        } else {
          OwnBuffer(Init(es), id, k);
        }
      }
    }
  }

  /** And the transcriber is called for exactly the `end`s that find a buffer of one or
      more whole samples, with that buffer's audio. */
  lemma EndTranscribes(es: seq<Event>, e: Event, id: string)
    ensures var b := Run(es).Buffer(id);
            TranscriptsOf(Run(es + [e]).transcripts, id) == TranscriptsOf(Run(es).transcripts, id) +
              if e.id == id && e.kind == "end" && |b| > 0 && |b| % 2 == 0 then [Audio(b)] else []
  {
    InitLast(es, e);
    var before, made := Run(es).transcripts, Transcribed(e.id, Run(es).Buffer(e.id));
    assert TranscriptsOf(before, id) + [] == TranscriptsOf(before, id) && before + [] == before;
    if made != [] {
      InitLast(before, made[0]);
      assert before + made == before + [made[0]];
    }
  }

  // ---- clients do not touch one another ----

  function EventsFor(es: seq<Event>, id: string): seq<Event> {
    if es == [] then []
    else EventsFor(Init(es), id) + (if Last(es).id == id then [Last(es)] else [])
  }

  function TranscriptsOf(ts: seq<Transcript>, id: string): seq<seq<real>> {
    if ts == [] then []
    else TranscriptsOf(Init(ts), id) + (if Last(ts).id == id then [Last(ts).audio] else [])
  }

  /** In whatever order the pool takes the events of different clients, each client's
      buffer and transcripts are those of running its own events alone. */
  lemma {:induction false} Isolation(es: seq<Event>, id: string)
    ensures var all, own := Run(es), Run(EventsFor(es, id));
            && all.Buffer(id) == own.Buffer(id)
            && TranscriptsOf(all.transcripts, id) == TranscriptsOf(own.transcripts, id)
  {
    if es != [] {
      Isolation(Init(es), id);
      IsolatedStep(Run(Init(es)), Run(EventsFor(Init(es), id)), Last(es), id);
      if Last(es).id == id {
        InitLast(EventsFor(Init(es), id), Last(es));
      } else {
        assert EventsFor(es, id) == EventsFor(Init(es), id);
      }
    }
  }

  lemma IsolatedStep(all: Server, own: Server, e: Event, id: string)
    requires all.Buffer(id) == own.Buffer(id) && TranscriptsOf(all.transcripts, id) == TranscriptsOf(own.transcripts, id)
    ensures var a, o := Handle(all, e), if e.id == id then Handle(own, e) else own;
            && a.Buffer(id) == o.Buffer(id)
            && TranscriptsOf(a.transcripts, id) == TranscriptsOf(o.transcripts, id)
  {
    var made := Transcribed(e.id, all.Buffer(e.id));
    if made != [] {
      InitLast(all.transcripts, made[0]);
      InitLast(own.transcripts, made[0]);
      assert all.transcripts + made == all.transcripts + [made[0]];
      assert own.transcripts + made == own.transcripts + [made[0]];
      assert TranscriptsOf(all.transcripts, id) + [] == TranscriptsOf(all.transcripts, id);
    } else {
      assert all.transcripts + made == all.transcripts && own.transcripts + made == own.transcripts;
    }
  }

  /** Within one client the order does matter, and the pool does not keep it: an `end`
      handled before the last chunk loses that chunk. */
  lemma OrderWithinClientMatters(id: string, a: seq<Byte>, b: seq<Byte>)
    requires |a| > 0 && |a| % 2 == 0 && |b| > 0 && |b| % 2 == 0
    ensures var start, more, end := Event(id, "start", a), Event(id, "speeching", b), Event(id, "end", []);
            && Run([start, more, end]).transcripts == [Transcript(id, Audio(a + b))]
            && Run([start, end, more]).transcripts == [Transcript(id, Audio(a))]
  {
    var start, more, end := Event(id, "start", a), Event(id, "speeching", b), Event(id, "end", []);
    assert Init([start, more, end]) == [start, more] && Init([start, more]) == [start] && Init([start]) == [];
    assert Init([start, end, more]) == [start, end] && Init([start, end]) == [start];
    assert Run([start]) == Server(map[id := a], []);
    assert Run([start, more]) == Server(map[id := a + b], []);
    assert Run([start, end]) == Server(map[id := []], [Transcript(id, Audio(a))]);
  }

  // ---- one client's chunks ----

  function Events(id: string, cs: seq<Chunk>): seq<Event> {
    seq(|cs|, i requires 0 <= i < |cs| => EventOf(VoiceOf(id, cs[i])))
  }

  /** Every chunk but an `end` carries PCM, in whole samples. */
  predicate Audible(cs: seq<Chunk>) {
    forall i | 0 <= i < |cs| ::
      if cs[i].kind.End? then cs[i].payload == [] else 0 < |cs[i].payload| && |cs[i].payload| % 2 == 0
  }

  function Transcripts(id: string, bs: seq<seq<Byte>>): seq<Transcript> {
    if bs == [] then [] else Transcripts(id, Init(bs)) + Transcribed(id, Last(bs))
  }

  lemma EventsAppend(id: string, cs: seq<Chunk>)
    requires cs != []
    ensures Events(id, cs) == Events(id, Init(cs)) + [EventOf(VoiceOf(id, Last(cs)))]
  {
  }

  /** If the labels follow the grammar, the server's buffer is what was sent since the
      last `end` and it transcribes what was sent between two of them; and a `start`
      never finds a buffer with something in it. */
  lemma {:induction false} Assembles(id: string, cs: seq<Chunk>)
    requires Grammar(cs)
    ensures var s := Run(Events(id, cs));
            && s.Buffer(id) == OpenPayload(cs)
            && s.transcripts == Transcripts(id, ClosedPayloads(cs))
    ensures cs != [] && Last(cs).kind.Start? ==> Run(Events(id, Init(cs))).Buffer(id) == []
  {
    if cs != [] {
      assert forall i | 0 <= i < |Init(cs)| :: LabelledAt(cs, i) ==> LabelledAt(Init(cs), i);
      Assembles(id, Init(cs));
      EventsAppend(id, cs);
      InitLast(Events(id, Init(cs)), EventOf(VoiceOf(id, Last(cs))));
      assert LabelledAt(cs, |cs| - 1);
      if Last(cs).kind.End? {
        InitLast(ClosedPayloads(Init(cs)), OpenPayload(Init(cs)));
      }
    }
  }

  /** If no chunk is labelled `speeching`, each one replaces the buffer: the server
      transcribes the last chunk before an `end`, and nothing of what came before. */
  function LastPayload(cs: seq<Chunk>): seq<Byte> {
    if cs == [] || Last(cs).kind.End? then [] else Last(cs).payload
  }

  function LastPayloads(cs: seq<Chunk>): seq<seq<Byte>> {
    if cs == [] then []
    else if Last(cs).kind.End? then LastPayloads(Init(cs)) + [LastPayload(Init(cs))]
    else LastPayloads(Init(cs))
  }

  lemma {:induction false} Replaces(id: string, cs: seq<Chunk>)
    requires forall c | c in cs :: !c.kind.Speeching?
    ensures var s := Run(Events(id, cs));
            && s.Buffer(id) == LastPayload(cs)
            && s.transcripts == Transcripts(id, LastPayloads(cs))
  {
    if cs != [] {
      Replaces(id, Init(cs));
      EventsAppend(id, cs);
      InitLast(Events(id, Init(cs)), EventOf(VoiceOf(id, Last(cs))));
      assert Last(cs) in cs;
      if Last(cs).kind.End? {
        InitLast(LastPayloads(Init(cs)), LastPayload(Init(cs)));
      }
    }
  }

  // ---- the server ----

  class SttProcess {
    var clientPcmBuffers: map<string, seq<Byte>>
    /** The audio given to the transcriber so far. */
    var transcribed: seq<Transcript>

    function State(): Server
      reads this
    {
      Server(clientPcmBuffers, transcribed)
    }

    constructor ()
      ensures State() == INITIAL
    {
      clientPcmBuffers, transcribed := map[], [];
    }

    method HandleEvent(clientId: string, eventType: string, pcmData: seq<Byte>)
      modifies this
      ensures State() == Handle(old(State()), Event(clientId, eventType, pcmData))
    {
      if eventType == "start" {
        clientPcmBuffers := clientPcmBuffers[clientId := pcmData];
      } else if eventType == "speeching" {
        var buffer := if clientId in clientPcmBuffers then clientPcmBuffers[clientId] else [];
        clientPcmBuffers := clientPcmBuffers[clientId := buffer + pcmData];
      } else if eventType == "end" {
        var buffer := if clientId in clientPcmBuffers then clientPcmBuffers[clientId] else [];
        if |buffer| > 0 {
          if |buffer| % 2 == 0 {
            transcribed := transcribed + [Transcript(clientId, Audio(buffer))];
          }
        }
        clientPcmBuffers := clientPcmBuffers[clientId := []];
      }
    }
  }
}
