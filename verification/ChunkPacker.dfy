/** The `_send_stt_pcm` routine that both voice-activity detectors have: it packs
    active PCM into buffers of MAX_PENDING bytes and labels them. */
module ChunkPacker {
  import opened Std
  import opened VadInterface
  import Pcm

  datatype Label = Start | Speeching | End
  datatype Chunk = Chunk(kind: Label, payload: seq<Byte>)

  // ---- what a stream of chunks means, whatever its start and speeching labels ----

  /** The bytes sent since the last `end`. */
  function OpenPayload(cs: seq<Chunk>): seq<Byte> {
    if cs == [] || Last(cs).kind.End? then [] else OpenPayload(Init(cs)) + Last(cs).payload
  }

  /** For every `end`, the bytes sent since the one before it. */
  function ClosedPayloads(cs: seq<Chunk>): seq<seq<Byte>> {
    if cs == [] then []
    else if Last(cs).kind.End? then ClosedPayloads(Init(cs)) + [OpenPayload(Init(cs))]
    else ClosedPayloads(Init(cs))
  }

  /** All the PCM of a stream. */
  function Payloads(cs: seq<Chunk>): seq<Byte> {
    if cs == [] then [] else Payloads(Init(cs)) + (if Last(cs).kind.End? then [] else Last(cs).payload)
  }

  lemma {:induction false} PayloadsSplit(cs: seq<Chunk>)
    ensures Payloads(cs) == Concat(ClosedPayloads(cs)) + OpenPayload(cs)
  {
    if cs != [] {
      PayloadsSplit(Init(cs));
      ConcatAppend(ClosedPayloads(Init(cs)), OpenPayload(Init(cs)));
    }
  }

  /** The labels are a prefix of (start speeching* end)*: a chunk is a `start` exactly
      when it is the first one or follows an `end`. */
  predicate Grammar(cs: seq<Chunk>) {
    forall i | 0 <= i < |cs| :: LabelledAt(cs, i)
  }

  predicate LabelledAt(cs: seq<Chunk>, i: nat)
    requires i < |cs|
  {
    cs[i].kind.Start? <==> (i == 0 || cs[i - 1].kind.End?)
  }

  /** Chunks that carry PCM are full, except that the one before an `end` may be short;
      each holds one or more whole blocks, and an `end` carries nothing. */
  predicate WellSized(cs: seq<Chunk>) {
    forall i | 0 <= i < |cs| :: SizedAt(cs, i)
  }

  predicate SizedAt(cs: seq<Chunk>, i: nat)
    requires i < |cs|
  {
    if cs[i].kind.End? then cs[i].payload == []
    else
      && 0 < |cs[i].payload| <= MAX_PENDING && |cs[i].payload| % BLOCK_BYTES == 0
      && (|cs[i].payload| == MAX_PENDING || (i + 1 < |cs| && cs[i + 1].kind.End?))
  }

  lemma GrammarAppend(cs: seq<Chunk>, out: seq<Chunk>)
    requires Grammar(cs)
    requires forall i | 0 < i < |out| :: LabelledAt(out, i)
    requires out != [] ==> (out[0].kind.Start? <==> (cs == [] || Last(cs).kind.End?))
    ensures Grammar(cs + out)
  {
    forall i | 0 <= i < |cs + out|
      ensures LabelledAt(cs + out, i)
    {
      if i > |cs| {
        assert LabelledAt(out, i - |cs|);
      } else if i < |cs| {
        assert LabelledAt(cs, i);
      }
    }
  }

  lemma WellSizedAppend(cs: seq<Chunk>, out: seq<Chunk>)
    requires WellSized(cs) && WellSized(out)
    ensures WellSized(cs + out)
  {
    forall i | 0 <= i < |cs + out|
      ensures SizedAt(cs + out, i)
    {
      if i < |cs| {
        assert SizedAt(cs, i);
      } else {
        assert SizedAt(out, i - |cs|);
      }
    }
  }

  // ---- the packer as a function on its state ----

  datatype Packer = Packer(isStart: bool, pending: Option<seq<Byte>>) {
    function Pending(): seq<Byte> {
      if pending.Some? then pending.value else []
    }

    function NextLabel(): Label {
      if isStart then Start else Speeching
    }

    /** The copy stays inside the pending buffer. */
    predicate Fits(bytes: seq<Byte>) {
      |Pending()| + |bytes| <= MAX_PENDING
    }
  }

  /** Adding PCM.  The flush test is an equality, so a buffer that steps over
      MAX_PENDING is kept and never flushed. */
  function Add(p: Packer, bytes: seq<Byte>): (Packer, seq<Chunk>) {
    var buffer := p.Pending() + bytes;
    if |buffer| == MAX_PENDING then (Packer(false, None), [Chunk(p.NextLabel(), buffer)])
    else (Packer(p.isStart, Some(buffer)), [])
  }

  function Finish(p: Packer): (Packer, seq<Chunk>) {
    match p.pending
    case Some(buffer) => (Packer(false, None), [Chunk(p.NextLabel(), buffer), Chunk(End, [])])
    case None => (p, [Chunk(End, [])])
  }

  /** The state of either detector. */
  datatype Vad = Vad(isSpeech: bool, passives: nat, packer: Packer)

  const INITIAL_VAD := Vad(false, 0, Packer(false, None))

  // ---- conservation ----

  lemma AddConserves(p: Packer, bytes: seq<Byte>, cs: seq<Chunk>)
    ensures var (q, out) := Add(p, bytes);
            && OpenPayload(cs + out) + q.Pending() == OpenPayload(cs) + p.Pending() + bytes
            && ClosedPayloads(cs + out) == ClosedPayloads(cs)
  {
    var (q, out) := Add(p, bytes);
    if out == [] {
      assert cs + out == cs;
    } else {
      InitLast(cs, out[0]);
    }
  }

  lemma FinishCloses(p: Packer, cs: seq<Chunk>)
    ensures var (q, out) := Finish(p);
            && OpenPayload(cs + out) == [] && q.pending == None
            && ClosedPayloads(cs + out) == ClosedPayloads(cs) + [OpenPayload(cs) + p.Pending()]
  {
    var (q, out) := Finish(p);
    if p.pending.Some? {
      InitLast(cs, out[0]);
      InitLast(cs + [out[0]], out[1]);
      assert cs + out == cs + [out[0]] + [out[1]];
    } else {
      InitLast(cs, out[0]);
      assert OpenPayload(cs) + p.Pending() == OpenPayload(cs);
    }
  }

  // ---- sizes ----

  lemma AddSized(p: Packer, bytes: seq<Byte>)
    requires |bytes| > 0 && (|p.Pending()| + |bytes|) % BLOCK_BYTES == 0
    ensures WellSized(Add(p, bytes).1)
  {
    var out := Add(p, bytes).1;
    assert out != [] ==> SizedAt(out, 0);
  }

  lemma FinishSized(p: Packer)
    requires p.pending.Some? ==> 0 < |p.Pending()| <= MAX_PENDING && |p.Pending()| % BLOCK_BYTES == 0
    ensures WellSized(Finish(p).1)
  {
    var out := Finish(p).1;
    assert SizedAt(out, 0) && (|out| == 2 ==> SizedAt(out, 1));
  }

  // ---- the routine itself ----

  class SttPacker {
    var pending: array?<Byte>
    var size: nat
    var isStart: bool
    /** Everything handed to the peer's VoiceActive so far. */
    var sent: seq<Chunk>

    ghost predicate Valid()
      reads this, pending
    {
      if pending == null then size == 0 else pending.Length == MAX_PENDING && size <= MAX_PENDING
    }

    ghost function State(): Packer
      requires Valid()
      reads this, pending
    {
      Packer(isStart, if pending == null then None else Some(pending[..size]))
    }

    constructor ()
      ensures Valid() && State() == Packer(false, None) && sent == []
    {
      pending, size, isStart, sent := null, 0, false, [];
    }

    method SendPcm(pcm: array<Int16>, samples: nat)
      requires Valid() && samples <= pcm.Length
      requires State().Fits(Pcm.Bytes(pcm[..samples]))
      modifies this, pending
      ensures Valid() && (pending == old(pending) || pending == null || fresh(pending))
      ensures var (q, out) := Add(old(State()), old(Pcm.Bytes(pcm[..samples])));
              State() == q && sent == old(sent) + out
    {
      ghost var before, bytes := State(), Pcm.Bytes(pcm[..samples]);
      if pending == null {
        pending := new Byte[MAX_PENDING];
        size := 0;
      }
      assert pending[..size] == before.Pending();
      var source := Pcm.Bytes(pcm[..samples]);
      forall i | 0 <= i < |source| {
        pending[size + i] := source[i];
      }
      size := size + 2 * samples;
      assert pending[..size] == before.Pending() + bytes;
      if size == MAX_PENDING {
        Flush();
      }
    }

    method SendEnd()
      requires Valid()
      modifies this
      ensures Valid() && pending == null
      ensures var (q, out) := Finish(old(State()));
              State() == q && sent == old(sent) + out
    {
      if pending != null {
        Flush();
      }
      sent := sent + [Chunk(End, [])];
    }

    method Flush()
      requires Valid() && pending != null
      modifies this
      ensures Valid() && State() == Packer(false, None)
      ensures sent == old(sent) + [Chunk(old(State()).NextLabel(), old(pending[..size]))]
    {
      var kind := Speeching;
      if isStart {
        isStart := false;
        kind := Start;
      }
      sent := sent + [Chunk(kind, pending[..size])];
      pending, size := null, 0;
    }
  }
}
