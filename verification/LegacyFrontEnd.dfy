/** RTCLegacyVad as an object: `pushPCM` cuts its input into 10 ms blocks, and resamples
    and judges them one after the other.  Downmix, resampler and detector are external;
    R and W are the states of the last two. */
module LegacyFrontEnd {
  import opened Std
  import opened Blocks
  import opened VadInterface
  import opened ChunkPacker
  import opened LegacyVad
  import Pcm

  const PASSIVE := 0
  const ACTIVE := 1

  datatype Dsp<!R, !W> = Dsp(
    downmix: seq<Int16> -> seq<Int16>,
    resample: (R, seq<Int16>) -> (R, seq<Int16>),
    judge: (W, seq<Int16>) -> (W, int))

  ghost predicate Sound<R(!new), W(!new)>(dsp: Dsp<R, W>) {
    && (forall x :: |dsp.downmix(x)| == |x| / 2)
    && (forall r, x :: |dsp.resample(r, x).1| == SAMPLES_16KHZ_10MS)
  }

  function Meaning(pcm: seq<Int16>, activity: int): Verdict {
    if activity == ACTIVE then Voice(Pcm.Bytes(pcm)) else if activity == PASSIVE then Silence else Error
  }

  /** The states of the external code, and the verdicts, after n blocks. */
  datatype Heard<R, W> = Heard(resampler: R, judge: W, verdicts: seq<Verdict>)

  ghost function Hear<R(!new), W(!new)>(dsp: Dsp<R, W>, r: R, w: W, x: seq<Int16>, s: nat, n: nat): (h: Heard<R, W>)
    requires Sound(dsp) && n * s <= |x|
    ensures |h.verdicts| == n && Framed(h.verdicts)
  {
    if n == 0 then Heard(r, w, [])
    else
      BlockInside(n - 1, n, s, |x|);
      HearBlock(dsp, Hear(dsp, r, w, x, s, n - 1), Block(x, s, n - 1))
  }

  ghost function HearBlock<R(!new), W(!new)>(dsp: Dsp<R, W>, before: Heard<R, W>, block: seq<Int16>): (h: Heard<R, W>)
    requires Sound(dsp)
    ensures Framed(before.verdicts) ==> Framed(h.verdicts)
  {
    var (resampler, pcm) := dsp.resample(before.resampler, block);
    var (judge, activity) := dsp.judge(before.judge, pcm);
    Heard(resampler, judge, before.verdicts + [Meaning(pcm, activity)])
  }

  lemma HearStep<R(!new), W(!new)>(dsp: Dsp<R, W>, r: R, w: W, x: seq<Int16>, s: nat, i: nat, at: nat)
    requires Sound(dsp) && at == i * s && at + s == (i + 1) * s <= |x|
    ensures Hear(dsp, r, w, x, s, i + 1) == HearBlock(dsp, Hear(dsp, r, w, x, s, i), x[at..at + s])
  {
  }

  // ---- the signal path frame by frame, said without the functions above ----

  /** One block of a call: what the resampler and the judge return, with their states
      before and after. */
  datatype Pass<R, W> = Pass(out: seq<Int16>, activity: int, resampler: R, resamplerAfter: R, judge: W, judgeAfter: W)

  ghost predicate IsPass<R(!new), W(!new)>(dsp: Dsp<R, W>, block: seq<Int16>, p: Pass<R, W>) {
    && dsp.resample(p.resampler, block) == (p.resamplerAfter, p.out)
    && dsp.judge(p.judge, p.out) == (p.judgeAfter, p.activity)
  }

  /** A frame judged active is a voiced one with the resampled samples; 0 is silence; any
      other answer is an error. */
  predicate Says<R, W>(verdict: Verdict, p: Pass<R, W>) {
    match verdict
    case Voice(pcm) =>
      && p.activity == 1 && |pcm| == 2 * |p.out|
      && forall j | 0 <= j < |p.out| :: Pcm.Signed(pcm, j) == p.out[j]
    case Silence => p.activity == 0
    case Error => p.activity != 0 && p.activity != 1
  }

  /** The states the passes leave; r and w are those before the first. */
  function StatesAfter<R, W>(passes: seq<Pass<R, W>>, r: R, w: W): (R, W) {
    if passes == [] then (r, w) else (Last(passes).resamplerAfter, Last(passes).judgeAfter)
  }

  /** Each pass finds the states that those before it left. */
  predicate Chained<R(==), W(==)>(passes: seq<Pass<R, W>>, r: R, w: W) {
    forall i | 0 <= i < |passes| :: Finds(passes[i], StatesAfter(passes[..i], r, w))
  }

  predicate Finds<R(==), W(==)>(p: Pass<R, W>, states: (R, W)) {
    (p.resampler, p.judge) == states
  }

  lemma MeaningSays<R, W>(p: Pass<R, W>)
    ensures Says(Meaning(p.out, p.activity), p)
  {
    forall j | 0 <= j < |p.out|
      ensures Pcm.Signed(Pcm.Bytes(p.out), j) == p.out[j]
    {
      Pcm.BytesAreLittleEndian(p.out, j);
    }
  }

  /** These passes, over these blocks in order, gave what was heard. */
  ghost predicate Explains<R(!new), W(!new)>(dsp: Dsp<R, W>, passes: seq<Pass<R, W>>, blocks: seq<seq<Int16>>, r: R, w: W, heard: Heard<R, W>) {
    && |passes| == |blocks| == |heard.verdicts|
    && (forall i | 0 <= i < |passes| :: IsPass(dsp, blocks[i], passes[i]))
    && (forall i | 0 <= i < |passes| :: Says(heard.verdicts[i], passes[i]))
    && Chained(passes, r, w)
    && (heard.resampler, heard.judge) == StatesAfter(passes, r, w)
  }

  lemma ChainedNext<R, W>(passes: seq<Pass<R, W>>, r: R, w: W, p: Pass<R, W>)
    requires Chained(passes, r, w) && Finds(p, StatesAfter(passes, r, w))
    ensures Chained(passes + [p], r, w)
  {
    var ps := passes + [p];
    forall i | 0 <= i < |ps|
      ensures Finds(ps[i], StatesAfter(ps[..i], r, w))
    {
      assert ps[..i] == passes[..i];
    }
    assert passes[..|passes|] == passes;
  }

  lemma ExplainsNext<R(!new), W(!new)>(dsp: Dsp<R, W>, passes: seq<Pass<R, W>>, blocks: seq<seq<Int16>>, r: R, w: W, before: Heard<R, W>, block: seq<Int16>, p: Pass<R, W>, heard: Heard<R, W>)
    requires Explains(dsp, passes, blocks, r, w, before) && IsPass(dsp, block, p)
    requires p.resampler == before.resampler && p.judge == before.judge
    requires heard == Heard(p.resamplerAfter, p.judgeAfter, before.verdicts + [Meaning(p.out, p.activity)])
    ensures Explains(dsp, passes + [p], blocks + [block], r, w, heard)
  {
    var n, ps := |passes|, passes + [p];
    MeaningSays(p);
    ChainedNext(passes, r, w, p);
    InitLast(passes, p);
    forall i | 0 <= i < |ps|
      ensures IsPass(dsp, (blocks + [block])[i], ps[i]) && Says(heard.verdicts[i], ps[i])
    {
      if i < n {
        assert IsPass(dsp, blocks[i], passes[i]) && Says(before.verdicts[i], passes[i]);
      }
    }
  }

  /** What a call makes of its downmixed input: every whole block is resampled and the
      result judged, each in its turn, and there is one verdict for each. */
  lemma {:induction false} HeardPasses<R(!new), W(!new)>(dsp: Dsp<R, W>, r: R, w: W, x: seq<Int16>, s: nat, n: nat)
      returns (passes: seq<Pass<R, W>>)
    requires Sound(dsp) && n * s <= |x|
    ensures Explains(dsp, passes, BlocksOf(x, s, n), r, w, Hear(dsp, r, w, x, s, n))
  {
    if n == 0 {
      passes := [];
    } else {
      BlockInside(n - 1, n, s, |x|);
      var before, block := Hear(dsp, r, w, x, s, n - 1), Block(x, s, n - 1);
      var earlier := HeardPasses(dsp, r, w, x, s, n - 1);
      var (resampler, out) := dsp.resample(before.resampler, block);
      var (judge, activity) := dsp.judge(before.judge, out);
      var p := Pass(out, activity, before.resampler, resampler, before.judge, judge);
      ExplainsNext(dsp, earlier, BlocksOf(x, s, n - 1), r, w, before, block, p, HearBlock(dsp, before, block));
      passes := earlier + [p];
    }
  }

  class Detector<R(!new), W(!new)> {
    const dsp: Dsp<R, W>
    const isSendStt: bool
    var samplingRate: nat
    var resampler: R
    var judge: W
    const mono: array<Int16>
    const pcm16: array<Int16>
    var isSpeech: bool
    var passives: nat
    const packer: SttPacker

    /** Between calls the pending buffer holds whole frames and has room for one more. */
    ghost predicate Valid()
      reads `isSpeech, `passives, packer, packer.pending
    {
      && Sound(dsp) && packer.Valid() && WholeFrames(State())
      && mono.Length == pcm16.Length == MAX_PCM_BUFFER && mono != pcm16
      && (packer.pending != null ==> Distinct(packer.pending))
    }

    ghost predicate Distinct(o: object) {
      o != mono && o != pcm16
    }

    ghost function State(): Vad
      requires packer.Valid()
      reads `isSpeech, `passives, packer, packer.pending
    {
      Vad(isSpeech, passives, packer.State())
    }

    constructor (dsp: Dsp<R, W>, r: R, w: W, send: bool)
      requires Sound(dsp)
      ensures Valid() && State() == INITIAL_VAD && packer.sent == []
      ensures this.dsp == dsp && isSendStt == send && fresh(mono) && fresh(pcm16) && fresh(packer)
    {
      this.dsp, isSendStt, samplingRate, resampler, judge := dsp, send, 0, r, w;
      mono := new Int16[MAX_PCM_BUFFER];
      pcm16 := new Int16[MAX_PCM_BUFFER];
      isSpeech, passives := false, 0;
      packer := new SttPacker();
    }

    method SetConfig(rate: nat, r: R, w: W)
      requires Valid()
      modifies `samplingRate, `resampler, `judge
      ensures Valid() && State() == old(State())
      ensures samplingRate == rate && resampler == r && judge == w
    {
      samplingRate, resampler, judge := rate, r, w;
    }

    /** `samples` counts frames of two interleaved channels; no copy leaves a buffer. */
    method PushPcm(pcm: array<Int16>, samples: nat)
      requires Valid() && Distinct(pcm) && 2 * samples <= pcm.Length && samples <= MAX_PCM_BUFFER
      requires samplingRate / 100 > 0
      modifies this, mono, pcm16, packer, packer.pending
      ensures Valid() && samplingRate == old(samplingRate)
      ensures var s := samplingRate / 100;
              var x := dsp.downmix(old(pcm[..2 * samples]));
              && |x| == samples && samples / s * s <= samples
              && var heard := Hear(dsp, old(resampler), old(judge), x, s, samples / s);
                 var (v, out) := Feed(old(State()), heard.verdicts, isSendStt);
                 && resampler == heard.resampler && judge == heard.judge
                 && State() == v && packer.sent == old(packer.sent) + out
    {
      var s := samplingRate / 100;
      WholeBlocks(samples, s);
      ghost var x := dsp.downmix(pcm[..2 * samples]);
      Downmix(pcm, samples);
      PushBlocks(x, samples, s, samples / s);
    }

    method Downmix(pcm: array<Int16>, samples: nat)
      requires Valid() && Distinct(pcm) && 2 * samples <= pcm.Length && samples <= MAX_PCM_BUFFER
      modifies mono
      ensures mono[..samples] == dsp.downmix(old(pcm[..2 * samples]))
    {
      var x := dsp.downmix(pcm[..2 * samples]);
      forall i | 0 <= i < samples {
        mono[i] := x[i];
      }
      assert mono[..samples] == x;
    }

    /** The loop over the blocks. */
    method PushBlocks(ghost x: seq<Int16>, samples: nat, s: nat, n: nat)
      requires Valid() && samples <= MAX_PCM_BUFFER && mono[..samples] == x && n * s <= samples
      modifies `resampler, `judge, `isSpeech, `passives, pcm16, packer, packer.pending
      ensures Valid()
      ensures Processed(Hear(dsp, old(resampler), old(judge), x, s, n), old(State()), old(packer.sent))
    {
      ghost var r, w, v0, sent := resampler, judge, State(), packer.sent;
      assert Processed(Hear(dsp, r, w, x, s, 0), v0, sent);
      for i := 0 to n
        invariant i * s <= samples && mono[..samples] == x
        invariant Valid() && (packer.pending == old(packer.pending) || packer.pending == null || fresh(packer.pending))
        invariant Processed(Hear(dsp, r, w, x, s, i), v0, sent)
      {
        BlockInside(i, n, s, samples);
        PushNext(r, w, x, samples, s, i, i * s, v0, sent);
      }
    }

    /** One turn of the loop. */
    method PushNext(ghost r: R, ghost w: W, ghost x: seq<Int16>, samples: nat, s: nat, ghost i: nat, at: nat,
                    ghost v0: Vad, ghost sent: seq<Chunk>)
      requires Valid() && samples <= MAX_PCM_BUFFER && mono[..samples] == x
      requires at == i * s && at + s == (i + 1) * s <= samples
      requires Processed(Hear(dsp, r, w, x, s, i), v0, sent)
      modifies `resampler, `judge, `isSpeech, `passives, pcm16, packer, packer.pending
      ensures Valid()
      ensures packer.pending == old(packer.pending) || packer.pending == null || fresh(packer.pending)
      ensures Processed(Hear(dsp, r, w, x, s, i + 1), v0, sent)
    {
      HearStep(dsp, r, w, x, s, i, at);
      var block := mono[at..at + s];
      assert forall j | 0 <= j < s :: block[j] == mono[..samples][at + j];
      assert block == x[at..at + s];
      PushBlock(block, Hear(dsp, r, w, x, s, i), v0, sent);
    }

    /** The object is where these verdicts lead from the state v0. */
    ghost predicate Processed(heard: Heard<R, W>, v0: Vad, sent: seq<Chunk>)
      requires packer.Valid()
      reads `resampler, `judge, `isSpeech, `passives, packer, packer.pending
    {
      var (v, out) := Feed(v0, heard.verdicts, isSendStt);
      && resampler == heard.resampler && judge == heard.judge
      && State() == v && packer.sent == sent + out
    }

    /** One block: resampled, judged and processed. */
    method PushBlock(block: seq<Int16>, ghost before: Heard<R, W>, ghost v0: Vad, ghost sent: seq<Chunk>)
      requires Valid() && Processed(before, v0, sent)
      modifies `resampler, `judge, `isSpeech, `passives, pcm16, packer, packer.pending
      ensures Valid()
      ensures packer.pending == old(packer.pending) || packer.pending == null || fresh(packer.pending)
      ensures Processed(HearBlock(dsp, before, block), v0, sent)
    {
      ghost var v, verdicts := State(), before.verdicts;
      var activity := JudgeBlock(block);
      ghost var verdict := Meaning(pcm16[..SAMPLES_16KHZ_10MS], activity);
      FeedStep(v0, verdicts, verdict, isSendStt);
      Regroup(sent, Feed(v0, verdicts, isSendStt).1, LegacyVad.Step(v, verdict, isSendStt).1);
      Process16Khz10Ms(activity);
    }

    /** One block, resampled and judged. */
    method JudgeBlock(block: seq<Int16>) returns (activity: int)
      requires Valid()
      modifies `resampler, `judge, pcm16
      ensures Valid() && State() == old(State())
      ensures var (r, pcm) := dsp.resample(old(resampler), block);
              var (w, a) := dsp.judge(old(judge), pcm);
              resampler == r && judge == w && activity == a && pcm16[..SAMPLES_16KHZ_10MS] == pcm
    {
      var (r, pcm) := dsp.resample(resampler, block);
      resampler := r;
      forall i | 0 <= i < SAMPLES_16KHZ_10MS {
        pcm16[i] := pcm[i];
      }
      assert pcm16[..SAMPLES_16KHZ_10MS] == pcm;
      var (w, a) := dsp.judge(judge, pcm16[..SAMPLES_16KHZ_10MS]);
      judge := w;
      activity := a;
    }

    method Process16Khz10Ms(activity: int)
      requires Valid()
      modifies `isSpeech, `passives, packer, packer.pending
      ensures Valid()
      ensures packer.pending == old(packer.pending) || packer.pending == null || fresh(packer.pending)
      ensures var (v, out) := LegacyVad.Step(old(State()), Meaning(old(pcm16[..SAMPLES_16KHZ_10MS]), activity), isSendStt);
              State() == v && packer.sent == old(packer.sent) + out
    {
      BoundedStep(State(), Meaning(pcm16[..SAMPLES_16KHZ_10MS], activity));
      if activity == ACTIVE {
        passives := 0;
        if !packer.isStart {
          isSpeech := true;
          packer.isStart := true;
          if isSendStt {
            packer.SendPcm(pcm16, SAMPLES_16KHZ_10MS);
          }
        } else {
          if isSendStt {
            packer.SendPcm(pcm16, SAMPLES_16KHZ_10MS);
          }
        }
      } else if activity == PASSIVE {
        if isSpeech {
          passives := passives + 1;
          if passives > NON_SPEECH_THRESHOLD {
            isSpeech := false;
            if isSendStt {
              packer.SendEnd();
            }
          }
        }
      }
    }
  }
}
