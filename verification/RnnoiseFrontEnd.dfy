/** RTCRNNoiseVad as an object: the block arithmetic of `pushPCM` on its fixed-size
    buffers, feeding the speech state machine of RnnoiseVad.

    Downmix, rnnoise and the resampler are external code.  They are parameters: D and R
    are the states of the denoiser and of the resampler, which may depend on everything
    they were given before. */
module RnnoiseFrontEnd {
  import opened Std
  import opened Speech
  import opened Blocks
  import opened VadInterface
  import opened ChunkPacker
  import RnnoiseVad
  import Pcm

  /** The binary32 value of the literal 0.6f. */
  const ACTIVE_PROBABILITY: real := 10066330.0 / 16777216.0

  datatype Dsp<!D, !R> = Dsp(
    downmix: seq<Int16> -> seq<Int16>,
    denoise: (D, seq<real>) -> (D, real, seq<real>),
    resample: (R, seq<Int16>) -> (R, seq<Int16>))

  /** What the code relies on: the block sizes. */
  ghost predicate Sound<D(!new), R(!new)>(dsp: Dsp<D, R>) {
    && (forall x :: |dsp.downmix(x)| == |x| / 2)
    && (forall d, x :: |dsp.denoise(d, x).2| == |x|)
    && (forall r, x :: |dsp.resample(r, x).1| == SAMPLES_16KHZ_10MS)
  }

  function ToFloats(x: seq<Int16>): (y: seq<real>)
    ensures |y| == |x|
  {
    seq(|x|, i requires 0 <= i < |x| => x[i] as real)
  }

  /** static_cast<int32_t> on the values an int32 can hold: towards zero. */
  function Truncate(x: real): int {
    if x >= 0.0 then x.Floor else -((-x).Floor)
  }

  function ClampInt16(x: int): Int16 {
    if x > 32767 then 32767 else if x < -32768 then -32768 else x
  }

  function ToInt16s(x: seq<real>): (y: seq<Int16>)
    ensures |y| == |x|
  {
    seq(|x|, i requires 0 <= i < |x| => ClampInt16(Truncate(x[i])))
  }

  // ---- the blocks ----

  datatype Denoised<D> = Denoised(state: D, peak: real, samples: seq<real>)

  /** The first n blocks denoised one after the other; the rest of the buffer is kept. */
  ghost function DenoiseBlocks<D(!new), R(!new)>(dsp: Dsp<D, R>, d: D, x: seq<real>, s: nat, n: nat): (y: Denoised<D>)
    requires Sound(dsp) && n * s <= |x|
    ensures |y.samples| == |x| && y.samples[n * s..] == x[n * s..]
  {
    if n == 0 then Denoised(d, 0.0, x)
    else
      BlockInside(n - 1, n, s, |x|);
      var before := DenoiseBlocks(dsp, d, x, s, n - 1);
      var (state, probability, block) := dsp.denoise(before.state, Block(before.samples, s, n - 1));
      Denoised(state, if probability > before.peak then probability else before.peak,
               before.samples[..(n - 1) * s] + block + before.samples[n * s..])
  }

  lemma DenoiseStep<D(!new), R(!new)>(dsp: Dsp<D, R>, d: D, x: seq<real>, s: nat, i: nat, at: nat)
    requires Sound(dsp) && at == i * s && at + s == (i + 1) * s <= |x|
    ensures var before := DenoiseBlocks(dsp, d, x, s, i);
            var (state, probability, block) := dsp.denoise(before.state, before.samples[at..at + s]);
            DenoiseBlocks(dsp, d, x, s, i + 1)
            == Denoised(state, if probability > before.peak then probability else before.peak,
                        before.samples[..at] + block + before.samples[at + s..])
  {
  }

  /** The speech probability rnnoise reports for block i of the buffer. */
  ghost function Probability<D(!new), R(!new)>(dsp: Dsp<D, R>, d: D, x: seq<real>, s: nat, i: nat): real
    requires Sound(dsp)
  {
    if (i + 1) * s <= |x| then
      BlockInside(i, i + 1, s, |x|);
      dsp.denoise(DenoiseBlocks(dsp, d, x, s, i).state, Block(x, s, i)).1
    else 0.0
  }

  ghost predicate SomeBlockActive<D(!new), R(!new)>(dsp: Dsp<D, R>, d: D, x: seq<real>, s: nat, n: nat)
    requires Sound(dsp)
  {
    exists i | 0 <= i < n :: Probability(dsp, d, x, s, i) >= ACTIVE_PROBABILITY
  }

  /** The peak reaches the threshold exactly when some block's probability does. */
  lemma {:induction false} ActiveIffSomeBlock<D(!new), R(!new)>(dsp: Dsp<D, R>, d: D, x: seq<real>, s: nat, n: nat)
    requires Sound(dsp) && n * s <= |x|
    ensures DenoiseBlocks(dsp, d, x, s, n).peak >= ACTIVE_PROBABILITY <==> SomeBlockActive(dsp, d, x, s, n)
  {
    if n > 0 {
      BlockInside(n - 1, n, s, |x|);
      ActiveIffSomeBlock(dsp, d, x, s, n - 1);
      LastBlock(dsp, d, x, s, n);
      if SomeBlockActive(dsp, d, x, s, n) {
        var i :| 0 <= i < n && Probability(dsp, d, x, s, i) >= ACTIVE_PROBABILITY;
        assert i < n - 1 ==> SomeBlockActive(dsp, d, x, s, n - 1);
      }
    }
  }

  lemma LastBlock<D(!new), R(!new)>(dsp: Dsp<D, R>, d: D, x: seq<real>, s: nat, n: nat)
    requires Sound(dsp) && 0 < n && (n - 1) * s <= n * s <= |x|
    ensures var p, before := Probability(dsp, d, x, s, n - 1), DenoiseBlocks(dsp, d, x, s, n - 1).peak;
            DenoiseBlocks(dsp, d, x, s, n).peak == if p > before then p else before
  {
    BlockInside(n - 1, n, s, |x|);
    var before := DenoiseBlocks(dsp, d, x, s, n - 1).samples;
    assert Block(before, s, n - 1) == before[(n - 1) * s..][..s] == x[(n - 1) * s..][..s] == Block(x, s, n - 1);
  }

  ghost function ResampleBlocks<D(!new), R(!new)>(dsp: Dsp<D, R>, r: R, x: seq<Int16>, s: nat, n: nat): (y: (R, seq<Int16>))
    requires Sound(dsp) && n * s <= |x|
    ensures |y.1| == SAMPLES_16KHZ_10MS * n
  {
    if n == 0 then (r, [])
    else
      BlockInside(n - 1, n, s, |x|);
      var before := ResampleBlocks(dsp, r, x, s, n - 1);
      var (state, block) := dsp.resample(before.0, Block(x, s, n - 1));
      (state, before.1 + block)
  }

  lemma ResampleStep<D(!new), R(!new)>(dsp: Dsp<D, R>, r: R, x: seq<Int16>, s: nat, i: nat, at: nat)
    requires Sound(dsp) && at == i * s && at + s == (i + 1) * s <= |x|
    ensures var before := ResampleBlocks(dsp, r, x, s, i);
            var (state, block) := dsp.resample(before.0, x[at..at + s]);
            ResampleBlocks(dsp, r, x, s, i + 1) == (state, before.1 + block)
  {
  }

  /** Denoising in place leaves in block i what rnnoise makes of block i of the input. */
  lemma {:induction false} DenoisedBlock<D(!new), R(!new)>(dsp: Dsp<D, R>, d: D, x: seq<real>, s: nat, n: nat, i: nat)
    requires Sound(dsp) && i < n && n * s <= |x|
    ensures (BlockInside(i, n, s, |x|);
             Block(DenoiseBlocks(dsp, d, x, s, n).samples, s, i)
             == dsp.denoise(DenoiseBlocks(dsp, d, x, s, i).state, Block(x, s, i)).2)
  {
    BlockInside(i, n, s, |x|);
    BlockInside(n - 1, n, s, |x|);
    var before, after := DenoiseBlocks(dsp, d, x, s, n - 1).samples, DenoiseBlocks(dsp, d, x, s, n).samples;
    if i < n - 1 {
      BlockInside(i, n - 1, s, (n - 1) * s);
      DenoisedBlock(dsp, d, x, s, n - 1, i);
      BlockOfPrefix(before, after, (n - 1) * s, s, i);
    } else {
      BlockOfRest(before, x, i * s, s, i);
    }
  }

  /** Samples 160 i to 160 (i + 1) of the output are block i resampled. */
  lemma {:induction false} ResampledBlock<D(!new), R(!new)>(dsp: Dsp<D, R>, r: R, x: seq<Int16>, s: nat, n: nat, i: nat)
    requires Sound(dsp) && i < n && n * s <= |x|
    ensures (BlockInside(i, n, s, |x|);
             Block(ResampleBlocks(dsp, r, x, s, n).1, SAMPLES_16KHZ_10MS, i)
             == dsp.resample(ResampleBlocks(dsp, r, x, s, i).0, Block(x, s, i)).1)
  {
    BlockInside(i, n, s, |x|);
    BlockInside(n - 1, n, s, |x|);
    var before, after := ResampleBlocks(dsp, r, x, s, n - 1).1, ResampleBlocks(dsp, r, x, s, n).1;
    if i < n - 1 {
      ResampledBlock(dsp, r, x, s, n - 1, i);
      BlockOfPrefix(before, after, SAMPLES_16KHZ_10MS * (n - 1), SAMPLES_16KHZ_10MS, i);
    } else {
      assert Block(after, SAMPLES_16KHZ_10MS, i) == after[|before|..];
    }
  }

  // ---- the buffers are large enough ----

  /** Writing 160 samples for every whole block stays inside a buffer of 2000 for all
      sample counts up to 2000 if and only if a block has at least 154 samples, that is
      for every rate from 15400 Hz on. */
  lemma OutputFitsIff(s: nat)
    requires s > 0
    ensures (forall samples: nat | samples <= MAX_PCM_BUFFER :: SAMPLES_16KHZ_10MS * (samples / s) <= MAX_PCM_BUFFER)
       <==> s >= 154
  {
    if s >= 154 {
      forall samples: nat | samples <= MAX_PCM_BUFFER
        ensures SAMPLES_16KHZ_10MS * (samples / s) <= MAX_PCM_BUFFER
      {
        WholeBlocks(samples, s);
        AtMost(samples / s, s, 12, samples);
      }
    } else {
      WholeBlocks(MAX_PCM_BUFFER, s);
      AtMost(13, s, MAX_PCM_BUFFER / s, 13 * s);
    }
  }

  // ---- the object ----

  /** What one call to pushPCM makes of its input: the new states of the external code
      and the push the speech state machine sees. */
  datatype Heard<D, R> = Heard(denoiser: D, resampler: R, push: Push)

  ghost function Hear<D(!new), R(!new)>(dsp: Dsp<D, R>, d: D, r: R, interleaved: seq<Int16>, s: nat): (heard: Heard<D, R>)
    requires Sound(dsp) && s > 0
    ensures heard.push.Active? ==> |heard.push.pcm| == BLOCK_BYTES * (|interleaved| / 2 / s)
  {
    var mono := dsp.downmix(interleaved);
    var n := |mono| / s;
    WholeBlocks(|mono|, s);
    var denoised := DenoiseBlocks(dsp, d, ToFloats(mono), s, n);
    var resampled := ResampleBlocks(dsp, r, ToInt16s(denoised.samples), s, n);
    Heard(denoised.state, resampled.0,
          if denoised.peak >= ACTIVE_PROBABILITY then Active(Pcm.Bytes(resampled.1)) else Passive)
  }

  /** A call counts as active exactly when rnnoise finds some whole block of it active. */
  lemma HeardActiveIff<D(!new), R(!new)>(dsp: Dsp<D, R>, d: D, r: R, interleaved: seq<Int16>, s: nat)
    requires Sound(dsp) && s > 0
    ensures var mono := ToFloats(dsp.downmix(interleaved));
            Hear(dsp, d, r, interleaved, s).push.Active? <==> SomeBlockActive(dsp, d, mono, s, |mono| / s)
  {
    var mono := ToFloats(dsp.downmix(interleaved));
    assert |mono| == |dsp.downmix(interleaved)|;
    WholeBlocks(|mono|, s);
    ActiveIffSomeBlock(dsp, d, mono, s, |mono| / s);
  }

  // ---- the signal path block by block, said without the functions above ----

  /** A denoised sample and the int16 it becomes: the sample cut off towards zero, or the
      nearest code where an int16 cannot hold it. */
  predicate Narrowed(v: real, y: Int16) {
    if v >= 32767.0 then y == 32767
    else if v <= -32768.0 then y == -32768
    else if v >= 0.0 then y as real <= v < y as real + 1.0
    else y as real - 1.0 < v <= y as real
  }

  lemma NarrowedByClamp(v: real)
    ensures Narrowed(v, ClampInt16(Truncate(v)))
  {
  }

  /** One block of a call: what rnnoise is given and returns, and what the resampler is
      given and returns, with their states before and after. */
  datatype Pass<D, R> = Pass(
    noisy: seq<real>, probability: real, clean: seq<real>, narrow: seq<Int16>, out: seq<Int16>,
    denoiser: D, denoiserAfter: D, resampler: R, resamplerAfter: R)

  ghost predicate IsPass<D(!new), R(!new)>(dsp: Dsp<D, R>, block: seq<Int16>, p: Pass<D, R>) {
    && |p.noisy| == |p.clean| == |p.narrow| == |block| && |p.out| == SAMPLES_16KHZ_10MS
    && (forall j | 0 <= j < |block| :: p.noisy[j] == block[j] as real)
    && dsp.denoise(p.denoiser, p.noisy) == (p.denoiserAfter, p.probability, p.clean)
    && (forall j | 0 <= j < |block| :: Narrowed(p.clean[j], p.narrow[j]))
    && dsp.resample(p.resampler, p.narrow) == (p.resamplerAfter, p.out)
  }

  /** The states the passes leave; d and r are those before the first. */
  function StatesAfter<D, R>(passes: seq<Pass<D, R>>, d: D, r: R): (D, R) {
    if passes == [] then (d, r) else (Last(passes).denoiserAfter, Last(passes).resamplerAfter)
  }

  /** Each pass finds the states that those before it left. */
  predicate Chained<D(==), R(==)>(passes: seq<Pass<D, R>>, d: D, r: R) {
    forall i | 0 <= i < |passes| :: Finds(passes[i], StatesAfter(passes[..i], d, r))
  }

  predicate Finds<D(==), R(==)>(p: Pass<D, R>, states: (D, R)) {
    (p.denoiser, p.resampler) == states
  }

  predicate SomeActive<D, R>(passes: seq<Pass<D, R>>) {
    exists i | 0 <= i < |passes| :: passes[i].probability >= ACTIVE_PROBABILITY
  }

  /** What the passes put out, one behind the other. */
  function Output<D, R>(passes: seq<Pass<D, R>>): seq<Int16> {
    if passes == [] then [] else Output(Init(passes)) + Last(passes).out
  }

  /** These passes, over these blocks in order, begin with the states d and r. */
  ghost predicate Passes<D(!new), R(!new)>(dsp: Dsp<D, R>, passes: seq<Pass<D, R>>, blocks: seq<seq<Int16>>, d: D, r: R) {
    && |passes| == |blocks|
    && (forall i | 0 <= i < |passes| :: IsPass(dsp, blocks[i], passes[i]))
    && Chained(passes, d, r)
  }

  lemma PassesNext<D(!new), R(!new)>(dsp: Dsp<D, R>, passes: seq<Pass<D, R>>, blocks: seq<seq<Int16>>, d: D, r: R, block: seq<Int16>, p: Pass<D, R>)
    requires Passes(dsp, passes, blocks, d, r) && IsPass(dsp, block, p) && Finds(p, StatesAfter(passes, d, r))
    ensures Passes(dsp, passes + [p], blocks + [block], d, r)
    ensures StatesAfter(passes + [p], d, r) == (p.denoiserAfter, p.resamplerAfter)
    ensures Output(passes + [p]) == Output(passes) + p.out
    ensures SomeActive(passes + [p]) <==> SomeActive(passes) || p.probability >= ACTIVE_PROBABILITY
  {
    var ps := passes + [p];
    InitLast(passes, p);
    forall i | 0 <= i < |ps|
      ensures Finds(ps[i], StatesAfter(ps[..i], d, r)) && IsPass(dsp, (blocks + [block])[i], ps[i])
    {
      assert ps[..i] == passes[..i];
      assert i < |passes| ==> Finds(passes[i], StatesAfter(passes[..i], d, r)) && IsPass(dsp, blocks[i], passes[i]);
    }
    assert passes[..|passes|] == passes;
    assert ps[|passes|] == p && forall i | 0 <= i < |passes| :: ps[i] == passes[i];
  }

  /** The pass over block i, where x is the input as floats and y the denoised signal as
      int16s. */
  ghost function PassOf<D(!new), R(!new)>(dsp: Dsp<D, R>, d: D, r: R, x: seq<real>, y: seq<Int16>, s: nat, i: nat): Pass<D, R>
    requires Sound(dsp) && i * s <= (i + 1) * s <= |x| == |y|
  {
    var denoiser := DenoiseBlocks(dsp, d, x, s, i).state;
    var resampler := ResampleBlocks(dsp, r, y, s, i).0;
    var (denoiserAfter, probability, clean) := dsp.denoise(denoiser, Block(x, s, i));
    var (resamplerAfter, out) := dsp.resample(resampler, Block(y, s, i));
    Pass(Block(x, s, i), probability, clean, Block(y, s, i), out, denoiser, denoiserAfter, resampler, resamplerAfter)
  }

  lemma NarrowedBlock(v: seq<real>, at: nat, s: nat, clean: seq<real>, narrow: seq<Int16>)
    requires at + s <= |v| && clean == v[at..at + s] && narrow == ToInt16s(v)[at..at + s]
    ensures forall j | 0 <= j < s :: Narrowed(clean[j], narrow[j])
  {
    forall j | 0 <= j < s
      ensures Narrowed(clean[j], narrow[j])
    {
      NarrowedByClamp(v[at + j]);
    }
  }

  lemma SlicesMakePass<D(!new), R(!new)>(dsp: Dsp<D, R>, mono: seq<Int16>, at: nat, s: nat, v: seq<real>, p: Pass<D, R>)
    requires Sound(dsp) && at + s <= |mono| == |v|
    requires p.noisy == ToFloats(mono)[at..at + s] && p.clean == v[at..at + s] && p.narrow == ToInt16s(v)[at..at + s]
    requires dsp.denoise(p.denoiser, p.noisy) == (p.denoiserAfter, p.probability, p.clean)
    requires dsp.resample(p.resampler, p.narrow) == (p.resamplerAfter, p.out)
    ensures IsPass(dsp, mono[at..at + s], p)
  {
    NarrowedBlock(v, at, s, p.clean, p.narrow);
  }

  /** How far a call has come after some blocks. */
  datatype Progress<D, R> = Progress(denoiser: D, peak: real, resampler: R, out: seq<Int16>)

  ghost function ProgressAt<D(!new), R(!new)>(dsp: Dsp<D, R>, d: D, r: R, x: seq<real>, y: seq<Int16>, s: nat, k: nat): Progress<D, R>
    requires Sound(dsp) && k * s <= |x| == |y|
  {
    var denoised, resampled := DenoiseBlocks(dsp, d, x, s, k), ResampleBlocks(dsp, r, y, s, k);
    Progress(denoised.state, denoised.peak, resampled.0, resampled.1)
  }

  predicate Leads<D(==), R(==)>(before: Progress<D, R>, p: Pass<D, R>, after: Progress<D, R>) {
    && Finds(p, (before.denoiser, before.resampler))
    && after == Progress(p.denoiserAfter, if p.probability > before.peak then p.probability else before.peak,
                         p.resamplerAfter, before.out + p.out)
  }

  /** The passes account for the progress. */
  ghost predicate Explains<D(!new), R(!new)>(dsp: Dsp<D, R>, passes: seq<Pass<D, R>>, blocks: seq<seq<Int16>>, d: D, r: R, g: Progress<D, R>) {
    && Passes(dsp, passes, blocks, d, r)
    && StatesAfter(passes, d, r) == (g.denoiser, g.resampler)
    && (g.peak >= ACTIVE_PROBABILITY <==> SomeActive(passes))
    && g.out == Output(passes)
  }

  lemma ExplainsNext<D(!new), R(!new)>(dsp: Dsp<D, R>, passes: seq<Pass<D, R>>, blocks: seq<seq<Int16>>, d: D, r: R, g: Progress<D, R>, block: seq<Int16>, p: Pass<D, R>, h: Progress<D, R>)
    requires Explains(dsp, passes, blocks, d, r, g) && IsPass(dsp, block, p) && Leads(g, p, h)
    ensures Explains(dsp, passes + [p], blocks + [block], d, r, h)
  {
    PassesNext(dsp, passes, blocks, d, r, block, p);
  }

  lemma CleanIsSlice<D(!new), R(!new)>(dsp: Dsp<D, R>, d: D, x: seq<real>, v: seq<real>, s: nat, n: nat, i: nat, at: nat)
    requires Sound(dsp) && i < n && n * s <= |x| && at == i * s
    requires v == DenoiseBlocks(dsp, d, x, s, n).samples
    ensures at <= (i + 1) * s == at + s <= |x| == |v|
    ensures dsp.denoise(DenoiseBlocks(dsp, d, x, s, i).state, Block(x, s, i)).2 == v[at..at + s]
  {
    BlockInside(i, n, s, |x|);
    DenoisedBlock(dsp, d, x, s, n, i);
  }

  lemma PassLeads<D(!new), R(!new)>(dsp: Dsp<D, R>, d: D, r: R, x: seq<real>, y: seq<Int16>, s: nat, i: nat, at: nat)
    requires Sound(dsp) && at == i * s <= (i + 1) * s == at + s <= |x| == |y|
    ensures Leads(ProgressAt(dsp, d, r, x, y, s, i), PassOf(dsp, d, r, x, y, s, i), ProgressAt(dsp, d, r, x, y, s, i + 1))
  {
    DenoiseStep(dsp, d, x, s, i, at);
    BlockOfRest(DenoiseBlocks(dsp, d, x, s, i).samples, x, at, s, i);
    ResampleStep(dsp, r, y, s, i, at);
  }

  lemma OnePass<D(!new), R(!new)>(dsp: Dsp<D, R>, d: D, r: R, mono: seq<Int16>, v: seq<real>, s: nat, n: nat, i: nat, at: nat)
      returns (p: Pass<D, R>)
    requires Sound(dsp) && i < n && n * s <= |mono| && at == i * s
    requires v == DenoiseBlocks(dsp, d, ToFloats(mono), s, n).samples
    ensures at <= (i + 1) * s == at + s <= |mono| && IsPass(dsp, mono[at..at + s], p)
    ensures var x, y := ToFloats(mono), ToInt16s(v);
            Leads(ProgressAt(dsp, d, r, x, y, s, i), p, ProgressAt(dsp, d, r, x, y, s, i + 1))
  {
    var x, y := ToFloats(mono), ToInt16s(v);
    CleanIsSlice(dsp, d, x, v, s, n, i, at);
    p := PassOf(dsp, d, r, x, y, s, i);
    SlicesMakePass(dsp, mono, at, s, v, p);
    PassLeads(dsp, d, r, x, y, s, i, at);
  }

  lemma NoPasses<D(!new), R(!new)>(dsp: Dsp<D, R>, d: D, r: R, x: seq<real>, y: seq<Int16>, s: nat, blocks: seq<seq<Int16>>)
    requires Sound(dsp) && |x| == |y| && blocks == []
    ensures Explains(dsp, [], blocks, d, r, ProgressAt(dsp, d, r, x, y, s, 0))
  {
  }

  /** The passes over the first k blocks account for what denoising and resampling them
      does. */
  lemma {:induction false} FirstPasses<D(!new), R(!new)>(dsp: Dsp<D, R>, d: D, r: R, mono: seq<Int16>, v: seq<real>, s: nat, n: nat, k: nat)
      returns (passes: seq<Pass<D, R>>, blocks: seq<seq<Int16>>, g: Progress<D, R>)
    requires Sound(dsp) && k <= n && n * s <= |mono| && k * s <= |mono|
    requires v == DenoiseBlocks(dsp, d, ToFloats(mono), s, n).samples
    ensures blocks == BlocksOf(mono, s, k) && g == ProgressAt(dsp, d, r, ToFloats(mono), ToInt16s(v), s, k)
    ensures Explains(dsp, passes, blocks, d, r, g)
  {
    g := ProgressAt(dsp, d, r, ToFloats(mono), ToInt16s(v), s, k);
    if k == 0 {
      passes, blocks := [], [];
      NoPasses(dsp, d, r, ToFloats(mono), ToInt16s(v), s, blocks);
    } else {
      var at := (k - 1) * s;
      var p := OnePass(dsp, d, r, mono, v, s, n, k - 1, at);
      var before, early, h := FirstPasses(dsp, d, r, mono, v, s, n, k - 1);
      ExplainsNext(dsp, before, early, d, r, h, mono[at..at + s], p, g);
      passes, blocks := before + [p], early + [mono[at..at + s]];
    }
  }

  /** What a call does to its input, from the first sample to the last: every whole block
      of the downmixed input is denoised, the result is narrowed to int16 and resampled,
      each in its turn; the call is active exactly if some block's probability is high
      enough, and then the PCM of the push is the resampled blocks, in order. */
  lemma HeardPasses<D(!new), R(!new)>(dsp: Dsp<D, R>, d: D, r: R, interleaved: seq<Int16>, s: nat)
      returns (passes: seq<Pass<D, R>>)
    requires Sound(dsp) && s > 0
    ensures var heard := Hear(dsp, d, r, interleaved, s);
            var mono := dsp.downmix(interleaved);
            && |mono| / s * s <= |mono|
            && Passes(dsp, passes, BlocksOf(mono, s, |mono| / s), d, r)
            && (heard.denoiser, heard.resampler) == StatesAfter(passes, d, r)
            && heard.push == if SomeActive(passes) then Active(Pcm.Bytes(Output(passes))) else Passive
  {
    var mono := dsp.downmix(interleaved);
    var n := |mono| / s;
    WholeBlocks(|mono|, s);
    var v := DenoiseBlocks(dsp, d, ToFloats(mono), s, n).samples;
    var blocks, g;
    passes, blocks, g := FirstPasses(dsp, d, r, mono, v, s, n, n);
  }

  class Detector<D(!new), R(!new)> {
    const dsp: Dsp<D, R>
    const isSendStt: bool
    var samplingRate: nat
    var denoiser: Option<D>
    var resampler: R
    const mono: array<Int16>
    const floats: array<real>
    const pcm16: array<Int16>
    var isSpeech: bool
    var passives: nat
    const packer: SttPacker

    ghost predicate Valid()
      reads packer, packer.pending
    {
      && Sound(dsp) && packer.Valid()
      && mono.Length == floats.Length == pcm16.Length == MAX_PCM_BUFFER
      && mono != pcm16
      && (packer.pending != null ==> Distinct(packer.pending))
    }

    ghost predicate Distinct(o: object) {
      o != mono && o != floats && o != pcm16
    }

    /** What one call resamples has room; OutputFitsIff says at which rates every call
        does. */
    ghost predicate OutputFits(samples: nat)
      reads `samplingRate
    {
      samplingRate / 100 > 0 && SAMPLES_16KHZ_10MS * (samples / (samplingRate / 100)) <= MAX_PCM_BUFFER
    }

    ghost function State(): Vad
      requires packer.Valid()
      reads `isSpeech, `passives, packer, packer.pending
    {
      Vad(isSpeech, passives, packer.State())
    }

    constructor (dsp: Dsp<D, R>, r: R, send: bool)
      requires Sound(dsp)
      ensures Valid() && State() == INITIAL_VAD && packer.sent == []
      ensures this.dsp == dsp && isSendStt == send && denoiser == None
      ensures fresh(mono) && fresh(floats) && fresh(pcm16) && fresh(packer)
    {
      this.dsp, isSendStt := dsp, send;
      samplingRate, denoiser, resampler := 0, None, r;
      mono := new Int16[MAX_PCM_BUFFER];
      floats := new real[MAX_PCM_BUFFER];
      pcm16 := new Int16[MAX_PCM_BUFFER];
      isSpeech, passives := false, 0;
      packer := new SttPacker();
    }

    method SetConfig(rate: nat, d: D, r: R)
      requires Valid()
      modifies this
      ensures Valid() && State() == old(State())
      ensures samplingRate == rate && denoiser == Some(d) && resampler == r
    {
      samplingRate, resampler, denoiser := rate, r, Some(d);
    }

    /** `samples` counts frames of two interleaved channels. */
    method PushPcm(pcm: array<Int16>, samples: nat)
      requires Valid() && Distinct(pcm) && pcm != mono && 2 * samples <= pcm.Length && samples <= MAX_PCM_BUFFER
      requires denoiser.Some? ==> OutputFits(samples)
      requires denoiser.Some? && isSendStt ==>
                 var push := Hear(dsp, denoiser.value, resampler, pcm[..2 * samples], samplingRate / 100).push;
                 push.Active? ==> State().packer.Fits(push.pcm)
      modifies this, mono, floats, pcm16, packer, packer.pending
      ensures Valid() && samplingRate == old(samplingRate)
      ensures packer.pending == old(packer.pending) || packer.pending == null || fresh(packer.pending)
      ensures match old(denoiser)
              case None => State() == old(State()) && packer.sent == old(packer.sent) && denoiser == None
              case Some(d) =>
                var heard := old(Hear(dsp, d, resampler, pcm[..2 * samples], samplingRate / 100));
                var (v, out) := RnnoiseVad.Step(old(State()), heard.push, isSendStt);
                && denoiser == Some(heard.denoiser) && resampler == heard.resampler
                && State() == v && packer.sent == old(packer.sent) + out
    {
      if denoiser == None {
        return;
      }
      var active := Listen(pcm, samples);
      OnVerdict(active, SAMPLES_16KHZ_10MS * (samples / (samplingRate / 100)));
    }

    /** The signal path: downmix, denoise, clamp, resample. */
    method Listen(pcm: array<Int16>, samples: nat) returns (active: bool)
      requires Valid() && Distinct(pcm) && 2 * samples <= pcm.Length && samples <= MAX_PCM_BUFFER
      requires denoiser.Some? && OutputFits(samples)
      modifies `denoiser, `resampler, mono, floats, pcm16
      ensures Valid()
      ensures var s := samplingRate / 100;
              var heard := old(Hear(dsp, denoiser.value, resampler, pcm[..2 * samples], samplingRate / 100));
              && denoiser == Some(heard.denoiser) && resampler == heard.resampler
              && active == heard.push.Active?
              && SAMPLES_16KHZ_10MS * (samples / s) <= MAX_PCM_BUFFER
              && (active ==> Pcm.Bytes(pcm16[..SAMPLES_16KHZ_10MS * (samples / s)]) == heard.push.pcm)
    {
      var s := samplingRate / 100;
      var n := samples / s;
      WholeBlocks(samples, s);
      var peak := DownmixAndDenoise(pcm, samples, s, n);
      ToMono(samples);
      Resample(mono[..samples], samples, s, n);
      active := peak >= ACTIVE_PROBABILITY;
    }

    method DownmixAndDenoise(pcm: array<Int16>, samples: nat, s: nat, n: nat) returns (peak: real)
      requires Valid() && Distinct(pcm) && 2 * samples <= pcm.Length && samples <= MAX_PCM_BUFFER
      requires denoiser.Some? && n * s <= samples
      modifies `denoiser, mono, floats
      ensures Valid()
      ensures var x := ToFloats(dsp.downmix(old(pcm[..2 * samples])));
              var denoised := DenoiseBlocks(dsp, old(denoiser).value, x, s, n);
              && |x| == samples
              && denoiser == Some(denoised.state) && peak == denoised.peak && floats[..samples] == denoised.samples
    {
      var downmixed := dsp.downmix(pcm[..2 * samples]);
      forall i | 0 <= i < samples {
        mono[i] := downmixed[i];
      }
      assert mono[..samples] == downmixed;
      FillFloats(samples);
      peak := Denoise(floats[..samples], samples, s, n);
    }

    /** The speech state machine, on the PCM the resampler left. */
    method OnVerdict(active: bool, samples: nat)
      requires Valid() && samples <= MAX_PCM_BUFFER
      requires active && isSendStt ==> State().packer.Fits(Pcm.Bytes(pcm16[..samples]))
      modifies this`isSpeech, this`passives, packer, packer.pending
      ensures Valid()
      ensures packer.pending == old(packer.pending) || packer.pending == null || fresh(packer.pending)
      ensures var push := if active then Active(Pcm.Bytes(old(pcm16[..samples]))) else Passive;
              var (v, out) := RnnoiseVad.Step(old(State()), push, isSendStt);
              State() == v && packer.sent == old(packer.sent) + out
    {
      if active {
        passives := 0;
        if !isSpeech {
          isSpeech := true;
          packer.isStart := true;
          if isSendStt {
            packer.SendPcm(pcm16, samples);
          }
        } else {
          if isSendStt {
            packer.SendPcm(pcm16, samples);
          }
        }
      } else {
        if isSpeech {
          passives := passives + 1;
          if passives > NON_SPEECH_THRESHOLD / 2 {
            isSpeech := false;
            if isSendStt {
              packer.SendEnd();
            }
          }
        }
      }
    }

    /** The conversion loop. */
    method FillFloats(samples: nat)
      requires Valid() && samples <= MAX_PCM_BUFFER
      modifies floats
      ensures floats[..samples] == ToFloats(mono[..samples])
    {
      for i := 0 to samples
        invariant forall j | 0 <= j < i :: floats[j] == mono[j] as real
      {
        floats[i] := mono[i] as real;
      }
    }

    /** The denoising loop, in place on the float buffer. */
    method Denoise(ghost x: seq<real>, samples: nat, s: nat, n: nat) returns (peak: real)
      requires Valid() && denoiser.Some? && samples <= MAX_PCM_BUFFER && n * s <= samples
      requires floats[..samples] == x
      modifies this`denoiser, floats
      ensures Valid()
      ensures var denoised := DenoiseBlocks(dsp, old(denoiser).value, x, s, n);
              denoiser == Some(denoised.state) && peak == denoised.peak && floats[..samples] == denoised.samples
    {
      ghost var d := denoiser.value;
      peak := 0.0;
      for i := 0 to n
        invariant i * s <= samples
        invariant var sofar := DenoiseBlocks(dsp, d, x, s, i);
                  denoiser == Some(sofar.state) && peak == sofar.peak && floats[..samples] == sofar.samples
      {
        BlockInside(i, n, s, samples);
        var at := i * s;
        DenoiseStep(dsp, d, x, s, i, at);
        var probability := DenoiseBlock(samples, at, s);
        if peak < probability {
          peak := probability;
        }
      }
    }

    /** One block, denoised in place. */
    method DenoiseBlock(samples: nat, at: nat, s: nat) returns (probability: real)
      requires Valid() && denoiser.Some? && at + s <= samples <= MAX_PCM_BUFFER
      modifies this`denoiser, floats
      ensures var before := old(floats[..samples]);
              var (state, p, block) := dsp.denoise(old(denoiser).value, before[at..at + s]);
              && denoiser == Some(state) && probability == p
              && floats[..samples] == before[..at] + block + before[at + s..]
    {
      ghost var before := floats[..samples];
      assert floats[at..at + s] == before[at..at + s];
      var (state, p, block) := dsp.denoise(denoiser.value, floats[at..at + s]);
      denoiser := Some(state);
      forall j | 0 <= j < s {
        floats[at + j] := block[j];
      }
      probability := p;
      assert floats[..samples] == before[..at] + block + before[at + s..];
    }

    /** The clamping loop. */
    method ToMono(samples: nat)
      requires Valid() && samples <= MAX_PCM_BUFFER
      modifies mono
      ensures mono[..samples] == ToInt16s(floats[..samples])
    {
      for i := 0 to samples
        invariant forall j | 0 <= j < i :: mono[j] == ClampInt16(Truncate(floats[j]))
      {
        var value := Truncate(floats[i]);
        if value > 32767 {
          value := 32767;
        } else if value < -32768 {
          value := -32768;
        }
        mono[i] := value;
      }
    }

    /** The resampling loop. */
    method Resample(ghost x: seq<Int16>, samples: nat, s: nat, n: nat)
      requires Valid() && samples <= MAX_PCM_BUFFER && mono[..samples] == x
      requires n * s <= samples && SAMPLES_16KHZ_10MS * n <= MAX_PCM_BUFFER
      modifies this`resampler, pcm16
      ensures Valid()
      ensures var resampled := ResampleBlocks(dsp, old(resampler), x, s, n);
              resampler == resampled.0 && pcm16[..SAMPLES_16KHZ_10MS * n] == resampled.1
    {
      ghost var r := resampler;
      for i := 0 to n
        invariant i * s <= samples && mono[..samples] == x
        invariant (resampler, pcm16[..SAMPLES_16KHZ_10MS * i]) == ResampleBlocks(dsp, r, x, s, i)
      {
        BlockInside(i, n, s, samples);
        ResampleNext(r, x, samples, s, i, i * s);
      }
    }

    /** One turn of the loop. */
    method ResampleNext(ghost r: R, ghost x: seq<Int16>, samples: nat, s: nat, i: nat, at: nat)
      requires Valid() && samples <= MAX_PCM_BUFFER && mono[..samples] == x
      requires at == i * s && at + s == (i + 1) * s <= samples
      requires SAMPLES_16KHZ_10MS * (i + 1) <= MAX_PCM_BUFFER
      requires (resampler, pcm16[..SAMPLES_16KHZ_10MS * i]) == ResampleBlocks(dsp, r, x, s, i)
      modifies this`resampler, pcm16
      ensures (resampler, pcm16[..SAMPLES_16KHZ_10MS * (i + 1)]) == ResampleBlocks(dsp, r, x, s, i + 1)
    {
      ResampleStep(dsp, r, x, s, i, at);
      var source := mono[at..at + s];
      assert source == x[at..at + s];
      ResampleBlock(source, i * SAMPLES_16KHZ_10MS);
    }

    /** One block, resampled behind those before it. */
    method ResampleBlock(source: seq<Int16>, at: nat)
      requires Valid() && at + SAMPLES_16KHZ_10MS <= MAX_PCM_BUFFER
      modifies `resampler, pcm16
      ensures var (state, block) := dsp.resample(old(resampler), source);
              resampler == state && pcm16[..at + SAMPLES_16KHZ_10MS] == old(pcm16[..at]) + block
    {
      ghost var before := pcm16[..at];
      var (state, block) := dsp.resample(resampler, source);
      forall j | 0 <= j < SAMPLES_16KHZ_10MS {
        pcm16[at + j] := block[j];
      }
      resampler := state;
      assert pcm16[..at + SAMPLES_16KHZ_10MS] == before + block;
    }
  }
}
