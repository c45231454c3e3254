/** PCM samples: their layout in memory, and the conversions of RTCUtils.

    A float is modelled as the real number it stands for.  Both conversions only
    scale by a power of two and round to an integer, which binary32 does exactly on
    the ranges involved; NaN is outside the model. */
module Pcm {
  import opened Std

  // ---- int16 samples as little-endian bytes (memcpy out, np.frombuffer in) ----

  function LowByte(x: Int16): Byte { x % 256 }

  function HighByte(x: Int16): Byte { (x % 65536) / 256 }

  function FromBytes(lo: Byte, hi: Byte): Int16 {
    var u := lo + 256 * hi;
    if u < 32768 then u else u - 65536
  }

  function Bytes(s: seq<Int16>): (b: seq<Byte>)
    ensures |b| == 2 * |s|
  {
    seq(2 * |s|, i requires 0 <= i < 2 * |s| => if i % 2 == 0 then LowByte(s[i / 2]) else HighByte(s[i / 2]))
  }

  function Samples(b: seq<Byte>): (s: seq<Int16>)
    requires |b| % 2 == 0
    ensures |s| == |b| / 2
  {
    seq(|b| / 2, i requires 0 <= i < |b| / 2 => FromBytes(b[2 * i], b[2 * i + 1]))
  }

  lemma SampleRoundTrip(x: Int16)
    ensures FromBytes(LowByte(x), HighByte(x)) == x
  {
    var u := if x < 0 then x + 65536 else x;
    assert x % 65536 == u;
    assert x % 256 == u % 256;
    assert u == u / 256 * 256 + u % 256;
  }

  lemma BytesOfSample(s: seq<Int16>, i: nat)
    requires i < |s|
    ensures Bytes(s)[2 * i] == LowByte(s[i]) && Bytes(s)[2 * i + 1] == HighByte(s[i])
  {
    var even, odd := 2 * i, 2 * i + 1;
    assert even % 2 == 0 && even / 2 == i && odd % 2 == 1 && odd / 2 == i;
  }

  /** Two bytes of a buffer read as a signed little-endian number of 16 bits. */
  function Signed(b: seq<Byte>, i: nat): int
    requires 2 * i + 1 < |b|
  {
    var lo: int, hi: int := b[2 * i], b[2 * i + 1];
    var u := lo + 256 * hi;
    if u < 32768 then u else u - 65536
  }

  lemma BytesAreLittleEndian(s: seq<Int16>, i: nat)
    requires i < |s|
    ensures Signed(Bytes(s), i) == s[i]
  {
    BytesOfSample(s, i);
    SampleRoundTrip(s[i]);
  }

  /** Reading back the bytes of a sample buffer gives the samples: the two programs
      agree on the layout. */
  lemma BytesRoundTrip(s: seq<Int16>)
    ensures Samples(Bytes(s)) == s
  {
    forall i | 0 <= i < |s|
      ensures Samples(Bytes(s))[i] == s[i]
    {
      SampleRoundTrip(s[i]);
      BytesOfSample(s, i);
    }
  }

  // ---- RTCUtils::int16_to_float and RTCUtils::float_to_int16 ----

  const SCALE: real := 1.0 / 32768.0

  function ToFloat(x: Int16): real { x as real * SCALE }

  function Clamp(x: real, lo: real, hi: real): real
    requires lo <= hi
  {
    if x > hi then hi else if x < lo then lo else x
  }

  /** std::round: to nearest, halves away from zero. */
  function Round(x: real): int {
    if x >= 0.0 then (x + 0.5).Floor else -((0.5 - x).Floor)
  }

  /** The int16 that represents a sample best: the nearest one, halves away from zero. */
  function Quantize(x: real): Int16 {
    var r := Round(32768.0 * Clamp(x, -1.0, 1.0));
    if r > 32767 then 32767 else r
  }

  method Int16ToFloat(input: array<Int16>, output: array<real>, length: nat)
    requires length <= input.Length && length <= output.Length
    modifies output
    ensures forall i | 0 <= i < length :: output[i] == ToFloat(input[i]) && 32768.0 * output[i] == input[i] as real
    ensures forall i | length <= i < output.Length :: output[i] == old(output[i])
  {
    for i := 0 to length
      invariant forall j | 0 <= j < i :: output[j] == ToFloat(input[j])
      invariant forall j | i <= j < output.Length :: output[j] == old(output[j])
    {
      output[i] := input[i] as real * SCALE;
    }
  }

  method FloatToInt16(input: array<real>, output: array<Int16>, length: nat)
    requires length <= input.Length && length <= output.Length
    modifies output
    ensures forall i | 0 <= i < length :: output[i] == Quantize(input[i])
    ensures forall i | length <= i < output.Length :: output[i] == old(output[i])
  {
    for i := 0 to length
      invariant forall j | 0 <= j < i :: output[j] == Quantize(input[j])
      invariant forall j | i <= j < output.Length :: output[j] == old(output[j])
    {
      var sample := input[i];
      if sample > 1.0 { sample := 1.0; }
      if sample < -1.0 { sample := -1.0; }
      var rounded := Round(sample * 32768.0);
      if rounded > 32767 { rounded := 32767; }
      if rounded < -32768 { rounded := -32768; }
      output[i] := rounded;
    }
  }

  /** Converting to float and back changes no sample. */
  lemma QuantizeInvertsToFloat(x: Int16)
    ensures Quantize(ToFloat(x)) == x
  {
    var f := ToFloat(x);
    assert 32768.0 * f == x as real;
    assert -1.0 <= f <= 1.0;
  }

  lemma RoundIsNearest(x: real)
    ensures -0.5 <= Round(x) as real - x <= 0.5
    ensures x >= 0.0 ==> Round(x) as real - x > -0.5
    ensures x < 0.0 ==> Round(x) as real - x < 0.5
  {
  }

  lemma RoundMonotone(x: real, y: real)
    requires x <= y
    ensures Round(x) <= Round(y)
  {
  }

  /** For every input: the quantised sample is within one half of 32768 times the
      clamped input, except where the top code saturates; there it is within one. */
  lemma QuantizeError(x: real)
    ensures var c := 32768.0 * Clamp(x, -1.0, 1.0);
            var e := Quantize(x) as real - c;
            if c >= 32767.5 then Quantize(x) == 32767 && -1.0 <= e <= -0.5 else -0.5 <= e <= 0.5
  {
    RoundIsNearest(32768.0 * Clamp(x, -1.0, 1.0));
  }

  /** Which code a sample gets: the one whose interval, of width one around it, holds 32768
      times the clamped sample.  A tie goes away from zero, and the top code also takes what
      would be 32768. */
  lemma QuantizeIff(x: real, q: Int16)
    ensures var c := 32768.0 * Clamp(x, -1.0, 1.0);
            q == Quantize(x) <==>
            if c >= 32766.5 then q == 32767
            else if c >= 0.0 then q as real - 0.5 <= c < q as real + 0.5
            else q as real - 0.5 < c <= q as real + 0.5
  {
    var c := 32768.0 * Clamp(x, -1.0, 1.0);
    RoundIsNearest(c);
    RoundIff(c, q);
  }

  lemma RoundIff(c: real, q: int)
    ensures q == Round(c) <==>
            if c >= 0.0 then q as real - 0.5 <= c < q as real + 0.5 else q as real - 0.5 < c <= q as real + 0.5
  {
  }

  lemma QuantizeMonotone(x: real, y: real)
    requires x <= y
    ensures Quantize(x) <= Quantize(y)
  {
    RoundMonotone(32768.0 * Clamp(x, -1.0, 1.0), 32768.0 * Clamp(y, -1.0, 1.0));
  }
}
