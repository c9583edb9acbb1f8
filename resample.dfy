/** downsampleAudio: a decimating resampler that keeps, for each output
    position, the input sample at the position scaled by the rate ratio. */
module Resample {
  import opened Pcm

  /** The output length: len divided by the rate ratio and rounded to the
      nearest whole number, halves rounded up, as Math.round does. */
  function RoundedLength(len: nat, from: int, to: int): (r: nat)
    requires from > 0 && to > 0
    ensures from == to ==> r == len
  {
    var a, d := 2 * len * to + from, 2 * from;
    if from == to then
      DivUnique(a, d, len);
      a / d
    else
      a / d
  }

  /** RoundedLength is Math.round: r <= len*to/from + 1/2 < r + 1. */
  lemma RoundedLengthIsNearest(len: nat, from: int, to: int)
    requires from > 0 && to > 0
    ensures var r := RoundedLength(len, from, to);
            2 * from * r <= 2 * len * to + from < 2 * from * (r + 1)
  {
    var r := RoundedLength(len, from, to);
    var a, d := 2 * len * to + from, 2 * from;
    assert d * (a / d) <= a < d * (a / d) + d;
  }

  /** The input position read for output i: i times the rate ratio, rounded
      down. */
  function SourceIndex(i: nat, from: int, to: int): (r: nat)
    requires from > 0 && to > 0
    ensures r * to <= i * from < (r + 1) * to
  {
    var a := i * from;
    assert to * (a / to) <= a < to * (a / to) + to;
    a / to
  }

  /** No output position reads past the end of the input. */
  lemma SourceIndexInBounds(len: nat, from: int, to: int, i: nat)
    requires from > 0 && to > 0
    requires i < RoundedLength(len, from, to)
    ensures SourceIndex(i, from, to) < len
  {
    var r := RoundedLength(len, from, to);
    var a, c := i * from, len * to;
    RoundedLengthIsNearest(len, from, to);
    assert 2 * from * r <= 2 * c + from;
    MulMonotone(2 * from, i + 1, r);
    assert 2 * from * (i + 1) == 2 * a + 2 * from;
    assert a < c;
    var q := SourceIndex(i, from, to);
    assert q * to <= a;
    if q >= len {
      MulMonotone(to, len, q);
      assert false;
    }
  }

  lemma AllSourceIndicesInBounds(len: nat, from: int, to: int)
    requires from > 0 && to > 0
    ensures forall i: nat :: i < RoundedLength(len, from, to) ==> SourceIndex(i, from, to) < len
  {
    forall i: nat | i < RoundedLength(len, from, to)
      ensures SourceIndex(i, from, to) < len
    {
      SourceIndexInBounds(len, from, to, i);
    }
  }

  lemma MulMonotone(c: nat, a: int, b: int)
    requires a <= b
    ensures c * a <= c * b
  {
  }

  lemma MulCancel(c: int, a: int, b: int)
    requires c > 0 && c * a < c * b
    ensures a < b
  {
    if a >= b {
      MulMonotone(c, b, a);
    }
  }

  /** q is the quotient of a by d when q*d <= a < (q+1)*d. */
  lemma DivUnique(a: int, d: int, q: int)
    requires d > 0
    requires q * d <= a < (q + 1) * d
    ensures a / d == q
  {
    var k := a / d;
    assert d * k <= a < d * k + d;
    MulCancel(d, q, k + 1);
    MulCancel(d, k, q + 1);
  }

  /** With equal rates the general formulas are the identity, so the early
      return agrees with the loop. */
  lemma EqualRatesAgree(s: seq<Int16>, rate: int)
    requires rate > 0
    ensures RoundedLength(|s|, rate, rate) == |s|
    ensures forall i :: 0 <= i < |s| ==> SourceIndex(i, rate, rate) == i
  {
    forall i | 0 <= i < |s|
      ensures SourceIndex(i, rate, rate) == i
    {
      DivUnique(i * rate, rate, i);
    }
  }

  /** The Int16Array downsampleAudio returns, as a sequence. */
  function Resampled(s: seq<Int16>, from: int, to: int): (r: seq<Int16>)
    requires from > 0 && to > 0
    ensures |r| == RoundedLength(|s|, from, to)
    ensures forall i :: 0 <= i < |r| ==>
              SourceIndex(i, from, to) < |s| && r[i] == s[SourceIndex(i, from, to)]
  {
    if from == to then
      EqualRatesAgree(s, from);
      s
    else
      Decimated(s, from, to)
  }

  /** The array the loop of downsampleAudio fills. */
  function Decimated(s: seq<Int16>, from: int, to: int): (r: seq<Int16>)
    requires from > 0 && to > 0
    ensures |r| == RoundedLength(|s|, from, to)
    ensures forall i :: 0 <= i < |r| ==>
              SourceIndex(i, from, to) < |s| && r[i] == s[SourceIndex(i, from, to)]
  {
    var n := RoundedLength(|s|, from, to);
    AllSourceIndicesInBounds(|s|, from, to);
    seq(n, i requires 0 <= i < n => s[SourceIndex(i, from, to)])
  }

  /** downsampleAudio. With equal rates the very same array is returned;
      otherwise a fresh one, filled by the loop. */
  method DownsampleAudio(audio: array<Int16>, fromRate: int, toRate: int) returns (result: array<Int16>)
    requires fromRate > 0 && toRate > 0
    ensures result[..] == Resampled(audio[..], fromRate, toRate)
    ensures fromRate == toRate ==> result == audio
    ensures fromRate != toRate ==> fresh(result)
  {
    if fromRate == toRate {
      return audio;
    }
    var newLength := RoundedLength(audio.Length, fromRate, toRate);
    result := new Int16[newLength];
    for i := 0 to newLength
      invariant forall k :: 0 <= k < i ==>
                  SourceIndex(k, fromRate, toRate) < audio.Length &&
                  result[k] == audio[SourceIndex(k, fromRate, toRate)]
    {
      var oldIndex := SourceIndex(i, fromRate, toRate);
      SourceIndexInBounds(audio.Length, fromRate, toRate, i);
      result[i] := audio[oldIndex];
    }
  }

  /** The conversion the component applies to assistant audio, 24000 Hz to
      16000 Hz: two output samples for every three input samples. */
  lemma AssistantConversion(s: seq<Int16>)
    ensures |Resampled(s, 24000, 16000)| == (2 * |s| + 1) / 3
    ensures forall i :: 0 <= i < |Resampled(s, 24000, 16000)| ==>
              3 * i / 2 < |s| && Resampled(s, 24000, 16000)[i] == s[3 * i / 2]
  {
    var n := |s|;
    assert RoundedLength(n, 24000, 16000) == (32000 * n + 24000) / 48000;
    assert (32000 * n + 24000) / 48000 == (4 * n + 3) / 6;
    assert (4 * n + 3) / 6 == (2 * n + 1) / 3;
    forall i: nat ensures SourceIndex(i, 24000, 16000) == 3 * i / 2 {
      assert (i * 24000) / 16000 == (3 * i) / 2;
    }
  }
}
