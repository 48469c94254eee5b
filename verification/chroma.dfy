/**
 * The dominant-pitch decision at the end of `calculateChroma`: the argmax of
 * the quantised chroma and the confidence gate that either reports that
 * pitch class with a strength or reports none (255, 0).
 *
 * The float pipeline in front of it (power accumulation per pitch class,
 * square root, smoothing and quantisation) fills `chromaSmoothed` and
 * `chromaOut`; here both are inputs.
 */
module Chroma {
  import opened Bytes

  const NUM_PITCH_CLASSES: nat := 12
  /** `dominantPitch` when no pitch class is confident. */
  const NO_PITCH: byte := 255
  /** The quantised maximum must exceed this. */
  const MIN_PEAK_LEVEL: byte := 30
  /** The maximum must exceed the average by this factor. */
  const MIN_PEAK_RATIO: real := 1.5
  /** Below this average the ratio is taken as 0. */
  const MIN_AVERAGE: real := 0.001

  /** Index of the first maximum of q[0..n), as the loop `if (chromaOut[i] > chromaOut[maxIdx]) maxIdx = i` finds it. */
  function FirstMax(q: seq<byte>, n: nat): (k: nat)
    requires 0 < n <= |q|
    ensures k < n
    ensures forall j :: 0 <= j < n ==> q[j] <= q[k]
    ensures forall j :: 0 <= j < k ==> q[j] < q[k]
  {
    if n == 1 then 0
    else
      var m := FirstMax(q, n - 1);
      if q[n - 1] > q[m] then n - 1 else m
  }

  /** Two indices that both are the first maximum are the same index. */
  lemma FirstMaxUnique(q: seq<byte>, a: nat, b: nat)
    requires a < |q| && b < |q|
    requires forall j :: 0 <= j < |q| ==> q[j] <= q[a] && q[j] <= q[b]
    requires forall j :: 0 <= j < a ==> q[j] < q[a]
    requires forall j :: 0 <= j < b ==> q[j] < q[b]
    ensures a == b
  {
    assert q[a] == q[b];
  }

  /** Sum of the smoothed energies, in index order. */
  function Sum(s: seq<real>): real
  {
    if |s| == 0 then 0.0 else Sum(s[..|s| - 1]) + s[|s| - 1]
  }

  lemma {:induction false} SumOfZeros(s: seq<real>)
    requires forall j :: 0 <= j < |s| ==> s[j] == 0.0
    ensures Sum(s) == 0.0
  {
    if |s| > 0 {
      SumOfZeros(s[..|s| - 1]);
    }
  }

  /** When only entry k is non-zero, the sum is that entry. */
  lemma {:induction false} SumOfSingle(s: seq<real>, k: nat)
    requires k < |s|
    requires forall j :: 0 <= j < |s| && j != k ==> s[j] == 0.0
    ensures Sum(s) == s[k]
  {
    var n := |s| - 1;
    if k == n {
      SumOfZeros(s[..n]);
    } else {
      SumOfSingle(s[..n], k);
    }
  }

  /** When every entry is c, the sum is |s| times c. */
  lemma {:induction false} SumOfConstant(s: seq<real>, c: real)
    requires forall j :: 0 <= j < |s| ==> s[j] == c
    ensures Sum(s) == |s| as real * c
  {
    if |s| > 0 {
      SumOfConstant(s[..|s| - 1], c);
    }
  }

  /** `peakRatio`: the smoothed energy of entry k over the average, or 0 when the average is at most 0.001. */
  function PeakRatio(smoothed: seq<real>, k: nat): real
    requires k < |smoothed| == NUM_PITCH_CLASSES
  {
    var avg := Sum(smoothed) / 12.0;
    if avg > MIN_AVERAGE then smoothed[k] / avg else 0.0
  }

  /** `min(255, (int)((peakRatio - 1.0f) * 100.0f))`; the cast truncates, which is flooring for a ratio above 1.5. */
  function Strength(ratio: real): (s: byte)
    requires ratio > MIN_PEAK_RATIO
    ensures s >= 50
  {
    var x := ((ratio - 1.0) * 100.0).Floor;
    if x > 255 then 255 else x
  }

  /** The decision: `dominantPitch` and `dominantPitchStrength`. */
  datatype Dominant = Dominant(pitch: byte, strength: byte)

  /**
   * The gate: the first maximum of the quantised chroma is reported when it
   * exceeds 30 and its smoothed energy is more than 1.5 times the average.
   */
  function DominantPitch(q: seq<byte>, smoothed: seq<real>): (d: Dominant)
    requires |q| == NUM_PITCH_CLASSES && |smoothed| == NUM_PITCH_CLASSES
    ensures d.pitch < 12 || d == Dominant(NO_PITCH, 0)
    ensures d.pitch < 12 ==> d.pitch == FirstMax(q, 12) && q[d.pitch] > MIN_PEAK_LEVEL && d.strength >= 50
    ensures d.pitch < 12 <==> q[FirstMax(q, 12)] > MIN_PEAK_LEVEL && PeakRatio(smoothed, FirstMax(q, 12)) > MIN_PEAK_RATIO
  {
    var k := FirstMax(q, 12);
    var ratio := PeakRatio(smoothed, k);
    if q[k] > MIN_PEAK_LEVEL && ratio > MIN_PEAK_RATIO then Dominant(k, Strength(ratio)) else Dominant(NO_PITCH, 0)
  }

  /** Equal energy in every pitch class (the ratio is 1, or 0 in silence) never yields a pitch. */
  lemma FlatChromaHasNoPitch(q: seq<byte>, smoothed: seq<real>, c: real)
    requires |q| == NUM_PITCH_CLASSES && |smoothed| == NUM_PITCH_CLASSES
    requires c >= 0.0 && forall j :: 0 <= j < 12 ==> smoothed[j] == c
    ensures DominantPitch(q, smoothed) == Dominant(NO_PITCH, 0)
  {
    SumOfConstant(smoothed, c);
    var k := FirstMax(q, 12);
    var avg := Sum(smoothed) / 12.0;
    assert avg == c;
    if avg > MIN_AVERAGE {
      assert smoothed[k] / avg == 1.0;
    }
  }

  /**
   * All the energy in one pitch class k that also leads the quantised chroma:
   * the ratio is 12, so k is reported at full strength 255.
   */
  lemma SinglePitchClassReported(q: seq<byte>, smoothed: seq<real>, k: nat)
    requires |q| == NUM_PITCH_CLASSES && |smoothed| == NUM_PITCH_CLASSES && k < 12
    requires forall j :: 0 <= j < 12 && j != k ==> smoothed[j] == 0.0 && q[j] < q[k]
    requires smoothed[k] > 12.0 * MIN_AVERAGE && q[k] > MIN_PEAK_LEVEL
    ensures DominantPitch(q, smoothed) == Dominant(k as byte, 255)
  {
    SumOfSingle(smoothed, k);
    var m := FirstMax(q, 12);
    FirstMaxUnique(q, m, k);
    var avg := Sum(smoothed) / 12.0;
    assert avg == smoothed[k] / 12.0;
    assert smoothed[k] / avg == 12.0;
    assert PeakRatio(smoothed, k) == 12.0;
  }

  /** The statics `calculateChroma` updates: the two arrays and the reported pitch. */
  class ChromaDetector {
    const chromaSmoothed: array<real>
    const chromaOut: array<byte>
    var dominantPitch: byte
    var dominantPitchStrength: byte

    ghost predicate Valid()
      reads this
    {
      chromaSmoothed.Length == NUM_PITCH_CLASSES && chromaOut.Length == NUM_PITCH_CLASSES
    }

    /** The power-on state: all zero, no pitch. */
    constructor ()
      ensures Valid() && fresh(chromaSmoothed) && fresh(chromaOut)
      ensures chromaSmoothed[..] == seq(12, _ => 0.0) && chromaOut[..] == Zeros(12)
      ensures dominantPitch == NO_PITCH && dominantPitchStrength == 0
    {
      chromaSmoothed := new real[12](_ => 0.0);
      chromaOut := new byte[12](_ => 0);
      dominantPitch := NO_PITCH;
      dominantPitchStrength := 0;
    }

    /** The argmax loop: the lowest index holding the largest quantised value. */
    method MaxIndex() returns (maxIdx: nat)
      requires Valid()
      ensures maxIdx < 12
      ensures forall j :: 0 <= j < 12 ==> chromaOut[j] <= chromaOut[maxIdx]
      ensures forall j :: 0 <= j < maxIdx ==> chromaOut[j] < chromaOut[maxIdx]
      ensures maxIdx == FirstMax(chromaOut[..], 12)
    {
      maxIdx := 0;
      var i := 1;
      while i < NUM_PITCH_CLASSES
        invariant 1 <= i <= 12
        invariant maxIdx == FirstMax(chromaOut[..], i)
      {
        if chromaOut[i] > chromaOut[maxIdx] {
          maxIdx := i;
        }
        i := i + 1;
      }
    }

    /** `totalChroma`, accumulated over the smoothed energies in index order. */
    method TotalChroma() returns (total: real)
      requires Valid()
      ensures total == Sum(chromaSmoothed[..])
    {
      total := 0.0;
      var i := 0;
      while i < NUM_PITCH_CLASSES
        invariant 0 <= i <= 12
        invariant total == Sum(chromaSmoothed[..i])
      {
        assert chromaSmoothed[..i + 1][..i] == chromaSmoothed[..i];
        total := total + chromaSmoothed[i];
        i := i + 1;
      }
      assert chromaSmoothed[..12] == chromaSmoothed[..];
    }

    /** The tail of `calculateChroma`: argmax, confidence ratio and gate. */
    method SelectDominantPitch()
      requires Valid()
      modifies this`dominantPitch, this`dominantPitchStrength
      ensures Dominant(dominantPitch, dominantPitchStrength) == DominantPitch(chromaOut[..], chromaSmoothed[..])
    {
      var maxIdx := MaxIndex();
      var total := TotalChroma();
      var avg := total / 12.0;
      var peakRatio := if avg > MIN_AVERAGE then chromaSmoothed[maxIdx] / avg else 0.0;
      if chromaOut[maxIdx] > MIN_PEAK_LEVEL && peakRatio > MIN_PEAK_RATIO {
        dominantPitch := maxIdx;
        var x := ((peakRatio - 1.0) * 100.0).Floor;
        dominantPitchStrength := if x > 255 then 255 else x;
      } else {
        dominantPitch := NO_PITCH;
        dominantPitchStrength := 0;
      }
    }
  }
}
