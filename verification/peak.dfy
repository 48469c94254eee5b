/**
 * The major-peak estimate of `calculatePeakData`: a scan of FFT bins 2..255
 * for the first strict maximum, a parabolic refinement applied only strictly
 * inside that window, and the conversion to whole hertz clamped to
 * [0, 22050]. The magnitudes are real inputs; the logarithmic magnitude byte
 * is float arithmetic and not part of this model.
 */
module Peak {
  /** Bins of the 1024-point FFT. */
  const FFT_BINS: nat := 512
  const PEAK_BIN_START: nat := 2
  const PEAK_BIN_END: nat := 255
  /** 44100 / 1024 hertz per bin. */
  const BIN_FREQ_HZ: real := 44100.0 / 1024.0
  const NYQUIST_HZ: real := 22050.0
  /** `fabsf(denom)` must exceed this for the refinement to apply. */
  const MIN_DENOM: real := 0.000000000001

  function Abs(x: real): real
  {
    if x < 0.0 then -x else x
  }

  /**
   * The scan over bins 2 .. end-1: the bin and magnitude of the first value
   * strictly above every earlier one and above 0, or bin 2 with magnitude 0
   * when no magnitude is positive.
   */
  function PeakScan(m: seq<real>, end: nat): (r: (nat, real))
    requires PEAK_BIN_START <= end <= PEAK_BIN_END + 1 <= |m|
    ensures PEAK_BIN_START <= r.0 <= PEAK_BIN_END && r.1 >= 0.0
    ensures forall b :: PEAK_BIN_START <= b < end ==> m[b] <= r.1
    ensures r.1 == 0.0 ==> r.0 == PEAK_BIN_START
    ensures r.1 > 0.0 ==> r.0 < end && m[r.0] == r.1 && forall b :: PEAK_BIN_START <= b < r.0 ==> m[b] < r.1
  {
    if end == PEAK_BIN_START then (PEAK_BIN_START, 0.0)
    else
      var p := PeakScan(m, end - 1);
      if m[end - 1] > p.1 then (end - 1, m[end - 1]) else p
  }

  /** The scan over the whole window 2..255. */
  function PeakBin(m: seq<real>): (b: nat)
    requires |m| == FFT_BINS
    ensures PEAK_BIN_START <= b <= PEAK_BIN_END
  {
    PeakScan(m, PEAK_BIN_END + 1).0
  }

  /** The parabolic offset through the three magnitudes around the peak; 0 when the parabola is flat. */
  function Offset(alpha: real, beta: real, gamma: real): real
  {
    var denom := alpha - 2.0 * beta + gamma;
    if Abs(denom) > MIN_DENOM then 0.5 * (alpha - gamma) / denom else 0.0
  }

  /** `refinedBin`: the peak bin, moved by the parabolic offset only when it lies strictly inside 2..255. */
  function RefinedBin(m: seq<real>, peakBin: nat): real
    requires |m| == FFT_BINS && PEAK_BIN_START <= peakBin <= PEAK_BIN_END
  {
    if PEAK_BIN_START < peakBin < PEAK_BIN_END then
      peakBin as real + Offset(m[peakBin - 1], m[peakBin], m[peakBin + 1])
    else
      peakBin as real
  }

  /** `hz` clamped to [0, 22050], rounded half up by `(uint16_t)(hz + 0.5f)`. */
  function RoundedHz(refined: real): (hz: nat)
    ensures hz as real <= NYQUIST_HZ
    ensures refined * BIN_FREQ_HZ <= 0.0 ==> hz == 0
  {
    var raw := refined * BIN_FREQ_HZ;
    var clamped := if raw < 0.0 then 0.0 else if raw > NYQUIST_HZ then NYQUIST_HZ else raw;
    (clamped + 0.5).Floor
  }

  /** `majorPeakHz` for one frame of magnitudes. */
  function MajorPeakHz(m: seq<real>): (hz: nat)
    requires |m| == FFT_BINS
    ensures hz < 0x1_0000
  {
    RoundedHz(RefinedBin(m, PeakBin(m)))
  }

  /** A peak at bin 2 or bin 255 is reported at its bin centre, without refinement. */
  lemma EdgePeakNotRefined(m: seq<real>)
    requires |m| == FFT_BINS
    requires PeakBin(m) == PEAK_BIN_START || PeakBin(m) == PEAK_BIN_END
    ensures RefinedBin(m, PeakBin(m)) == PeakBin(m) as real
  {
  }

  /** A parabola through a middle value that is at least its neighbours has its vertex within half a bin. */
  lemma OffsetAtMostHalf(alpha: real, beta: real, gamma: real)
    requires alpha <= beta && gamma <= beta
    ensures -0.5 <= Offset(alpha, beta, gamma) <= 0.5
  {
    var denom := alpha - 2.0 * beta + gamma;
    if Abs(denom) > MIN_DENOM {
      assert denom < 0.0;
      var a := beta - alpha;
      var g := beta - gamma;
      assert denom == -(a + g);
      assert Abs(alpha - gamma) <= a + g;
      assert 0.5 * (alpha - gamma) / denom == 0.5 * (a - g) / (a + g);
      RatioAtMostOne(a - g, a + g);
    }
  }

  /** A quotient whose numerator is no larger in size than its positive denominator lies in [-1, 1]. */
  lemma RatioAtMostOne(x: real, y: real)
    requires y > 0.0 && -y <= x <= y
    ensures -1.0 <= x / y <= 1.0
  {
    assert (x / y) * y == x;
  }

  /** The refined bin stays within half a bin of the scanned peak bin. */
  lemma RefinedWithinHalfBin(m: seq<real>)
    requires |m| == FFT_BINS
    ensures var b := PeakBin(m) as real;
      b - 0.5 <= RefinedBin(m, PeakBin(m)) <= b + 0.5
  {
    var p := PeakScan(m, PEAK_BIN_END + 1);
    var b := p.0;
    if PEAK_BIN_START < b < PEAK_BIN_END {
      assert m[b - 1] <= p.1 && m[b + 1] <= p.1;
      assert p.1 > 0.0;
      OffsetAtMostHalf(m[b - 1], m[b], m[b + 1]);
    }
  }

  /**
   * Neither clamp ever engages: the reported frequency is the refined bin's
   * frequency rounded to the nearest hertz, which lies between 1.5 and
   * 255.5 bins (about 65 Hz to 11 kHz).
   */
  lemma ClampsNeverEngage(m: seq<real>)
    requires |m| == FFT_BINS
    ensures var refined := RefinedBin(m, PeakBin(m));
      && 1.5 <= refined <= 255.5
      && 0.0 < refined * BIN_FREQ_HZ < NYQUIST_HZ
      && MajorPeakHz(m) == (refined * BIN_FREQ_HZ + 0.5).Floor
  {
    RefinedWithinHalfBin(m);
  }

  /**
   * The magnitude loop of `calculatePeakData`: the first strict maximum over
   * bins 2..255, starting from magnitude 0 at bin 2.
   */
  method ScanPeakBin(mags: array<real>) returns (peakBin: nat, peakMag: real)
    requires mags.Length == FFT_BINS
    ensures (peakBin, peakMag) == PeakScan(mags[..], PEAK_BIN_END + 1)
    ensures PEAK_BIN_START <= peakBin <= PEAK_BIN_END
    ensures forall b :: PEAK_BIN_START <= b <= PEAK_BIN_END ==> mags[b] <= peakMag
  {
    peakBin := PEAK_BIN_START;
    peakMag := 0.0;
    var bin := PEAK_BIN_START;
    while bin <= PEAK_BIN_END
      invariant PEAK_BIN_START <= bin <= PEAK_BIN_END + 1
      invariant (peakBin, peakMag) == PeakScan(mags[..], bin)
    {
      var mag := mags[bin];
      if mag > peakMag {
        peakMag := mag;
        peakBin := bin;
      }
      bin := bin + 1;
    }
  }

  /** `majorPeakHz` from one frame of magnitudes: scan, refinement strictly inside the window, clamping and rounding. */
  method CalculateMajorPeakHz(mags: array<real>) returns (majorPeakHz: nat)
    requires mags.Length == FFT_BINS
    ensures majorPeakHz == MajorPeakHz(mags[..])
    ensures majorPeakHz < 0x1_0000
  {
    var peakBin, peakMag := ScanPeakBin(mags);
    var refinedBin := peakBin as real;
    if peakBin > PEAK_BIN_START && peakBin < PEAK_BIN_END {
      var alpha := mags[peakBin - 1];
      var beta := mags[peakBin];
      var gamma := mags[peakBin + 1];
      var denom := alpha - 2.0 * beta + gamma;
      var delta := if Abs(denom) > MIN_DENOM then 0.5 * (alpha - gamma) / denom else 0.0;
      refinedBin := refinedBin + delta;
    }
    var hz := refinedBin * BIN_FREQ_HZ;
    if hz < 0.0 {
      hz := 0.0;
    }
    if hz > NYQUIST_HZ {
      hz := NYQUIST_HZ;
    }
    majorPeakHz := (hz + 0.5).Floor;
  }
}
