/**
 * Preprocessor: the cutoff normalisation of `butter_bandpass`, the squared
 * signal used for the spectrum, and the in-place zeroing of outliers.
 */
module Preprocess {
  import opened Wrappers
  import opened ArrayOps

  /** Band edges and filter order the script uses (Hz). */
  const LowCut: real := 1.0
  const HighCut: real := 100.0
  const FilterOrder: nat := 3

  /** Critical frequencies of the Butterworth design, as fractions of Nyquist. */
  datatype Cutoffs = Cutoffs(low: real, high: real)

  /**
   * `butter_bandpass` up to the design call: both cutoffs divided by the
   * Nyquist frequency `0.5 * fs`; a zero rate is a division by zero.
   */
  function NormalizedCutoffs(lowcut: real, highcut: real, fs: real): (r: Option<Cutoffs>)
    ensures r.None? <==> fs == 0.0
    ensures r.Some? ==> r.value.low * (0.5 * fs) == lowcut && r.value.high * (0.5 * fs) == highcut
  {
    if fs == 0.0 then None
    else
      var nyq := 0.5 * fs;
      Some(Cutoffs(lowcut / nyq, highcut / nyq))
  }

  /**
   * For a positive rate the normalised band is a valid digital band
   * (0 < low < high < 1) exactly when 0 < lowcut < highcut < fs / 2.
   */
  lemma CutoffsValidIff(lowcut: real, highcut: real, fs: real)
    requires fs > 0.0
    ensures var c := NormalizedCutoffs(lowcut, highcut, fs).value;
      (0.0 < c.low < c.high < 1.0) <==> (0.0 < lowcut < highcut < 0.5 * fs)
  {
    var nyq := 0.5 * fs;
    var c := NormalizedCutoffs(lowcut, highcut, fs).value;
    RatioOrder(0.0, c.low, 0.0, lowcut, nyq);
    RatioOrder(c.low, c.high, lowcut, highcut, nyq);
    RatioOrder(c.high, 1.0, highcut, nyq, nyq);
  }

  /** Multiplying by a positive factor preserves strict order. */
  lemma RatioOrder(x: real, y: real, xf: real, yf: real, f: real)
    requires f > 0.0 && x * f == xf && y * f == yf
    ensures x < y <==> xf < yf
  {
    ScaleMonotone(x, y, f);
  }

  /** `x**2`, elementwise. */
  function Squared(s: seq<real>): (r: seq<real>)
    ensures |r| == |s|
  {
    seq(|s|, i requires 0 <= i < |s| => s[i] * s[i])
  }

  /** `np.abs(x)`, elementwise. */
  function AbsAll(s: seq<real>): (r: seq<real>)
    ensures |r| == |s|
    ensures forall i :: 0 <= i < |s| ==> r[i] >= 0.0
  {
    seq(|s|, i requires 0 <= i < |s| => Abs(s[i]))
  }

  /** The outlier mask `np.abs(x) > t`. */
  function OutlierMask(s: seq<real>, t: real): (m: seq<bool>)
    ensures |m| == |s|
  {
    seq(|s|, i requires 0 <= i < |s| => Abs(s[i]) > t)
  }

  /** The signal after `x[outliers] = 0`. */
  function Clamped(s: seq<real>, t: real): (r: seq<real>)
    ensures |r| == |s|
  {
    seq(|s|, i requires 0 <= i < |s| => if Abs(s[i]) > t then 0.0 else s[i])
  }

  /**
   * Clamping keeps every sample within the threshold, leaves in-range samples
   * alone, and a second clamp with the same threshold changes nothing.
   */
  lemma ClampedWithinThreshold(s: seq<real>, t: real)
    requires t >= 0.0
    ensures forall i :: 0 <= i < |s| ==> Abs(Clamped(s, t)[i]) <= t
    ensures forall i :: 0 <= i < |s| && Abs(s[i]) <= t ==> Clamped(s, t)[i] == s[i]
    ensures Clamped(Clamped(s, t), t) == Clamped(s, t)
  {
  }

  /** `ecg_filt[np.abs(ecg_filt) > t] = 0`, in place. */
  method ClampOutliers(a: array<real>, t: real)
    modifies a
    ensures a[..] == Clamped(old(a[..]), t)
  {
    var outliers := OutlierMask(a[..], t);
    for i := 0 to a.Length
      invariant forall k :: 0 <= k < i ==> a[k] == Clamped(old(a[..]), t)[k]
      invariant forall k :: i <= k < a.Length ==> a[k] == old(a[k])
    {
      if outliers[i] {
        a[i] := 0.0;
      }
    }
  }
}
