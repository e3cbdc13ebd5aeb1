/**
 * Heart-rate estimator: the physiological band filter applied to a given
 * power spectrum (of the squared filtered signal) and the pick of its
 * strongest local maximum.
 */
module HeartRate {
  import opened Wrappers
  import opened ArrayOps
  import opened Candidates

  /** The physiological band in Hz. */
  const FMin: real := 0.8
  const FMax: real := 2.5

  /** Frequencies and power density, as returned by `welch`. */
  datatype Spectrum = Spectrum(freqs: seq<real>, power: seq<real>)

  predicate WellFormed(sp: Spectrum) {
    |sp.freqs| == |sp.power|
  }

  /** `f_range = np.logical_and(f >= fmin, f <= fmax)`. */
  function BandMask(f: seq<real>): (m: seq<bool>)
    ensures |m| == |f|
  {
    seq(|f|, i requires 0 <= i < |f| => FMin <= f[i] <= FMax)
  }

  /** `f = f[f_range]` and `powden = powden[f_range]`. */
  function BandLimited(sp: Spectrum): (b: Spectrum)
    requires WellFormed(sp)
    ensures WellFormed(b)
  {
    Spectrum(Compress(sp.freqs, BandMask(sp.freqs)), Compress(sp.power, BandMask(sp.freqs)))
  }

  /**
   * The band filter keeps exactly the bins whose frequency lies in
   * [FMin, FMax], paired with their power, in their original order.
   */
  lemma BandLimitedSpec(sp: Spectrum)
    requires WellFormed(sp)
    ensures var idx := Nonzero(BandMask(sp.freqs)); var b := BandLimited(sp);
      StrictlyIncreasing(idx) &&
      (forall i :: i in idx <==> 0 <= i < |sp.freqs| && FMin <= sp.freqs[i] <= FMax) &&
      |b.freqs| == |idx| &&
      (forall k :: 0 <= k < |idx| ==> b.freqs[k] == sp.freqs[idx[k]] && b.power[k] == sp.power[idx[k]])
    ensures forall k :: 0 <= k < |BandLimited(sp).freqs| ==> FMin <= BandLimited(sp).freqs[k] <= FMax
  {
    var idx := Nonzero(BandMask(sp.freqs));
    forall i | i in idx ensures 0 <= i < |sp.freqs| && FMin <= sp.freqs[i] <= FMax {
      var k :| 0 <= k < |idx| && idx[k] == i;
    }
  }

  datatype RateError = NoSpectralPeak

  /** The estimate: the chosen position in the band-limited spectrum and its frequency. */
  datatype Estimate = Estimate(bandIndex: nat, freq: real)

  /**
   * `pow_peaks = find_peaks(powden)[0]`, `max_pow = pow_peaks[np.argmax(powden[pow_peaks])]`,
   * `freq_est = f[max_pow]`; `np.argmax` of no peaks is an error.
   * The pick is a local maximum of in-band power with the largest power, the
   * first one on ties; it fails exactly when there is no in-band local maximum.
   */
  function PickHeartRate(sp: Spectrum): (r: Result<Estimate, RateError>)
    requires WellFormed(sp)
    ensures r.Failure? <==> forall i :: !IsLocalMax(BandLimited(sp).power, i)
    ensures r.Success? ==>
      var b := BandLimited(sp);
      var m := r.value.bandIndex;
      m < |b.freqs| && r.value.freq == b.freqs[m] && IsLocalMax(b.power, m) &&
      FMin <= r.value.freq <= FMax &&
      (forall j :: IsLocalMax(b.power, j) ==> b.power[j] <= b.power[m]) &&
      (forall j :: j < m && IsLocalMax(b.power, j) ==> b.power[j] < b.power[m])
  {
    var b := BandLimited(sp);
    var powPeaks := ArgRelMax(b.power);
    if |powPeaks| == 0 then
      Failure(NoSpectralPeak)
    else
      assert InRange(powPeaks, 0, |b.power|) by {
        forall k | 0 <= k < |powPeaks| ensures 0 <= powPeaks[k] < |b.power| {
          assert powPeaks[k] in powPeaks;
        }
      }
      var maxPow := powPeaks[ArgMax(Gather(b.power, powPeaks))];
      BandLimitedSpec(sp);
      ArgMaxAmong(b.power, powPeaks);
      assert powPeaks[ArgMax(Gather(b.power, powPeaks))] in powPeaks;
      assert forall j :: IsLocalMax(b.power, j) ==> exists t :: 0 <= t < |powPeaks| && powPeaks[t] == j by {
        forall j | IsLocalMax(b.power, j) ensures exists t :: 0 <= t < |powPeaks| && powPeaks[t] == j {
          assert j in powPeaks;
        }
      }
      Success(Estimate(maxPow, b.freqs[maxPow]))
  }

  /** `expNpeaks = (n / sfreq) * freq_est`: the duration in seconds times the rate. */
  function ExpectedPeaks(n: nat, sfreq: real, freq: real): real
    requires sfreq != 0.0
  {
    (n as real / sfreq) * freq
  }
}
