/**
 * Conflict resolver: flags adjacent selected peaks closer than half the
 * expected inter-beat interval, marks the less cluster-typical member of each
 * flagged pair in the centroid-distance array, and builds the final peaks.
 */
module Conflicts {
  import opened ArrayOps

  /** Python's `int()` on a float: truncation toward zero. */
  function Trunc(x: real): (r: int)
    ensures x >= 0.0 ==> r as real <= x < r as real + 1.0
    ensures x < 0.0 ==> r as real - 1.0 < x <= r as real
  {
    if x >= 0.0 then x.Floor else -((-x).Floor)
  }

  /** `ibi_est = int(1. / freq_est * sfreq)`, the expected inter-beat interval in samples. */
  function IbiEstimate(freq: real, sfreq: real): int
    requires freq != 0.0
  {
    Trunc(1.0 / freq * sfreq)
  }

  /** The gap from peak p to peak p + 1 is below half the expected interval. */
  predicate TooClose(peaks: seq<int>, ibi: int, p: int)
    requires 0 <= p < |peaks| - 1
  {
    ((peaks[p + 1] - peaks[p]) as real) < (ibi as real) * 0.5
  }

  /** `np.diff(labeled_peaks) < ibi_est * .5`. */
  function FlagMask(peaks: seq<int>, ibi: int): (m: seq<bool>)
    ensures |m| == if |peaks| == 0 then 0 else |peaks| - 1
  {
    if |peaks| == 0 then []
    else
      seq(|peaks| - 1, p requires 0 <= p < |peaks| - 1 => TooClose(peaks, ibi, p))
  }

  /** `fp_peak_idcs`: positions p whose gap to the next peak is too short. */
  function Flagged(peaks: seq<int>, ibi: int): seq<int> {
    Nonzero(FlagMask(peaks, ibi))
  }

  /**
   * Position p is flagged exactly when p and p + 1 are both peaks and their
   * gap is below half the expected interval; the flags are increasing.
   */
  lemma FlaggedSpec(peaks: seq<int>, ibi: int)
    ensures StrictlyIncreasing(Flagged(peaks, ibi))
    ensures forall p :: p in Flagged(peaks, ibi) <==>
      0 <= p < |peaks| - 1 && TooClose(peaks, ibi, p)
  {
    var m := FlagMask(peaks, ibi);
    var f := Nonzero(m);
    forall p | p in f ensures 0 <= p < |peaks| - 1 && TooClose(peaks, ibi, p) {
      var k :| 0 <= k < |f| && f[k] == p;
      assert 0 <= p < |m| && m[p];
    }
    forall p | 0 <= p < |peaks| - 1 && TooClose(peaks, ibi, p) ensures p in f {
      assert m[p];
    }
  }

  /** Every flag names a pair (p, p + 1) of peaks. */
  lemma FlaggedInRange(peaks: seq<int>, ibi: int)
    ensures InRange(Flagged(peaks, ibi), 0, |peaks| - 1)
  {
    var f := Flagged(peaks, ibi);
    FlaggedSpec(peaks, ibi);
    forall k | 0 <= k < |f| ensures 0 <= f[k] < |peaks| - 1 {
      assert f[k] in f;
    }
  }

  /**
   * `discard_peak = np.argmax([peaka, peakb])`: the pair member with the
   * larger distance to the centroid, the first (p) on ties.
   */
  function DiscardIndex(d: seq<real>, p: int): (q: int)
    requires 0 <= p < |d| - 1
    ensures q == p || q == p + 1
    ensures q == p <==> d[p] >= d[p + 1]
  {
    ArgMaxPair(d[p], d[p + 1]);
    p + ArgMax([d[p], d[p + 1]])
  }

  /**
   * One iteration: `disttocent[p:p + 2][discard_peak] = np.max(disttocent) + 1`.
   * The discarded entry then exceeds every other entry; all other entries and
   * the length are unchanged.
   */
  function MarkStep(d: seq<real>, p: int): (r: seq<real>)
    requires 0 <= p < |d| - 1
    ensures |r| == |d|
    ensures forall i :: 0 <= i < |d| && i != DiscardIndex(d, p) ==> r[i] == d[i]
    ensures forall i :: 0 <= i < |d| && i != DiscardIndex(d, p) ==> r[i] < r[DiscardIndex(d, p)]
  {
    d[DiscardIndex(d, p) := Max(d) + 1.0]
  }

  /** The distances after the first k iterations of the loop over `flagged`. */
  function MarkedAfter(d: seq<real>, flagged: seq<int>, k: nat): (r: seq<real>)
    requires InRange(flagged, 0, |d| - 1) && k <= |flagged|
    ensures |r| == |d|
  {
    if k == 0 then d else MarkStep(MarkedAfter(d, flagged, k - 1), flagged[k - 1])
  }

  /** The distances after all iterations. */
  function Marked(d: seq<real>, flagged: seq<int>): (r: seq<real>)
    requires InRange(flagged, 0, |d| - 1)
    ensures |r| == |d|
  {
    MarkedAfter(d, flagged, |flagged|)
  }

  /** The entries chosen for discarding in the first k iterations, in order. */
  function DiscardedAfter(d: seq<real>, flagged: seq<int>, k: nat): (r: seq<int>)
    requires InRange(flagged, 0, |d| - 1) && k <= |flagged|
    ensures |r| == k
    ensures forall t :: 0 <= t < k ==> r[t] == flagged[t] || r[t] == flagged[t] + 1
  {
    if k == 0 then []
    else DiscardedAfter(d, flagged, k - 1) + [DiscardIndex(MarkedAfter(d, flagged, k - 1), flagged[k - 1])]
  }

  /** The entries chosen for discarding, one per flagged position, in order. */
  function Discarded(d: seq<real>, flagged: seq<int>): (r: seq<int>)
    requires InRange(flagged, 0, |d| - 1)
    ensures |r| == |flagged|
    ensures forall t :: 0 <= t < |flagged| ==> r[t] == flagged[t] || r[t] == flagged[t] + 1
  {
    DiscardedAfter(d, flagged, |flagged|)
  }

  /** The false-positive loop over `fp_peak_idcs`, updating `disttocent` in place. */
  method MarkConflicts(disttocent: array<real>, flagged: seq<int>)
    requires InRange(flagged, 0, disttocent.Length - 1)
    modifies disttocent
    ensures disttocent[..] == Marked(old(disttocent[..]), flagged)
  {
    ghost var d0 := disttocent[..];
    for i := 0 to |flagged|
      invariant disttocent[..] == MarkedAfter(d0, flagged, i)
    {
      MarkPair(disttocent, flagged[i]);
    }
  }

  /** One iteration of the loop, for the flagged pair (p, p + 1). */
  method MarkPair(disttocent: array<real>, p: int)
    requires 0 <= p < disttocent.Length - 1
    modifies disttocent
    ensures disttocent[..] == MarkStep(old(disttocent[..]), p)
  {
    var peaka := disttocent[p];
    var peakb := disttocent[p + 1];
    var discardPeak := ArgMax([peaka, peakb]);
    ArgMaxPair(peaka, peakb);
    assert p + discardPeak == DiscardIndex(disttocent[..], p);
    disttocent[p + discardPeak] := Max(disttocent[..]) + 1.0;
  }

  /**
   * `final_peaks = np.delete(labeled_peaks.copy(), np.where(final_peaks == 0)[0])`:
   * the peaks with every entry equal to 0 removed.
   */
  function FinalPeaks(peaks: seq<int>): seq<int> {
    Compress(peaks, seq(|peaks|, i requires 0 <= i < |peaks| => peaks[i] != 0))
  }

  /**
   * As written, the deletion removes only peaks at sample 0, so when no peak
   * is at sample 0 (candidates never are) the final peaks are the selected
   * peaks: the marking of the distances has no effect on the output.
   */
  lemma FinalPeaksUnchanged(peaks: seq<int>)
    requires forall k :: 0 <= k < |peaks| ==> peaks[k] != 0
    ensures FinalPeaks(peaks) == peaks
  {
    var keep := seq(|peaks|, i requires 0 <= i < |peaks| => peaks[i] != 0);
    NonzeroAllTrue(keep);
  }

  /**
   * A flagged pair with unequal distances survives the as-written pass intact,
   * while the corrected resolution drops its member farther from the centroid.
   */
  lemma AsWrittenKeepsConflictingPair()
    ensures Flagged([10, 12], 100) == [0]
    ensures FinalPeaks([10, 12]) == [10, 12]
    ensures ResolvedPeaks([10, 12], [0.5, 0.7], [0]) == [10]
  {
    SingleTrue();
    assert FlagMask([10, 12], 100) == [true];
    FinalPeaksUnchanged([10, 12]);
    PairDiscard();
    var keep := seq(2, i requires 0 <= i < 2 => i !in [1]);
    assert keep == [true, false];
    assert keep[..1] == [true];
    assert Nonzero(keep) == Nonzero([true]);
  }

  lemma SingleTrue()
    ensures Nonzero([true]) == [0]
  {
    assert [true][..0] == [];
  }

  lemma PairDiscard()
    ensures Discarded([0.5, 0.7], [0]) == [1]
  {
    var d := [0.5, 0.7];
    assert [0][..0] == [];
    assert Marked(d, []) == d;
    assert [d[0], d[1]][..1] == [0.5];
    assert ArgMax([d[0], d[1]]) == 1;
    assert DiscardIndex(d, 0) == 1;
  }

  /** Of every flagged pair (p, p + 1), at least one member is missing from `kept`. */
  predicate BreaksPairs(peaks: seq<int>, flagged: seq<int>, kept: seq<int>) {
    forall p :: p in flagged && 0 <= p < |peaks| - 1 ==> !(peaks[p] in kept && peaks[p + 1] in kept)
  }

  /**
   * The corrected resolution: the selected peaks without the ones chosen for
   * discarding.
   */
  function ResolvedPeaks(peaks: seq<int>, disttocent: seq<real>, flagged: seq<int>): seq<int>
    requires |disttocent| == |peaks| && InRange(flagged, 0, |peaks| - 1)
  {
    var gone := Discarded(disttocent, flagged);
    Compress(peaks, seq(|peaks|, i requires 0 <= i < |peaks| => i !in gone))
  }

  /**
   * The corrected resolution keeps a strictly increasing subsequence of the
   * selected peaks: exactly the entries not chosen for discarding, so of every
   * flagged pair at least one member is gone.
   */
  lemma ResolvedPeaksSpec(peaks: seq<int>, disttocent: seq<real>, flagged: seq<int>)
    requires StrictlyIncreasing(peaks)
    requires |disttocent| == |peaks| && InRange(flagged, 0, |peaks| - 1)
    ensures var r := ResolvedPeaks(peaks, disttocent, flagged);
      StrictlyIncreasing(r) && |r| <= |peaks| &&
      (forall x :: x in r ==> x in peaks) &&
      (forall i :: 0 <= i < |peaks| ==> (peaks[i] in r <==> i !in Discarded(disttocent, flagged))) &&
      (forall p :: p in flagged ==> !(peaks[p] in r && peaks[p + 1] in r))
  {
    var gone := Discarded(disttocent, flagged);
    var keep := seq(|peaks|, i requires 0 <= i < |peaks| => i !in gone);
    CompressIncreasing(peaks, keep);
    var r := Compress(peaks, keep);
    forall p | p in flagged ensures !(peaks[p] in r && peaks[p + 1] in r) {
      var t :| 0 <= t < |flagged| && flagged[t] == p;
      assert gone[t] in gone;
    }
  }

}
