/**
 * Peak clusterer, after the clustering itself: per-label counts, the count
 * score against the expected number of beats, the per-cluster median height
 * loop, and the selection of the best cluster by `np.argmax`.
 */
module Clustering {
  import opened ArrayOps

  /** `KMeans(n_clusters=4)`. */
  const NClusters: nat := 4

  /** `labels == v`. */
  function LabelMask(labels: seq<int>, v: int): (m: seq<bool>)
    ensures |m| == |labels|
  {
    seq(|labels|, i requires 0 <= i < |labels| => labels[i] == v)
  }

  /** `np.where(labels == v)[0]`: the increasing positions carrying label v. */
  function Members(labels: seq<int>, v: int): (r: seq<int>)
    ensures StrictlyIncreasing(r)
    ensures forall i :: i in r <==> 0 <= i < |labels| && labels[i] == v
  {
    var r := Nonzero(LabelMask(labels, v));
    assert forall i :: i in r ==> 0 <= i < |labels| && labels[i] == v by {
      forall i | i in r ensures 0 <= i < |labels| && labels[i] == v {
        var k :| 0 <= k < |r| && r[k] == i;
      }
    }
    r
  }

  /** `np.unique(labels, return_counts=True)[1]`: the size of each listed label. */
  function Counts(labels: seq<int>, u: seq<int>): (c: seq<nat>)
    ensures |c| == |u|
  {
    seq(|u|, i requires 0 <= i < |u| => |Members(labels, u[i])|)
  }

  /**
   * `1 / (|count - expNpeaks| + 1)`: positive, at most 1, and exactly 1 when
   * the count matches the expected number of beats.
   */
  function CountScore(count: int, expected: real): (r: real)
    ensures 0.0 < r <= 1.0
    ensures r == 1.0 <==> count as real == expected
  {
    var d := Abs(count as real - expected) + 1.0;
    ReciprocalBounds(d);
    1.0 / d
  }

  lemma ReciprocalBounds(d: real)
    requires d >= 1.0
    ensures 0.0 < 1.0 / d <= 1.0
    ensures 1.0 / d == 1.0 <==> d == 1.0
  {
    var q := 1.0 / d;
    assert q * d == 1.0;
    if q == 1.0 {
      assert d == q * d;
    }
  }

  /** The count score strictly decreases as the count moves away from the expectation. */
  lemma CountScoreDecreasing(c1: int, c2: int, expected: real)
    requires Abs(c1 as real - expected) < Abs(c2 as real - expected)
    ensures CountScore(c1, expected) > CountScore(c2, expected)
  {
    var a := Abs(c1 as real - expected) + 1.0;
    var b := Abs(c2 as real - expected) + 1.0;
    ReciprocalDecreasing(a, b);
  }

  lemma ReciprocalDecreasing(a: real, b: real)
    requires 1.0 <= a < b
    ensures 1.0 / a > 1.0 / b
  {
    var qa, qb := 1.0 / a, 1.0 / b;
    assert qa * a == 1.0 && qb * b == 1.0;
    assert qb > 0.0;
    ScaleMonotone(a, b, qb);
    assert b * qb == 1.0;
    ScaleMonotone(qb, qa, a);
  }

  /**
   * The `medheight` loop: for each listed label i, append
   * `median(height[labels == i])` (the median is a library function).
   */
  method MedianHeights(height: seq<real>, labels: seq<int>, u: seq<int>,
                       median: seq<real> -> real) returns (medheight: seq<real>)
    requires |labels| == |height|
    ensures |medheight| == |u|
    ensures forall i :: 0 <= i < |u| ==>
      medheight[i] == median(Compress(height, LabelMask(labels, u[i])))
  {
    medheight := [];
    for i := 0 to |u|
      invariant |medheight| == i
      invariant forall j :: 0 <= j < i ==>
        medheight[j] == median(Compress(height, LabelMask(labels, u[j])))
    {
      var heightI := Compress(height, LabelMask(labels, u[i]));
      medheight := medheight + [median(heightI)];
    }
  }

  /**
   * `medheight = np.log10(medheight)`: for each listed label, the logarithm
   * of the median height of its members (median and logarithm are library
   * functions).
   */
  function Amplitudes(height: seq<real>, labels: seq<int>, u: seq<int>,
                      median: seq<real> -> real, log10: real -> real): (a: seq<real>)
    requires |labels| == |height|
    ensures |a| == |u|
  {
    seq(|u|, i requires 0 <= i < |u| => log10(median(Compress(height, LabelMask(labels, u[i])))))
  }

  /** `criterion = medheight * diffexpNpeaks`, with the amplitude scores given. */
  function Criterion(amplitude: seq<real>, counts: seq<nat>, expected: real): (r: seq<real>)
    requires |amplitude| == |counts|
    ensures |r| == |counts|
  {
    seq(|counts|, i requires 0 <= i < |counts| => amplitude[i] * CountScore(counts[i], expected))
  }

  /**
   * The whole criterion over `np.unique(labels)`: each listed label's log
   * median height weighted by its count score.
   */
  function ClusterCriterion(height: seq<real>, labels: seq<int>, expected: real,
                            median: seq<real> -> real, log10: real -> real): (r: seq<real>)
    requires |labels| == |height|
    ensures |r| == |Unique(labels)|
  {
    var u := Unique(labels);
    Criterion(Amplitudes(height, labels, u, median, log10), Counts(labels, u), expected)
  }

  /**
   * Of two clusters with the same positive amplitude, the one whose size is
   * closer to the expected number of beats has the larger criterion.
   */
  lemma CriterionPrefersExpectedCount(amplitude: seq<real>, counts: seq<nat>, expected: real, i: nat, j: nat)
    requires |amplitude| == |counts| && i < |counts| && j < |counts|
    requires amplitude[i] == amplitude[j] > 0.0
    requires Abs(counts[i] as real - expected) < Abs(counts[j] as real - expected)
    ensures Criterion(amplitude, counts, expected)[i] > Criterion(amplitude, counts, expected)[j]
  {
    var si, sj := CountScore(counts[i], expected), CountScore(counts[j], expected);
    CountScoreDecreasing(counts[i], counts[j], expected);
    ScaleMonotone(sj, si, amplitude[i]);
    assert sj * amplitude[i] < si * amplitude[i];
  }

  /**
   * Of two clusters of the same size, the one with the larger amplitude has
   * the larger criterion, since the count score is positive.
   */
  lemma CriterionPrefersAmplitude(amplitude: seq<real>, counts: seq<nat>, expected: real, i: nat, j: nat)
    requires |amplitude| == |counts| && i < |counts| && j < |counts|
    requires counts[i] == counts[j] && amplitude[i] > amplitude[j]
    ensures Criterion(amplitude, counts, expected)[i] > Criterion(amplitude, counts, expected)[j]
  {
    var sc := CountScore(counts[i], expected);
    ScaleMonotone(amplitude[j], amplitude[i], sc);
  }

  /** The chosen cluster: `peak_label`, `peak_label_idcs` and `labeled_peaks`. */
  datatype Selection = Selection(peakLabel: int, positions: seq<int>, peaks: seq<int>)

  /**
   * `peak_label = np.argmax(criterion)`, `peak_label_idcs = np.where(labels == peak_label)[0]`,
   * `labeled_peaks = all_peaks[peak_label_idcs]`. The label is the first
   * position of the largest criterion; the positions are exactly those whose
   * label equals it, increasing; the selected peaks are a strictly increasing
   * subsequence of the candidates.
   */
  function SelectCluster(allPeaks: seq<int>, labels: seq<int>, criterion: seq<real>): (r: Selection)
    requires |labels| == |allPeaks| && |criterion| > 0
    ensures 0 <= r.peakLabel < |criterion|
    ensures forall j :: 0 <= j < |criterion| ==> criterion[j] <= criterion[r.peakLabel]
    ensures forall j :: 0 <= j < r.peakLabel ==> criterion[j] < criterion[r.peakLabel]
    ensures StrictlyIncreasing(r.positions) && InRange(r.positions, 0, |labels|)
    ensures forall i :: i in r.positions <==> 0 <= i < |labels| && labels[i] == r.peakLabel
    ensures |r.peaks| == |r.positions|
    ensures forall k :: 0 <= k < |r.peaks| ==> r.peaks[k] == allPeaks[r.positions[k]]
    ensures StrictlyIncreasing(allPeaks) ==>
      StrictlyIncreasing(r.peaks) && forall x :: x in r.peaks ==> x in allPeaks
  {
    var peakLabel := ArgMax(criterion);
    var idcs := Members(labels, peakLabel);
    assert InRange(idcs, 0, |allPeaks|) by {
      forall k | 0 <= k < |idcs| ensures 0 <= idcs[k] < |allPeaks| {
        assert idcs[k] in idcs;
      }
    }
    var labeled := Gather(allPeaks, idcs);
    if StrictlyIncreasing(allPeaks) then
      GatherIncreasing(allPeaks, idcs);
      Selection(peakLabel, idcs, labeled)
    else
      Selection(peakLabel, idcs, labeled)
  }

  /**
   * When the labels are exactly 0..k-1, `np.unique` lists them in order, so
   * the index `np.argmax` returns is itself a label.
   */
  lemma ContiguousLabels(labels: seq<int>, k: nat)
    requires forall i :: 0 <= i < |labels| ==> 0 <= labels[i] < k
    requires forall v :: 0 <= v < k ==> v in labels
    ensures Unique(labels) == Range(k)
  {
    var u := Unique(labels);
    var ks := Range(k);
    forall x ensures x in u <==> x in ks {
      if x in labels {
        var i :| 0 <= i < |labels| && labels[i] == x;
        assert ks[x] == x;
      }
      if x in ks {
        var i :| 0 <= i < k && ks[i] == x;
        assert x in labels;
      }
    }
    IncreasingUnique(u, ks);
  }

  /**
   * With labels exactly 0..k-1, the selected cluster was scored by its own
   * size: the count used for the chosen criterion entry is the number of
   * selected peaks.
   */
  lemma SelectedScoredByOwnSize(allPeaks: seq<int>, labels: seq<int>, amplitude: seq<real>,
                                expected: real, k: nat)
    requires |labels| == |allPeaks|
    requires forall i :: 0 <= i < |labels| ==> 0 <= labels[i] < k
    requires forall v :: 0 <= v < k ==> v in labels
    requires |amplitude| == |Unique(labels)| > 0
    ensures var counts := Counts(labels, Unique(labels));
      var sel := SelectCluster(allPeaks, labels, Criterion(amplitude, counts, expected));
      counts[sel.peakLabel] == |sel.peaks|
  {
    ContiguousLabels(labels, k);
  }

  /**
   * The corrected selection: the label is the entry of `np.unique(labels)` at
   * the position of the largest criterion, so the selected cluster is the one
   * that was scored there, whatever labels occur.
   */
  function SelectClusterByLabel(allPeaks: seq<int>, labels: seq<int>, criterion: seq<real>): (r: Selection)
    requires |labels| == |allPeaks| && |criterion| == |Unique(labels)| > 0
    ensures r.peakLabel == Unique(labels)[ArgMax(criterion)]
    ensures |r.peaks| == Counts(labels, Unique(labels))[ArgMax(criterion)]
    ensures StrictlyIncreasing(r.positions) && InRange(r.positions, 0, |labels|)
    ensures forall i :: i in r.positions <==> 0 <= i < |labels| && labels[i] == r.peakLabel
    ensures |r.peaks| == |r.positions|
    ensures forall k :: 0 <= k < |r.peaks| ==> r.peaks[k] == allPeaks[r.positions[k]]
    ensures StrictlyIncreasing(allPeaks) ==>
      StrictlyIncreasing(r.peaks) && forall x :: x in r.peaks ==> x in allPeaks
  {
    var peakLabel := Unique(labels)[ArgMax(criterion)];
    var idcs := Members(labels, peakLabel);
    assert InRange(idcs, 0, |allPeaks|) by {
      forall k | 0 <= k < |idcs| ensures 0 <= idcs[k] < |allPeaks| {
        assert idcs[k] in idcs;
      }
    }
    var labeled := Gather(allPeaks, idcs);
    if StrictlyIncreasing(allPeaks) then
      GatherIncreasing(allPeaks, idcs);
      Selection(peakLabel, idcs, labeled)
    else
      Selection(peakLabel, idcs, labeled)
  }

  /**
   * With label 1 absent, `np.unique` gives [0, 2]; a criterion favouring the
   * second entry (label 2, three members) makes the as-written selection take
   * label 1 and select nothing, while the corrected selection takes label 2.
   */
  lemma AsWrittenSelectsUnscoredLabel()
    ensures Unique([0, 2, 2, 2]) == [0, 2]
    ensures SelectCluster([1, 3, 5, 7], [0, 2, 2, 2], [0.1, 0.9]).peaks == []
    ensures SelectClusterByLabel([1, 3, 5, 7], [0, 2, 2, 2], [0.1, 0.9]).peaks == [3, 5, 7]
  {
    UniqueExample();
    ArgMaxExample();
    MembersExample();
  }

  lemma UniqueExample()
    ensures Unique([0, 2, 2, 2]) == [0, 2]
  {
    var labels := [0, 2, 2, 2];
    var u := Unique(labels);
    forall x ensures x in u <==> x in [0, 2] {
      assert x in labels <==> x == 0 || x == 2;
    }
    IncreasingUnique(u, [0, 2]);
  }

  lemma ArgMaxExample()
    ensures ArgMax([0.1, 0.9]) == 1
  {
    assert [0.1, 0.9][..1] == [0.1];
  }

  lemma MembersExample()
    ensures Members([0, 2, 2, 2], 1) == []
    ensures Members([0, 2, 2, 2], 2) == [1, 2, 3]
  {
    var labels := [0, 2, 2, 2];
    var none := Members(labels, 1);
    assert |none| > 0 ==> none[0] in none;
    var two := Members(labels, 2);
    forall x ensures x in two <==> x in [1, 2, 3] {
    }
    IncreasingUnique(two, [1, 2, 3]);
  }
}
