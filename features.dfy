/**
 * Feature builder: the per-candidate slope loop and the merge of maximum and
 * minimum prominences back into candidate order. Prominences themselves,
 * the instantaneous frequency and the scaling are library outputs.
 */
module Features {
  import opened Wrappers
  import opened ArrayOps

  /** What a candidate sequence must satisfy for the slope loop's slices. */
  predicate SlopeInput(x: seq<real>, peaks: seq<int>) {
    StrictlyIncreasing(peaks) && InRange(peaks, 0, |x| - 1)
  }

  /**
   * Slope of candidate p: 0 at the first and last candidate, otherwise the
   * mean absolute first difference from the previous candidate (included) to
   * the next one (excluded).
   */
  function SlopeSpec(x: seq<real>, peaks: seq<int>): (r: seq<real>)
    requires SlopeInput(x, peaks)
    ensures |r| == |peaks|
  {
    seq(|peaks|, p requires 0 <= p < |peaks| =>
      if 1 <= p < |peaks| - 1 then Mean(AbsDiff(x)[peaks[p - 1]..peaks[p + 1]]) else 0.0)
  }

  /**
   * The slope loop: `slope = np.zeros(n)`, then for each interior candidate p
   * `slope[p] = np.mean(firstdiff[all_peaks[p-1]:all_peaks[p+1]])`.
   */
  method Slope(x: seq<real>, peaks: seq<int>) returns (slope: seq<real>)
    requires SlopeInput(x, peaks)
    ensures slope == SlopeSpec(x, peaks)
  {
    ghost var spec := SlopeSpec(x, peaks);
    var a := new real[|peaks|](_ => 0.0);
    var firstdiff := AbsDiff(x);
    if |peaks| > 2 {
      for p := 1 to |peaks| - 1
        invariant forall q :: 0 <= q < a.Length ==> a[q] == if 1 <= q < p then spec[q] else 0.0
      {
        var leftpeak := peaks[p - 1];
        var rightpeak := peaks[p + 1];
        assert leftpeak < rightpeak < |firstdiff|;
        a[p] := Mean(firstdiff[leftpeak..rightpeak]);
      }
    }
    slope := a[..];
  }

  /**
   * The end candidates have slope 0; every interior slope averages a
   * non-empty range of absolute differences, so it is at least 0 and at most
   * the largest absolute first difference of the signal.
   */
  lemma SlopeBounds(x: seq<real>, peaks: seq<int>)
    requires SlopeInput(x, peaks)
    ensures var r := SlopeSpec(x, peaks);
      |peaks| > 0 ==> r[0] == 0.0 && r[|peaks| - 1] == 0.0
    ensures |peaks| > 0 ==> |AbsDiff(x)| > 0
    ensures forall p :: 1 <= p < |peaks| - 1 ==>
      peaks[p - 1] < peaks[p + 1] &&
      0.0 <= SlopeSpec(x, peaks)[p] <= Max(AbsDiff(x))
  {
    var d := AbsDiff(x);
    if |peaks| > 0 {
      assert 0 <= peaks[0] < |x| - 1;
    }
    forall p | 1 <= p < |peaks| - 1
      ensures 0.0 <= SlopeSpec(x, peaks)[p] <= Max(d)
    {
      var w := d[peaks[p - 1]..peaks[p + 1]];
      forall i | 0 <= i < |w| ensures 0.0 <= w[i] <= Max(d) {
        assert w[i] == d[peaks[p - 1] + i];
      }
      MeanBounds(w, 0.0, Max(d));
    }
  }

  /** `x * -1`, the signal whose maxima are the minima of `x`. */
  function Negated(x: seq<real>): (r: seq<real>)
    ensures |r| == |x|
  {
    seq(|x|, i requires 0 <= i < |x| => x[i] * -1.0)
  }

  /** `a[idx] = vals`, in place. */
  method Scatter(a: array<Option<real>>, idx: seq<int>, vals: seq<real>)
    requires StrictlyIncreasing(idx) && InRange(idx, 0, a.Length) && |vals| == |idx|
    modifies a
    ensures forall j :: 0 <= j < |idx| ==> a[idx[j]] == Some(vals[j])
    ensures forall i :: 0 <= i < a.Length && i !in idx ==> a[i] == old(a[i])
  {
    for k := 0 to |idx|
      invariant forall j :: 0 <= j < k ==> a[idx[j]] == Some(vals[j])
      invariant forall i :: 0 <= i < a.Length && i !in idx[..k] ==> a[i] == old(a[i])
    {
      a[idx[k]] := Some(vals[k]);
      assert idx[..k + 1] == idx[..k] + [idx[k]];
    }
    assert idx[..|idx|] == idx;
  }

  /** `x[~np.isnan(x)]`: the present entries, in index order. */
  function Compacted(s: seq<Option<real>>): (r: seq<real>)
    ensures |r| == |Nonzero(seq(|s|, i requires 0 <= i < |s| => s[i].Some?))|
  {
    var present := Nonzero(seq(|s|, i requires 0 <= i < |s| => s[i].Some?));
    seq(|present|, k requires 0 <= k < |present| => s[present[k]].value)
  }

  /**
   * The prominence merge: a NaN-filled array over the whole signal (NaN is
   * None), maxima prominences scattered at their indices, then minima
   * prominences (the later write wins), then the non-NaN entries compacted in
   * index order. The result lines up with `union1d(pos, neg)`: entry k is the
   * prominence given for candidate k, from `negprom` when the candidate is a
   * minimum and from `posprom` otherwise.
   */
  method MergeProminence(n: nat, pos: seq<int>, posprom: seq<real>,
                         neg: seq<int>, negprom: seq<real>) returns (prom: seq<real>)
    requires StrictlyIncreasing(pos) && StrictlyIncreasing(neg)
    requires InRange(pos, 0, n) && InRange(neg, 0, n)
    requires |posprom| == |pos| && |negprom| == |neg|
    ensures |prom| == |Union1d(pos, neg)|
    ensures forall k, j :: 0 <= k < |prom| && 0 <= j < |neg| && neg[j] == Union1d(pos, neg)[k] ==>
      prom[k] == negprom[j]
    ensures forall k, j :: (0 <= k < |prom| && 0 <= j < |pos| && pos[j] == Union1d(pos, neg)[k] &&
      Union1d(pos, neg)[k] !in neg) ==> prom[k] == posprom[j]
  {
    var prominence := new Option<real>[n](_ => None);
    Scatter(prominence, pos, posprom);
    Scatter(prominence, neg, negprom);
    var s := prominence[..];
    forall i | 0 <= i < n ensures s[i].Some? <==> i in pos || i in neg {
      if i in pos {
        var j :| 0 <= j < |pos| && pos[j] == i;
      }
      if i in neg {
        var j :| 0 <= j < |neg| && neg[j] == i;
      }
    }
    PresentPositions(s, pos, neg);
    prom := Compacted(s);
  }

  /** The present entries of the scratch array sit exactly at the candidates. */
  lemma PresentPositions(s: seq<Option<real>>, pos: seq<int>, neg: seq<int>)
    requires StrictlyIncreasing(pos) && StrictlyIncreasing(neg)
    requires InRange(pos, 0, |s|) && InRange(neg, 0, |s|)
    requires forall i :: 0 <= i < |s| ==> (s[i].Some? <==> i in pos || i in neg)
    ensures Nonzero(seq(|s|, i requires 0 <= i < |s| => s[i].Some?)) == Union1d(pos, neg)
  {
    var present := Nonzero(seq(|s|, i requires 0 <= i < |s| => s[i].Some?));
    var all := Union1d(pos, neg);
    forall x ensures x in present <==> x in all {
      if x in present {
        var k :| 0 <= k < |present| && present[k] == x;
      }
      if x in pos {
        var j :| 0 <= j < |pos| && pos[j] == x;
      }
      if x in neg {
        var j :| 0 <= j < |neg| && neg[j] == x;
      }
    }
    IncreasingUnique(present, all);
  }

}
