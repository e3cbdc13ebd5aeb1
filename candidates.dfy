/**
 * Candidate extraction: `argrelmax`, `argrelmin` and their `union1d`.
 */
module Candidates {
  import opened ArrayOps

  /** Strict local maximum with two neighbours (what `argrelmax` reports). */
  predicate IsLocalMax(s: seq<real>, i: int) {
    1 <= i < |s| - 1 && s[i - 1] < s[i] && s[i] > s[i + 1]
  }

  /** Strict local minimum with two neighbours (what `argrelmin` reports). */
  predicate IsLocalMin(s: seq<real>, i: int) {
    1 <= i < |s| - 1 && s[i - 1] > s[i] && s[i] < s[i + 1]
  }

  /** `argrelmax(s)[0]`: the strict local maxima, in increasing order. */
  function ArgRelMax(s: seq<real>): (r: seq<int>)
    ensures StrictlyIncreasing(r)
    ensures forall i :: i in r <==> IsLocalMax(s, i)
  {
    var mask := seq(|s|, i requires 0 <= i < |s| => IsLocalMax(s, i));
    var r := Nonzero(mask);
    assert forall i :: i in r ==> IsLocalMax(s, i) by {
      forall i | i in r ensures IsLocalMax(s, i) {
        var k :| 0 <= k < |r| && r[k] == i;
      }
    }
    r
  }

  /** `argrelmin(s)[0]`: the strict local minima, in increasing order. */
  function ArgRelMin(s: seq<real>): (r: seq<int>)
    ensures StrictlyIncreasing(r)
    ensures forall i :: i in r <==> IsLocalMin(s, i)
  {
    var mask := seq(|s|, i requires 0 <= i < |s| => IsLocalMin(s, i));
    var r := Nonzero(mask);
    assert forall i :: i in r ==> IsLocalMin(s, i) by {
      forall i | i in r ensures IsLocalMin(s, i) {
        var k :| 0 <= k < |r| && r[k] == i;
      }
    }
    r
  }

  /** `all_peaks = np.union1d(pospeaks, negpeaks)`. */
  function AllPeaks(s: seq<real>): seq<int> {
    Union1d(ArgRelMax(s), ArgRelMin(s))
  }

  /**
   * The candidates are strictly increasing, are exactly the interior strict
   * extrema, and number the maxima plus the minima, since no index is both.
   * Every candidate lies in [1, |s| - 2], so it indexes an array of length
   * |s| - 1 such as `np.diff(s)`.
   */
  lemma AllPeaksSpec(s: seq<real>)
    ensures StrictlyIncreasing(AllPeaks(s))
    ensures forall i :: i in AllPeaks(s) <==> IsLocalMax(s, i) || IsLocalMin(s, i)
    ensures InRange(AllPeaks(s), 1, |s| - 1)
    ensures |AllPeaks(s)| == |ArgRelMax(s)| + |ArgRelMin(s)|
  {
    var r := AllPeaks(s);
    forall k | 0 <= k < |r| ensures 1 <= r[k] < |s| - 1 {
      assert r[k] in r;
    }
    UnionLength(ArgRelMax(s), ArgRelMin(s));
  }

  /** Both kinds of extrema lie strictly inside the signal. */
  lemma ExtremaInRange(s: seq<real>)
    ensures InRange(ArgRelMax(s), 1, |s| - 1) && InRange(ArgRelMin(s), 1, |s| - 1)
  {
    var a, b := ArgRelMax(s), ArgRelMin(s);
    forall k | 0 <= k < |a| ensures 1 <= a[k] < |s| - 1 {
      assert a[k] in a;
    }
    forall k | 0 <= k < |b| ensures 1 <= b[k] < |s| - 1 {
      assert b[k] in b;
    }
  }
}
