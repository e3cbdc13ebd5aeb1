/**
 * The numpy primitives the detection script is built from, as pure functions
 * over sequences: boolean masks and `np.nonzero`, boolean and fancy indexing,
 * `np.argmax`, `np.max`, `np.mean`, `np.abs(np.diff(.))`, `np.union1d` and
 * `np.unique`.
 */
module ArrayOps {

  /** Strictly increasing integer sequence: sorted and duplicate-free. */
  predicate StrictlyIncreasing(s: seq<int>) {
    forall i, j :: 0 <= i < j < |s| ==> s[i] < s[j]
  }

  /** Every entry lies in [lo, hi). */
  predicate InRange(s: seq<int>, lo: int, hi: int) {
    forall k :: 0 <= k < |s| ==> lo <= s[k] < hi
  }

  /** Every entry of `a` occurs in `b`. */
  predicate ElementsIn(a: seq<int>, b: seq<int>) {
    forall x :: x in a ==> x in b
  }

  function Abs(x: real): real {
    if x < 0.0 then -x else x
  }

  /** `np.nonzero(mask)[0]`: the positions of the true entries, in increasing order. */
  function Nonzero(mask: seq<bool>): (r: seq<int>)
    ensures StrictlyIncreasing(r)
    ensures forall k :: 0 <= k < |r| ==> 0 <= r[k] < |mask| && mask[r[k]]
    ensures forall i :: 0 <= i < |mask| && mask[i] ==> i in r
    decreases |mask|
  {
    if |mask| == 0 then []
    else
      var front := Nonzero(mask[..|mask| - 1]);
      if mask[|mask| - 1] then front + [|mask| - 1] else front
  }

  /** Fancy indexing `s[idx]`. */
  function Gather<T>(s: seq<T>, idx: seq<int>): (r: seq<T>)
    requires InRange(idx, 0, |s|)
    ensures |r| == |idx|
  {
    seq(|idx|, k requires 0 <= k < |idx| => s[idx[k]])
  }

  /** Boolean indexing `s[mask]`. */
  function Compress<T>(s: seq<T>, mask: seq<bool>): (r: seq<T>)
    requires |mask| == |s|
    ensures |r| == |Nonzero(mask)|
  {
    Gather(s, Nonzero(mask))
  }

  /** Boolean indexing grows by the last entry exactly when its mask bit is set. */
  lemma CompressSnoc<T>(s: seq<T>, mask: seq<bool>)
    requires |mask| == |s| > 0
    ensures Compress(s, mask) ==
      Compress(s[..|s| - 1], mask[..|s| - 1]) + (if mask[|s| - 1] then [s[|s| - 1]] else [])
  {
    var n := |s| - 1;
    var front := Nonzero(mask[..n]);
    var init := Compress(s[..n], mask[..n]);
    assert Nonzero(mask) == if mask[n] then front + [n] else front;
    forall k | 0 <= k < |front| ensures Compress(s, mask)[k] == init[k] {
      assert front[k] < n;
    }
  }

  /** `np.max`: the largest entry. */
  function Max(s: seq<real>): (m: real)
    requires |s| > 0
    ensures m in s
    ensures forall i :: 0 <= i < |s| ==> s[i] <= m
  {
    if |s| == 1 then s[0]
    else
      var front := Max(s[..|s| - 1]);
      if s[|s| - 1] > front then s[|s| - 1] else front
  }

  /** `np.argmax`: the first position of the largest entry. */
  function ArgMax(s: seq<real>): (r: nat)
    requires |s| > 0
    ensures r < |s|
    ensures forall j :: 0 <= j < |s| ==> s[j] <= s[r]
    ensures forall j :: 0 <= j < r ==> s[j] < s[r]
  {
    if |s| == 1 then 0
    else
      var m := ArgMax(s[..|s| - 1]);
      if s[|s| - 1] > s[m] then |s| - 1 else m
  }

  /** `np.argmax([a, b])`: 1 exactly when b is strictly larger. */
  lemma ArgMaxPair(a: real, b: real)
    ensures ArgMax([a, b]) == if b > a then 1 else 0
  {
    assert [a, b][..1] == [a];
  }

  function Sum(s: seq<real>): real {
    if |s| == 0 then 0.0 else Sum(s[..|s| - 1]) + s[|s| - 1]
  }

  /** `np.mean` of a non-empty sequence. */
  function Mean(s: seq<real>): real
    requires |s| > 0
  {
    Sum(s) / (|s| as real)
  }

  /** `np.abs(np.diff(s))`: the absolute first differences. */
  function AbsDiff(s: seq<real>): (r: seq<real>)
    ensures |s| > 0 ==> |r| == |s| - 1
    ensures |s| == 0 ==> r == []
  {
    if |s| == 0 then [] else seq(|s| - 1, i requires 0 <= i < |s| - 1 => Abs(s[i + 1] - s[i]))
  }

  /**
   * `np.union1d(a, b)` of two sorted index arrays: the sorted, duplicate-free
   * union of their entries.
   */
  function Union1d(a: seq<int>, b: seq<int>): (r: seq<int>)
    requires StrictlyIncreasing(a) && StrictlyIncreasing(b)
    ensures StrictlyIncreasing(r)
    ensures forall x :: x in r <==> x in a || x in b
    decreases |a| + |b|
  {
    if |a| == 0 then b
    else if |b| == 0 then a
    else
      TailAbove(a);
      TailAbove(b);
      if a[0] < b[0] then
        var rest := Union1d(a[1..], b);
        PrependIncreasing(a[0], rest);
        [a[0]] + rest
      else if b[0] < a[0] then
        var rest := Union1d(a, b[1..]);
        PrependIncreasing(b[0], rest);
        [b[0]] + rest
      else
        var rest := Union1d(a[1..], b[1..]);
        PrependIncreasing(a[0], rest);
        [a[0]] + rest
  }

  lemma TailAbove(a: seq<int>)
    requires StrictlyIncreasing(a) && |a| > 0
    ensures forall y :: y in a[1..] ==> a[0] < y
    ensures forall y :: y in a ==> a[0] <= y
  {
    forall y | y in a ensures a[0] <= y {
      var j :| 0 <= j < |a| && a[j] == y;
    }
    forall y | y in a[1..] ensures a[0] < y {
      var j :| 0 <= j < |a| - 1 && a[1..][j] == y;
      assert a[j + 1] == y;
    }
  }

  lemma PrependIncreasing(x: int, r: seq<int>)
    requires StrictlyIncreasing(r)
    requires forall y :: y in r ==> x < y
    ensures StrictlyIncreasing([x] + r)
  {
    forall i, j | 0 <= i < j < |r| + 1 ensures ([x] + r)[i] < ([x] + r)[j] {
      if i == 0 {
        assert r[j - 1] in r;
      }
    }
  }

  /** `np.unique(s)`: the distinct entries of `s`, sorted. */
  function Unique(s: seq<int>): (r: seq<int>)
    ensures StrictlyIncreasing(r)
    ensures forall x :: x in r <==> x in s
  {
    if |s| == 0 then []
    else Union1d(Unique(s[..|s| - 1]), [s[|s| - 1]])
  }

  /** Lower and upper bounds on the entries bound the sum. */
  lemma {:induction false} SumBounds(s: seq<real>, lo: real, hi: real)
    requires forall i :: 0 <= i < |s| ==> lo <= s[i] <= hi
    ensures (|s| as real) * lo <= Sum(s) <= (|s| as real) * hi
  {
    if |s| > 0 {
      SumBounds(s[..|s| - 1], lo, hi);
    }
  }

  /** The mean of a non-empty sequence lies between any bounds on its entries. */
  lemma MeanBounds(s: seq<real>, lo: real, hi: real)
    requires |s| > 0
    requires forall i :: 0 <= i < |s| ==> lo <= s[i] <= hi
    ensures lo <= Mean(s) <= hi
  {
    SumBounds(s, lo, hi);
    var n := |s| as real;
    assert Mean(s) * n == Sum(s);
  }

  /** Multiplying by a positive factor preserves strict order. */
  lemma ScaleMonotone(x: real, y: real, f: real)
    requires f > 0.0
    ensures x < y <==> x * f < y * f
  {
    if x < y {
      assert (y - x) * f > 0.0;
    } else {
      assert (x - y) * f >= 0.0;
    }
  }

  /** Union of disjoint sorted sequences keeps every element once. */
  lemma {:induction false} UnionLength(a: seq<int>, b: seq<int>)
    requires StrictlyIncreasing(a) && StrictlyIncreasing(b)
    requires forall x :: x in a ==> x !in b
    ensures |Union1d(a, b)| == |a| + |b|
    decreases |a| + |b|
  {
    if |a| == 0 || |b| == 0 {
    } else {
      assert a[0] in a;
      if a[0] < b[0] {
        assert Union1d(a, b) == [a[0]] + Union1d(a[1..], b);
        forall x | x in a[1..] ensures x !in b { assert x in a; }
        UnionLength(a[1..], b);
      } else {
        assert b[0] < a[0];
        assert Union1d(a, b) == [b[0]] + Union1d(a, b[1..]);
        forall x | x in a ensures x !in b[1..] { assert x !in b; }
        UnionLength(a, b[1..]);
      }
    }
  }

  /** A strictly increasing sequence is determined by its set of entries. */
  lemma {:induction false} IncreasingUnique(s: seq<int>, t: seq<int>)
    requires StrictlyIncreasing(s) && StrictlyIncreasing(t)
    requires forall x :: x in s <==> x in t
    ensures s == t
  {
    if |s| > 0 { assert s[0] in s; }
    if |t| > 0 { assert t[0] in t; }
    if |s| > 0 && |t| > 0 {
      assert s[0] == t[0] by {
        assert s[0] in t && t[0] in s;
      }
      forall x ensures x in s[1..] <==> x in t[1..] {
        if x in s[1..] { assert x in s && x > s[0]; }
        if x in t[1..] { assert x in t && x > t[0]; }
      }
      IncreasingUnique(s[1..], t[1..]);
    }
  }

  /** A strictly increasing sequence of values in [0, k) has at most k entries. */
  lemma {:induction false} IncreasingInRangeLength(s: seq<int>, k: int)
    requires 0 <= k
    requires StrictlyIncreasing(s)
    requires forall x :: x in s ==> 0 <= x < k
    ensures |s| <= k
    decreases |s|
  {
    if |s| > 0 {
      var init := s[..|s| - 1];
      assert forall x :: x in init ==> 0 <= x < s[|s| - 1] by {
        forall x | x in init ensures 0 <= x < s[|s| - 1] {
          var j :| 0 <= j < |init| && init[j] == x;
          assert s[j] == x && s[j] in s;
        }
      }
      assert s[|s| - 1] in s;
      IncreasingInRangeLength(init, s[|s| - 1]);
    }
  }

  /** `idx[np.argmax(s[idx])]`: a largest entry of `s` among the positions `idx`, the first one on ties. */
  lemma ArgMaxAmong(s: seq<real>, idx: seq<int>)
    requires StrictlyIncreasing(idx) && InRange(idx, 0, |s|) && |idx| > 0
    ensures var m := idx[ArgMax(Gather(s, idx))];
      (forall t :: 0 <= t < |idx| ==> s[idx[t]] <= s[m]) &&
      (forall t :: 0 <= t < |idx| && idx[t] < m ==> s[idx[t]] < s[m])
  {
    var g := Gather(s, idx);
    var a := ArgMax(g);
    forall t | 0 <= t < |idx| ensures s[idx[t]] <= s[idx[a]] {
      assert g[t] <= g[a];
    }
    forall t | 0 <= t < |idx| && idx[t] < idx[a] ensures s[idx[t]] < s[idx[a]] {
      assert g[t] < g[a];
    }
  }

  /** Gathering at increasing positions of an increasing sequence gives an increasing subsequence. */
  lemma GatherIncreasing(s: seq<int>, idx: seq<int>)
    requires StrictlyIncreasing(s) && StrictlyIncreasing(idx) && InRange(idx, 0, |s|)
    ensures StrictlyIncreasing(Gather(s, idx))
    ensures forall x :: x in Gather(s, idx) ==> x in s
  {
    var g := Gather(s, idx);
    forall x | x in g ensures x in s {
      var k :| 0 <= k < |g| && g[k] == x;
      assert s[idx[k]] == x;
    }
  }

  /** `np.arange(n)`. */
  function Range(n: nat): (r: seq<int>)
    ensures |r| == n
    ensures StrictlyIncreasing(r)
  {
    seq(n, i requires 0 <= i < n => i)
  }

  /** An all-true mask selects every position. */
  lemma {:induction false} NonzeroAllTrue(mask: seq<bool>)
    requires forall i :: 0 <= i < |mask| ==> mask[i]
    ensures Nonzero(mask) == Range(|mask|)
  {
    if |mask| > 0 {
      var n := |mask| - 1;
      NonzeroAllTrue(mask[..n]);
      assert Range(n) + [n] == Range(n + 1);
    }
  }

  /**
   * Boolean indexing of a strictly increasing sequence keeps a strictly
   * increasing subsequence holding exactly the entries whose mask is true.
   */
  lemma CompressIncreasing(s: seq<int>, mask: seq<bool>)
    requires StrictlyIncreasing(s) && |mask| == |s|
    ensures StrictlyIncreasing(Compress(s, mask)) && |Compress(s, mask)| <= |s|
    ensures forall x :: x in Compress(s, mask) ==> x in s
    ensures forall i :: 0 <= i < |s| ==> (s[i] in Compress(s, mask) <==> mask[i])
  {
    var idx := Nonzero(mask);
    var r := Compress(s, mask);
    GatherIncreasing(s, idx);
    IncreasingInRangeLength(idx, |s|) by {
      forall x | x in idx ensures 0 <= x < |s| {
        var k :| 0 <= k < |idx| && idx[k] == x;
      }
    }
    forall i | 0 <= i < |s| ensures s[i] in r <==> mask[i] {
      if mask[i] {
        var k :| 0 <= k < |idx| && idx[k] == i;
        assert r[k] == s[i];
      }
      if s[i] in r {
        var k :| 0 <= k < |r| && r[k] == s[i];
        assert s[idx[k]] == s[i];
      }
    }
  }
}
