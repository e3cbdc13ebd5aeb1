/**
 * The R-peak detection script, refactored into one pipeline over a single
 * window of raw signal. The numeric library calls (Butterworth design and
 * forward-backward filtering, percentile, prominences, Hilbert-based
 * instantaneous frequency, scaling and PCA, Welch spectrum, KMeans, median,
 * log10) are the fields of a `Numerics` value; the pipeline relies only on
 * the shapes that `Valid` states.
 */
module EcgOffline {
  import opened Wrappers
  import opened ArrayOps
  import opened Preprocess
  import opened Candidates
  import opened Features
  import opened HeartRate
  import opened Clustering
  import opened Conflicts

  /** KMeans labels per candidate and distances of each candidate to each centroid. */
  datatype KMeansFit = KMeansFit(labels: seq<int>, distances: seq<seq<real>>)

  datatype Numerics = Numerics(
    /** `butter` + `filtfilt`; None where the library raises (a signal too short to pad). */
    bandpassFilter: (seq<real>, Cutoffs, nat) -> Option<seq<real>>,
    /** `np.percentile(., 99)`. */
    percentile99: seq<real> -> real,
    /** `peak_prominences(x, peaks)[0]`. */
    prominences: (seq<real>, seq<int>) -> seq<real>,
    /** `np.diff(np.unwrap(np.angle(hilbert(x)))) / (2 pi) * sfreq`. */
    instFreq: (seq<real>, real) -> seq<real>,
    /** `MinMaxScaler().fit_transform` then `PCA(n_components=.90).fit_transform`; None where they raise. */
    scaleAndReduce: seq<seq<real>> -> Option<seq<seq<real>>>,
    /** `welch(x, sfreq, nperseg=len(x))`. */
    welch: (seq<real>, real) -> Spectrum,
    /** `KMeans(n_clusters=4, random_state=42)`: `labels_` and `fit_transform`; None where it raises. */
    kmeans: seq<seq<real>> -> Option<KMeansFit>,
    /** `np.median`. */
    median: seq<real> -> real,
    /** `np.log10`. */
    log10: real -> real)

  /** A KMeans result for n samples: one label in [0, 4) and four distances per sample. */
  predicate FitShape(fit: KMeansFit, n: nat) {
    n >= NClusters && |fit.labels| == n && |fit.distances| == n &&
    (forall i :: 0 <= i < n ==> 0 <= fit.labels[i] < NClusters) &&
    (forall i :: 0 <= i < n ==> |fit.distances[i]| == NClusters)
  }

  /** `filtfilt` returns a signal as long as its input. */
  ghost predicate FilterKeepsLength(lib: Numerics) {
    forall s, c, o :: lib.bandpassFilter(s, c, o).Some? ==> |lib.bandpassFilter(s, c, o).value| == |s|
  }

  /** `butter` raises unless the normalised band satisfies 0 < low < high < 1. */
  ghost predicate FilterNeedsValidBand(lib: Numerics) {
    forall s, c, o :: lib.bandpassFilter(s, c, o).Some? ==> 0.0 < c.low < c.high < 1.0
  }

  /** One prominence per peak, one instantaneous frequency per sample step. */
  ghost predicate FeatureShapes(lib: Numerics) {
    (forall s, p :: |lib.prominences(s, p)| == |p|) &&
    (forall s, fs :: |s| > 0 ==> |lib.instFreq(s, fs)| == |s| - 1)
  }

  /** Welch returns matching frequency and power bins. */
  ghost predicate SpectrumShape(lib: Numerics) {
    forall s, fs :: WellFormed(lib.welch(s, fs))
  }

  /** Scaling and PCA keep one row per candidate; KMeans labels every row. */
  ghost predicate ClusterShapes(lib: Numerics) {
    (forall f :: lib.scaleAndReduce(f).Some? ==> |lib.scaleAndReduce(f).value| == |f|) &&
    (forall f :: lib.kmeans(f).Some? ==> FitShape(lib.kmeans(f).value, |f|))
  }

  /** The shape guarantees of the library calls. */
  ghost predicate Valid(lib: Numerics) {
    FilterKeepsLength(lib) && FilterNeedsValidBand(lib) && FeatureShapes(lib) &&
    SpectrumShape(lib) && ClusterShapes(lib)
  }

  /** The ways the script stops with an exception. */
  datatype DetectError =
    | ZeroSamplingRate        // division by zero in butter_bandpass
    | FilterFailed            // filtfilt rejects the window
    | FeatureReductionFailed  // the scaler or PCA rejects the feature matrix
    | NoSpectralPeak          // np.argmax over no in-band spectral peak
    | ClusteringFailed        // KMeans rejects the feature matrix

  /** The candidates with their heights, features and reduced features, and the heart rate. */
  datatype Prepared = Prepared(candidates: seq<int>, height: seq<real>, features: seq<seq<real>>,
                               reduced: seq<seq<real>>, rate: Estimate)

  /** Everything the script computes that a caller or a plot consumes. */
  datatype Detection = Detection(
    candidates: seq<int>,
    height: seq<real>,
    features: seq<seq<real>>,
    reduced: seq<seq<real>>,
    rate: Estimate,
    expectedPeaks: real,
    fit: KMeansFit,
    criterion: seq<real>,
    selection: Selection,
    flagged: seq<int>,
    disttocent: seq<real>,
    finalPeaks: seq<int>,
    resolvedPeaks: seq<int>)

  /**
   * `ecg_filt = butter_bandpass_filter(ecg_raw, 1, 100, fs=sfreq, order=3)`:
   * a zero rate fails in the normalisation; otherwise the filter is applied
   * to the raw window with the normalised (1, 100) band and order 3, and
   * fails where the library raises.
   */
  function FilterStage(raw: seq<real>, sfreq: real, lib: Numerics): (r: Result<seq<real>, DetectError>)
    requires FilterKeepsLength(lib)
    ensures (r.Failure? && r.error == ZeroSamplingRate) <==> sfreq == 0.0
    ensures (r.Failure? && r.error == FilterFailed) <==>
      sfreq != 0.0 && lib.bandpassFilter(raw, NormalizedCutoffs(LowCut, HighCut, sfreq).value, FilterOrder).None?
    ensures r.Success? ==>
      sfreq != 0.0 && |r.value| == |raw| &&
      lib.bandpassFilter(raw, NormalizedCutoffs(LowCut, HighCut, sfreq).value, FilterOrder) == Some(r.value)
  {
    var cut := NormalizedCutoffs(LowCut, HighCut, sfreq);
    if cut.None? then Failure(ZeroSamplingRate)
    else
      var filtered := lib.bandpassFilter(raw, cut.value, FilterOrder);
      if filtered.None? then Failure(FilterFailed) else Success(filtered.value)
  }

  /**
   * Since `butter` rejects an invalid band, filtering succeeds only when the
   * Nyquist frequency exceeds the 100 Hz upper cutoff.
   */
  lemma FilterStageBand(raw: seq<real>, sfreq: real, lib: Numerics)
    requires FilterKeepsLength(lib) && FilterNeedsValidBand(lib)
    ensures FilterStage(raw, sfreq, lib).Success? ==> 0.0 < LowCut < HighCut < 0.5 * sfreq
  {
    if FilterStage(raw, sfreq, lib).Success? {
      var c := NormalizedCutoffs(LowCut, HighCut, sfreq).value;
      assert 0.0 < c.low < c.high < 1.0;
      ScaleMonotone(0.0, 0.5 * sfreq, c.low);
      CutoffsValidIff(LowCut, HighCut, sfreq);
    }
  }

  /** `np.percentile(np.abs(ecg_filt), 99) * 2`. */
  function Threshold(filtered: seq<real>, lib: Numerics): real {
    lib.percentile99(AbsAll(filtered)) * 2.0
  }

  /** `np.column_stack((height, instfreq, prominence, slope))`. */
  function Columns(height: seq<real>, instfreq: seq<real>, prominence: seq<real>, slope: seq<real>): (m: seq<seq<real>>)
    requires |instfreq| == |height| && |prominence| == |height| && |slope| == |height|
    ensures |m| == |height|
  {
    seq(|height|, i requires 0 <= i < |height| => [height[i], instfreq[i], prominence[i], slope[i]])
  }

  /**
   * Row i of the features of `x` at the candidates `peaks`: the height of
   * candidate i, the instantaneous frequency at it, its prominence (computed
   * on the signal when it is a maximum, on the negated signal when it is a
   * minimum) and its slope.
   */
  predicate FeatureRow(x: seq<real>, sfreq: real, lib: Numerics,
                       peaks: seq<int>, height: seq<real>, features: seq<seq<real>>, i: int)
  {
    var pos := ArgRelMax(x);
    var neg := ArgRelMin(x);
    var freq := lib.instFreq(x, sfreq);
    var posprom := lib.prominences(x, pos);
    var negprom := lib.prominences(Negated(x), neg);
    SlopeInput(x, peaks) && 0 <= i < |peaks| && i < |height| && i < |features| &&
    |posprom| == |pos| && |negprom| == |neg| &&
    0 <= peaks[i] < |x| && peaks[i] < |freq| && |features[i]| == 4 &&
    height[i] == x[peaks[i]] && features[i][0] == height[i] &&
    features[i][1] == freq[peaks[i]] &&
    (forall j :: 0 <= j < |pos| && pos[j] == peaks[i] ==> features[i][2] == posprom[j]) &&
    (forall j :: 0 <= j < |neg| && neg[j] == peaks[i] ==> features[i][2] == negprom[j]) &&
    features[i][3] == SlopeSpec(x, peaks)[i]
  }

  /** The candidates of `x`, one height and one feature row per candidate. */
  predicate FeatureRows(x: seq<real>, sfreq: real, lib: Numerics,
                        peaks: seq<int>, height: seq<real>, features: seq<seq<real>>)
  {
    peaks == AllPeaks(x) && |height| == |peaks| && |features| == |peaks| &&
    forall i :: 0 <= i < |peaks| ==> FeatureRow(x, sfreq, lib, peaks, height, features, i)
  }

  /**
   * `np.column_stack` of the candidate heights, the instantaneous frequency
   * at the candidates, the merged prominences and the slopes gives the
   * feature rows. No candidate is both a maximum and a minimum, so the later
   * write of the minima prominences never overrides a maximum.
   */
  lemma ColumnsAreFeatureRows(x: seq<real>, sfreq: real, lib: Numerics, peaks: seq<int>,
                              height: seq<real>, instfreq: seq<real>, prominence: seq<real>, slope: seq<real>)
    requires FeatureShapes(lib)
    requires peaks == AllPeaks(x) && StrictlyIncreasing(peaks) && InRange(peaks, 1, |x| - 1)
    requires |height| == |peaks| && |instfreq| == |peaks| && |prominence| == |peaks| && |slope| == |peaks|
    requires forall i :: 0 <= i < |peaks| ==> height[i] == x[peaks[i]]
    requires forall i :: 0 <= i < |peaks| ==> instfreq[i] == lib.instFreq(x, sfreq)[peaks[i]]
    requires slope == SlopeSpec(x, peaks)
    requires forall k, j :: 0 <= k < |peaks| && 0 <= j < |ArgRelMin(x)| && ArgRelMin(x)[j] == peaks[k] ==>
      prominence[k] == lib.prominences(Negated(x), ArgRelMin(x))[j]
    requires forall k, j :: (0 <= k < |peaks| && 0 <= j < |ArgRelMax(x)| && ArgRelMax(x)[j] == peaks[k] &&
      peaks[k] !in ArgRelMin(x)) ==> prominence[k] == lib.prominences(x, ArgRelMax(x))[j]
    ensures FeatureRows(x, sfreq, lib, peaks, height, Columns(height, instfreq, prominence, slope))
  {
    var features := Columns(height, instfreq, prominence, slope);
    var pos := ArgRelMax(x);
    var neg := ArgRelMin(x);
    var freq := lib.instFreq(x, sfreq);
    var posprom := lib.prominences(x, pos);
    var negprom := lib.prominences(Negated(x), neg);
    assert |peaks| > 0 ==> |freq| == |x| - 1;
    forall i | 0 <= i < |peaks| ensures FeatureRow(x, sfreq, lib, peaks, height, features, i) {
      var row := features[i];
      assert row == [height[i], instfreq[i], prominence[i], slope[i]];
      assert 1 <= peaks[i] < |x| - 1;
      assert row[0] == height[i] == x[peaks[i]];
      assert row[1] == freq[peaks[i]];
      assert row[3] == SlopeSpec(x, peaks)[i];
      forall j | 0 <= j < |neg| && neg[j] == peaks[i] ensures row[2] == negprom[j] {
      }
      forall j | 0 <= j < |pos| && pos[j] == peaks[i] ensures row[2] == posprom[j] {
        assert pos[j] in pos;
        assert peaks[i] !in neg;
      }
    }
  }

  /**
   * The prominence of candidate p of x: the one `peak_prominences` reports
   * for it among the minima (on the negated signal) when p is a minimum, and
   * otherwise the one it reports among the maxima.
   */
  ghost function CandidateProminence(x: seq<real>, lib: Numerics, p: int): real {
    var pos := ArgRelMax(x);
    var neg := ArgRelMin(x);
    if p in neg then
      var j :| 0 <= j < |neg| && neg[j] == p;
      if j < |lib.prominences(Negated(x), neg)| then lib.prominences(Negated(x), neg)[j] else 0.0
    else if p in pos then
      var j :| 0 <= j < |pos| && pos[j] == p;
      if j < |lib.prominences(x, pos)| then lib.prominences(x, pos)[j] else 0.0
    else 0.0
  }

  /** The feature row of candidate i of x: its height, instantaneous frequency, prominence and slope. */
  ghost function CandidateRow(x: seq<real>, sfreq: real, lib: Numerics, i: int): (row: seq<real>)
    requires FeatureShapes(lib) && 0 <= i < |AllPeaks(x)|
  {
    var peaks := AllPeaks(x);
    AllPeaksSpec(x);
    var p := peaks[i];
    assert 1 <= p < |x| - 1;
    [x[p], lib.instFreq(x, sfreq)[p], CandidateProminence(x, lib, p), SlopeSpec(x, peaks)[i]]
  }

  /** The feature matrix of x: one row per candidate. */
  ghost function FeatureMatrix(x: seq<real>, sfreq: real, lib: Numerics): (m: seq<seq<real>>)
    requires FeatureShapes(lib)
    ensures |m| == |AllPeaks(x)|
  {
    seq(|AllPeaks(x)|, i requires 0 <= i < |AllPeaks(x)| => CandidateRow(x, sfreq, lib, i))
  }

  /** Row i of the features of x is row i of the feature matrix. */
  lemma FeatureRowInMatrix(x: seq<real>, sfreq: real, lib: Numerics,
                           peaks: seq<int>, height: seq<real>, features: seq<seq<real>>, i: int)
    requires FeatureShapes(lib) && peaks == AllPeaks(x)
    requires FeatureRow(x, sfreq, lib, peaks, height, features, i)
    ensures features[i] == FeatureMatrix(x, sfreq, lib)[i]
  {
    AllPeaksSpec(x);
    var p := peaks[i];
    var pos := ArgRelMax(x);
    var neg := ArgRelMin(x);
    assert p in peaks;
    assert p in pos || p in neg;
    assert FeatureMatrix(x, sfreq, lib)[i] == CandidateRow(x, sfreq, lib, i);
    assert features[i][0] == x[p] && features[i][1] == lib.instFreq(x, sfreq)[p];
    assert features[i][3] == SlopeSpec(x, peaks)[i];
    assert features[i][2] == CandidateProminence(x, lib, p) by {
      if p in neg {
        var j :| 0 <= j < |neg| && neg[j] == p;
      } else {
        var j :| 0 <= j < |pos| && pos[j] == p;
      }
    }
  }

  /** The feature rows of x fix the whole feature matrix. */
  lemma FeatureRowsDetermine(x: seq<real>, sfreq: real, lib: Numerics,
                             peaks: seq<int>, height: seq<real>, features: seq<seq<real>>)
    requires FeatureShapes(lib)
    requires FeatureRows(x, sfreq, lib, peaks, height, features)
    ensures features == FeatureMatrix(x, sfreq, lib)
  {
    var m := FeatureMatrix(x, sfreq, lib);
    forall i | 0 <= i < |peaks| ensures features[i] == m[i] {
      FeatureRowInMatrix(x, sfreq, lib, peaks, height, features, i);
    }
  }

  /** Height, instantaneous frequency, prominence and slope of every candidate. */
  method BuildFeatures(x: seq<real>, sfreq: real, lib: Numerics)
    returns (allPeaks: seq<int>, height: seq<real>, features: seq<seq<real>>)
    requires FeatureShapes(lib)
    ensures FeatureRows(x, sfreq, lib, allPeaks, height, features)
    ensures features == FeatureMatrix(x, sfreq, lib)
    ensures allPeaks == AllPeaks(x)
    ensures StrictlyIncreasing(allPeaks) && InRange(allPeaks, 1, |x| - 1) && InRange(allPeaks, 0, |x|)
    ensures |height| == |allPeaks| && |features| == |allPeaks|
    ensures height == Gather(x, allPeaks)
  {
    var pospeaks := ArgRelMax(x);
    var negpeaks := ArgRelMin(x);
    allPeaks := Union1d(pospeaks, negpeaks);
    AllPeaksSpec(x);
    ExtremaInRange(x);
    height := Gather(x, allPeaks);
    var slope := Slope(x, allPeaks);
    var posprom := lib.prominences(x, pospeaks);
    var negprom := lib.prominences(Negated(x), negpeaks);
    var prominence := MergeProminence(|x|, pospeaks, posprom, negpeaks, negprom);
    var instfreq := if |allPeaks| == 0 then [] else Gather(lib.instFreq(x, sfreq), allPeaks);
    ColumnsAreFeatureRows(x, sfreq, lib, allPeaks, height, instfreq, prominence, slope);
    features := Columns(height, instfreq, prominence, slope);
    FeatureRowsDetermine(x, sfreq, lib, allPeaks, height, features);
  }

  /**
   * `label_counts` through `labeled_peaks`: the criterion scores every
   * distinct label by its log median height and its count score, and the
   * selection is taken from it; the selected peaks are candidates at
   * increasing positions.
   */
  method ScoreAndSelect(allPeaks: seq<int>, height: seq<real>, fit: KMeansFit,
                        expected: real, lib: Numerics) returns (criterion: seq<real>, sel: Selection)
    requires |height| == |allPeaks| && FitShape(fit, |allPeaks|)
    ensures criterion == ClusterCriterion(height, fit.labels, expected, lib.median, lib.log10)
    ensures |criterion| == |Unique(fit.labels)| > 0
    ensures sel == SelectCluster(allPeaks, fit.labels, criterion)
    ensures 0 <= sel.peakLabel < NClusters
    ensures StrictlyIncreasing(sel.positions) && InRange(sel.positions, 0, |allPeaks|)
    ensures StrictlyIncreasing(allPeaks) ==> StrictlyIncreasing(sel.peaks) && ElementsIn(sel.peaks, allPeaks)
  {
    var u := Unique(fit.labels);
    IncreasingInRangeLength(u, NClusters);
    assert fit.labels[0] in u;
    var counts := Counts(fit.labels, u);
    var medheight := MedianHeights(height, fit.labels, u, lib.median);
    var amplitude := seq(|u|, i requires 0 <= i < |u| => lib.log10(medheight[i]));
    assert amplitude == Amplitudes(height, fit.labels, u, lib.median, lib.log10);
    criterion := Criterion(amplitude, counts, expected);
    sel := SelectCluster(allPeaks, fit.labels, criterion);
  }

  /** `clustering.fit_transform(features)[peak_label_idcs, peak_label]`. */
  function CentroidDistances(fit: KMeansFit, sel: Selection, n: nat): (d: seq<real>)
    requires FitShape(fit, n) && 0 <= sel.peakLabel < NClusters && InRange(sel.positions, 0, n)
    ensures |d| == |sel.positions|
  {
    seq(|sel.positions|, k requires 0 <= k < |sel.positions| =>
      fit.distances[sel.positions[k]][sel.peakLabel])
  }

  /** The false-positive pass over the selected peaks, and its corrected resolution. */
  method ResolveConflicts(labeledPeaks: seq<int>, ibiEst: int, distances: seq<real>)
    returns (flagged: seq<int>, disttocent: seq<real>, finalPeaks: seq<int>, resolved: seq<int>)
    requires StrictlyIncreasing(labeledPeaks) && |distances| == |labeledPeaks|
    requires forall k :: 0 <= k < |labeledPeaks| ==> labeledPeaks[k] != 0
    ensures flagged == Flagged(labeledPeaks, ibiEst)
    ensures InRange(flagged, 0, |labeledPeaks| - 1)
    ensures disttocent == Marked(distances, flagged)
    ensures finalPeaks == labeledPeaks
    ensures resolved == ResolvedPeaks(labeledPeaks, distances, flagged)
    ensures StrictlyIncreasing(resolved) && ElementsIn(resolved, labeledPeaks)
    ensures BreaksPairs(labeledPeaks, flagged, resolved)
  {
    flagged := Flagged(labeledPeaks, ibiEst);
    FlaggedInRange(labeledPeaks, ibiEst);
    var d := new real[|distances|](i requires 0 <= i < |distances| => distances[i]);
    assert d[..] == distances;
    MarkConflicts(d, flagged);
    disttocent := d[..];
    finalPeaks := FinalPeaks(labeledPeaks);
    FinalPeaksUnchanged(labeledPeaks);
    resolved := ResolvedPeaks(labeledPeaks, distances, flagged);
    ResolvedPeaksSpec(labeledPeaks, distances, flagged);
  }

  /** `ecg_sqrd` from the filtered signal, then the outlier clamp of the filtered signal. */
  method Condition(filtered: seq<real>, lib: Numerics) returns (x: seq<real>, sqrd: seq<real>)
    ensures x == Clamped(filtered, Threshold(filtered, lib))
    ensures sqrd == Squared(filtered)
  {
    var n := |filtered|;
    var ecgFilt := new real[n](i requires 0 <= i < n => filtered[i]);
    assert ecgFilt[..] == filtered;
    sqrd := Squared(ecgFilt[..]);
    var threshold := Threshold(ecgFilt[..], lib);
    ClampOutliers(ecgFilt, threshold);
    x := ecgFilt[..];
  }

  /** Every entry of the selected peaks is a candidate, hence not sample 0. */
  lemma SelectedNonzero(labeledPeaks: seq<int>, allPeaks: seq<int>, n: int)
    requires InRange(allPeaks, 1, n)
    requires ElementsIn(labeledPeaks, allPeaks)
    ensures forall k :: 0 <= k < |labeledPeaks| ==> labeledPeaks[k] != 0
  {
    forall k | 0 <= k < |labeledPeaks| ensures labeledPeaks[k] != 0 {
      assert labeledPeaks[k] in labeledPeaks;
      var j :| 0 <= j < |allPeaks| && allPeaks[j] == labeledPeaks[k];
    }
  }

  /**
   * Condition the filtered signal, extract the candidates with their heights
   * and features, and reduce the features; `reduced` is None where the scaler
   * or PCA raises.
   */
  method Extract(filtered: seq<real>, sfreq: real, lib: Numerics)
    returns (allPeaks: seq<int>, height: seq<real>, features: seq<seq<real>>,
             reduced: Option<seq<seq<real>>>, sqrd: seq<real>)
    requires FeatureShapes(lib) && ClusterShapes(lib)
    ensures FeatureRows(Clamped(filtered, Threshold(filtered, lib)), sfreq, lib, allPeaks, height, features)
    ensures features == FeatureMatrix(Clamped(filtered, Threshold(filtered, lib)), sfreq, lib)
    ensures reduced == lib.scaleAndReduce(features)
    ensures sqrd == Squared(filtered)
    ensures StrictlyIncreasing(allPeaks) && InRange(allPeaks, 1, |filtered| - 1)
    ensures |height| == |allPeaks| && |features| == |allPeaks|
    ensures reduced.Some? ==> |reduced.value| == |allPeaks|
  {
    var x;
    x, sqrd := Condition(filtered, lib);
    assert |x| == |filtered|;
    allPeaks, height, features := BuildFeatures(x, sfreq, lib);
    reduced := lib.scaleAndReduce(features);
  }

  /** What the scaler and PCA give for the features of the clamped filtered signal; None where they raise. */
  ghost function ReducedFeatures(filtered: seq<real>, sfreq: real, lib: Numerics): Option<seq<seq<real>>>
    requires FeatureShapes(lib)
  {
    lib.scaleAndReduce(FeatureMatrix(Clamped(filtered, Threshold(filtered, lib)), sfreq, lib))
  }

  /** The heart rate picked from the Welch spectrum of the squared filtered signal. */
  ghost function RateStage(filtered: seq<real>, sfreq: real, lib: Numerics): Result<Estimate, RateError>
    requires SpectrumShape(lib)
  {
    PickHeartRate(lib.welch(Squared(filtered), sfreq))
  }

  /**
   * The first half of the pass: filter, condition, extract candidates and
   * their features, reduce the features, and pick the heart rate. A failed
   * filter stage is reported with its own error; after it, the reduction
   * fails exactly where the scaler or PCA raises, and the rate pick exactly
   * where the spectrum has no in-band peak.
   */
  method Prepare(raw: seq<real>, sfreq: real, lib: Numerics) returns (r: Result<Prepared, DetectError>)
    requires Valid(lib)
    ensures (r.Failure? && r.error == ZeroSamplingRate) <==> sfreq == 0.0
    ensures FilterStage(raw, sfreq, lib).Failure? ==> r == Failure(FilterStage(raw, sfreq, lib).error)
    ensures r.Success? <==>
      FilterStage(raw, sfreq, lib).Success? &&
      ReducedFeatures(FilterStage(raw, sfreq, lib).value, sfreq, lib).Some? &&
      RateStage(FilterStage(raw, sfreq, lib).value, sfreq, lib).Success?
    ensures FilterStage(raw, sfreq, lib).Success? ==>
      var filtered := FilterStage(raw, sfreq, lib).value;
      ((r.Failure? && r.error == FeatureReductionFailed) <==> ReducedFeatures(filtered, sfreq, lib).None?) &&
      ((r.Failure? && r.error == DetectError.NoSpectralPeak) <==>
        ReducedFeatures(filtered, sfreq, lib).Some? && RateStage(filtered, sfreq, lib).Failure?)
    ensures r.Success? ==>
      var filtered := FilterStage(raw, sfreq, lib).value;
      var p := r.value;
      FeatureRows(Clamped(filtered, Threshold(filtered, lib)), sfreq, lib, p.candidates, p.height, p.features) &&
      p.features == FeatureMatrix(Clamped(filtered, Threshold(filtered, lib)), sfreq, lib) &&
      lib.scaleAndReduce(p.features) == Some(p.reduced) &&
      PickHeartRate(lib.welch(Squared(filtered), sfreq)) == Success(p.rate) &&
      FMin <= p.rate.freq <= FMax && sfreq != 0.0
    ensures r.Success? ==>
      var p := r.value;
      StrictlyIncreasing(p.candidates) && InRange(p.candidates, 1, |raw| - 1) &&
      |p.height| == |p.candidates| && |p.reduced| == |p.candidates|
  {
    var stage := FilterStage(raw, sfreq, lib);
    if stage.Failure? {
      return Failure(stage.error);
    }
    var allPeaks, height, features, reduced, ecgSqrd := Extract(stage.value, sfreq, lib);
    if reduced.None? {
      return Failure(FeatureReductionFailed);
    }

    var rate := PickHeartRate(lib.welch(ecgSqrd, sfreq));
    if rate.Failure? {
      return Failure(DetectError.NoSpectralPeak);
    }
    r := Success(Prepared(allPeaks, height, features, reduced.value, rate.value));
  }

  /**
   * The facts the second half of the pass establishes about a detection: the
   * selected peaks are a strictly increasing subsequence of the candidates,
   * the flags are their too-short gaps, the as-written final peaks equal the
   * selected peaks, and the corrected resolution is a strictly increasing
   * subsequence of the selected peaks that loses a member of every flagged pair.
   */
  predicate SelectionResolved(d: Detection, sfreq: real) {
    d.rate.freq != 0.0 &&
    StrictlyIncreasing(d.selection.peaks) && ElementsIn(d.selection.peaks, d.candidates) &&
    d.flagged == Flagged(d.selection.peaks, IbiEstimate(d.rate.freq, sfreq)) &&
    |d.disttocent| == |d.selection.peaks| &&
    d.finalPeaks == d.selection.peaks &&
    StrictlyIncreasing(d.resolvedPeaks) && ElementsIn(d.resolvedPeaks, d.selection.peaks) &&
    BreaksPairs(d.selection.peaks, d.flagged, d.resolvedPeaks)
  }

  /**
   * How the second half computes a detection from its candidates, heights
   * and fit over a window of n samples: the expected number of beats; the
   * criterion scoring each listed label; the cluster chosen from it; the
   * flags of its peaks; the distances to the chosen centroid, marked by the
   * loop; the as-written final peaks; and the corrected resolution from the
   * unmarked distances.
   */
  predicate Clustered(d: Detection, n: nat, sfreq: real, lib: Numerics) {
    d.rate.freq != 0.0 && sfreq != 0.0 &&
    d.expectedPeaks == ExpectedPeaks(n, sfreq, d.rate.freq) &&
    |d.height| == |d.candidates| && FitShape(d.fit, |d.candidates|) &&
    d.criterion == ClusterCriterion(d.height, d.fit.labels, d.expectedPeaks, lib.median, lib.log10) &&
    |d.criterion| > 0 &&
    d.selection == SelectCluster(d.candidates, d.fit.labels, d.criterion) &&
    0 <= d.selection.peakLabel < NClusters &&
    d.flagged == Flagged(d.selection.peaks, IbiEstimate(d.rate.freq, sfreq)) &&
    InRange(d.flagged, 0, |d.selection.peaks| - 1) &&
    var dist := CentroidDistances(d.fit, d.selection, |d.candidates|);
    d.disttocent == Marked(dist, d.flagged) &&
    d.finalPeaks == FinalPeaks(d.selection.peaks) &&
    d.resolvedPeaks == ResolvedPeaks(d.selection.peaks, dist, d.flagged)
  }

  /**
   * The second half of the pass: cluster the reduced features, select the
   * R-peak cluster, and resolve conflicting pairs among its peaks. Fails
   * exactly where KMeans does.
   */
  method Classify(p: Prepared, n: nat, sfreq: real, lib: Numerics) returns (r: Result<Detection, DetectError>)
    requires ClusterShapes(lib)
    requires StrictlyIncreasing(p.candidates) && InRange(p.candidates, 1, n - 1)
    requires |p.height| == |p.candidates| && |p.reduced| == |p.candidates| && p.rate.freq != 0.0 && sfreq != 0.0
    ensures r.Failure? <==> lib.kmeans(p.reduced).None?
    ensures r.Failure? ==> r.error == ClusteringFailed
    ensures r.Success? ==>
      var d := r.value;
      d.candidates == p.candidates && d.height == p.height && d.features == p.features &&
      d.reduced == p.reduced && d.rate == p.rate && lib.kmeans(p.reduced) == Some(d.fit)
    ensures r.Success? ==> Clustered(r.value, n, sfreq, lib)
    ensures r.Success? ==> SelectionResolved(r.value, sfreq)
  {
    var expNpeaks := ExpectedPeaks(n, sfreq, p.rate.freq);
    var clustering := lib.kmeans(p.reduced);
    if clustering.None? {
      return Failure(ClusteringFailed);
    }
    var fit := clustering.value;
    var criterion, sel := ScoreAndSelect(p.candidates, p.height, fit, expNpeaks, lib);
    var distances := CentroidDistances(fit, sel, |p.candidates|);
    SelectedNonzero(sel.peaks, p.candidates, n - 1);
    var ibiEst := IbiEstimate(p.rate.freq, sfreq);
    var flagged, disttocent, finalPeaks, resolved := ResolveConflicts(sel.peaks, ibiEst, distances);
    FinalPeaksUnchanged(sel.peaks);
    r := Success(Detection(p.candidates, p.height, p.features, p.reduced, p.rate, expNpeaks, fit, criterion,
                           sel, flagged, disttocent, finalPeaks, resolved));
  }

  /**
   * One pass of the script over a window `raw` sampled at `sfreq`. A zero
   * rate, and any other failure of the filter stage, is reported as such;
   * after the filter, the error is that of the first stage to fail among
   * the reduction, the rate pick and KMeans, and the pass succeeds exactly
   * when none fails.
   * On success: the candidates are the strictly increasing interior extrema of
   * the clamped filtered signal, with their heights and feature rows; the
   * reduced rows are the library's reduction of those features; the heart
   * rate is picked from the spectrum of the squared filtered signal taken
   * before clamping and lies in the physiological band; the fit is KMeans on
   * the reduced rows, and the criterion, selection, flags, marked distances,
   * final peaks and corrected resolution follow from it as `Clustered`
   * states, with the consequences `SelectionResolved` lists.
   */
  method Detect(raw: seq<real>, sfreq: real, lib: Numerics) returns (r: Result<Detection, DetectError>)
    requires Valid(lib)
    ensures (r.Failure? && r.error == ZeroSamplingRate) <==> sfreq == 0.0
    ensures FilterStage(raw, sfreq, lib).Failure? ==> r == Failure(FilterStage(raw, sfreq, lib).error)
    ensures r.Success? <==>
      FilterStage(raw, sfreq, lib).Success? &&
      var filtered := FilterStage(raw, sfreq, lib).value;
      ReducedFeatures(filtered, sfreq, lib).Some? && RateStage(filtered, sfreq, lib).Success? &&
      lib.kmeans(ReducedFeatures(filtered, sfreq, lib).value).Some?
    ensures FilterStage(raw, sfreq, lib).Success? ==>
      var filtered := FilterStage(raw, sfreq, lib).value;
      var reduced := ReducedFeatures(filtered, sfreq, lib);
      ((r.Failure? && r.error == FeatureReductionFailed) <==> reduced.None?) &&
      ((r.Failure? && r.error == DetectError.NoSpectralPeak) <==>
        reduced.Some? && RateStage(filtered, sfreq, lib).Failure?) &&
      ((r.Failure? && r.error == ClusteringFailed) <==>
        reduced.Some? && RateStage(filtered, sfreq, lib).Success? && lib.kmeans(reduced.value).None?)
    ensures r.Success? ==>
      var filtered := FilterStage(raw, sfreq, lib).value;
      var d := r.value;
      FeatureRows(Clamped(filtered, Threshold(filtered, lib)), sfreq, lib, d.candidates, d.height, d.features) &&
      lib.scaleAndReduce(d.features) == Some(d.reduced) &&
      PickHeartRate(lib.welch(Squared(filtered), sfreq)) == Success(d.rate) &&
      FMin <= d.rate.freq <= FMax
    ensures r.Success? ==> lib.kmeans(r.value.reduced) == Some(r.value.fit) && Clustered(r.value, |raw|, sfreq, lib)
    ensures r.Success? ==>
      var d := r.value;
      StrictlyIncreasing(d.candidates) && InRange(d.candidates, 1, |raw| - 1) &&
      SelectionResolved(d, sfreq)
  {
    var prep := Prepare(raw, sfreq, lib);
    if prep.Failure? {
      return Failure(prep.error);
    }
    r := Classify(prep.value, |raw|, sfreq, lib);
  }
}
