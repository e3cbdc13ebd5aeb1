# biopeaks R-peak detection and GUDB benchmark harness, modelled in Dafny

This project models two things.

The first is the offline ECG R-peak detection script. It is refactored into one pipeline over a window of raw signal:

- band-pass cutoff normalisation;
- squaring and outlier clamping;
- candidate extraction as strict local maxima and minima;
- the slope, prominence and instantaneous-frequency features;
- the heart-rate pick from the Welch spectrum;
- cluster scoring and selection;
- the false-positive pass over adjacent selected peaks.

The second is the GUDB benchmark harness: argument validation, the 25 subject URLs, the record-consumer loop with its skip decision, and the precision and sensitivity arithmetic.

## How it is built

- The numeric library calls are function-valued fields of `EcgOffline.Numerics`: Butterworth filtering, percentile, peak prominences, Hilbert instantaneous frequency, scaling with PCA, Welch, KMeans, median and log10. The pipeline relies only on the guarantees stated by `EcgOffline.Valid`: lengths, one label per sample in [0, 4), four centroid distances per sample, and a filter that succeeds only on a normalised band inside (0, 1), as `butter` requires.
- In the benchmark, the detector paired with `compare_annotations` is a parameter that returns the (tp, fp, fn) counts. The timer is a parameter too.
- Index sets are strictly increasing `seq<int>`. Signals are `seq<real>`.
- NaN in the prominence scratch array is `Option<real>.None`. A quotient with a zero denominator is `None` as well.
- The in-place steps keep their form:
  - `ecg_filt[outliers] = 0` is an array loop.
  - The slope loop fills an array.
  - The prominence scatter writes into an `array<Option<real>>`.
  - The `disttocent` marking loop updates an array.
  - The benchmark detector is a class with fields.

## Where the model follows the code, not its comments

In two places the code does less than its own comments and messages say it should. The model follows the code:

- The comments at ecg_offline.py:184-186 say to choose, in each flagged pair, the peak farther from the cluster centre as the false positive. The comment at ecg_offline.py:208 says the discarded peak is marked so that it "looses" in the next pair. The code only rewrites `disttocent`, and then deletes the entries of `final_peaks` that equal 0, which no candidate does. So the as-written final peaks equal the selected peaks (`Conflicts.FinalPeaksUnchanged`). The corrected resolution, `Conflicts.ResolvedPeaks`, drops the chosen peaks; it is also computed and returned by `EcgOffline.Detect`.
- biopeaks/benchmarks/benchmark_utils.py:146 tests for a missing signal, and the message at :150 reports "missing files". The next line, :147, overwrites that test with the annotation test. So the as-written skip tests only the annotation (`Benchmark.SkipRecord`). The OR of both tests is `Benchmark.SkipRecordIntended`.

## Model

| member | source | states |
|---|---|---|
| Preprocess.NormalizedCutoffs | ecg_offline.py:22-27 | Fails exactly when fs is 0. Otherwise the normalised low and high cutoffs times the Nyquist frequency 0.5*fs give back lowcut and highcut. |
| Preprocess.CutoffsValidIff | ecg_offline.py:22-27 | For fs > 0, the normalised band satisfies 0 < low < high < 1 exactly when 0 < lowcut < highcut < fs/2. |
| Preprocess.ClampedWithinThreshold | ecg_offline.py:76-77 | After clamping with t >= 0, every sample has magnitude at most t. Samples within t are unchanged, and clamping twice equals clamping once. |
| Preprocess.ClampOutliers | ecg_offline.py:76-77 | The in-place loop leaves the array equal to the clamped signal: every sample above the threshold in magnitude is zeroed, every other sample is kept. |
| Candidates.ArgRelMax | ecg_offline.py:82 | Strictly increasing. i is in it exactly when x[i] strictly exceeds both neighbours. |
| Candidates.ArgRelMin | ecg_offline.py:83 | Strictly increasing. i is in it exactly when x[i] is strictly below both neighbours. |
| Candidates.AllPeaksSpec | ecg_offline.py:82-84 | The union is strictly increasing and holds exactly the local maxima and minima. Every entry is in [1, n-2]. Its length is the sum of the two lengths, since the two sets are disjoint. |
| Candidates.ExtremaInRange | ecg_offline.py:82-83 | Maxima and minima both lie in [1, n-2], so indexing the signal and the n-1 first differences with them stays in bounds. |
| ArrayOps.Union1d | ecg_offline.py:84 | `np.union1d` of two sorted index arrays is strictly increasing, and its members are those of either input. |
| ArrayOps.UnionLength | ecg_offline.py:84 | The union of disjoint sorted arrays has the sum of their lengths. |
| Features.Slope | ecg_offline.py:89-94 | The loop's output equals the slope specification: 0 at the first and last candidate, and at interior p the mean absolute first difference over [all_peaks[p-1], all_peaks[p+1]). |
| Features.SlopeBounds | ecg_offline.py:89-94 | The end slopes are 0. Every interior window is non-empty, so every interior slope lies between 0 and the largest absolute first difference. |
| Features.Scatter | ecg_offline.py:100-101 | Assigning `a[idx] = vals` puts vals[j] at idx[j] and leaves every other entry as it was. |
| Features.MergeProminence | ecg_offline.py:96-102 | The compacted prominences line up with the union of the index sets. Entry k is the minimum's prominence when candidate k is a minimum, and the maximum's prominence otherwise. |
| Features.PresentPositions | ecg_offline.py:96-102 | When exactly the positions in either index set are filled, the filled positions, in order, are the union of the two sets. |
| HeartRate.BandLimitedSpec | ecg_offline.py:129-133 | The band filter keeps exactly the bins with 0.8 <= f <= 2.5, in their original order, together with their power. |
| HeartRate.PickHeartRate | ecg_offline.py:129-136 | Fails exactly when the in-band power has no interior strict local maximum. Otherwise it picks such a maximum with the largest power, the first on ties, and returns its in-band frequency. |
| EcgOffline.FilterStage | ecg_offline.py:22-32 | Fails with ZeroSamplingRate exactly when fs is 0. Otherwise it calls the library filter on the raw window with the (1, 100) Hz band normalised by the Nyquist frequency and order 3. It fails with FilterFailed exactly when the library raises, and otherwise returns the filter's output, as long as the raw window. |
| EcgOffline.FilterStageBand | ecg_offline.py:22-27 | Because `butter` rejects a band outside (0, 1), filtering succeeds only when 0 < 1 < 100 < fs/2, that is, when the sampling rate exceeds 200 Hz. |
| EcgOffline.Condition | ecg_offline.py:73-77 | The squared signal is taken from the filtered signal before clamping. The returned signal is the filtered signal clamped at twice the 99th percentile of its magnitude. |
| EcgOffline.BuildFeatures | ecg_offline.py:82-114 | The candidates are the union of the extrema and lie inside the signal. Row i of the feature matrix is the height of candidate i, the instantaneous frequency at it, its prominence (from the signal when it is a maximum, from the negated signal when it is a minimum) and its slope as the slope specification defines it. Together these rows are the feature matrix of the signal. |
| EcgOffline.FeatureRowsDetermine | ecg_offline.py:89-112 | Feature rows that satisfy the per-candidate description are unique: they equal the feature matrix built from the signal alone. |
| EcgOffline.ColumnsAreFeatureRows | ecg_offline.py:96-111 | Stacking the heights, the instantaneous frequency at the candidates, the merged prominences and the slopes column by column gives exactly those feature rows. No candidate is both a maximum and a minimum. |
| EcgOffline.Extract | ecg_offline.py:73-119 | The candidates, heights and feature rows are those of the filtered signal clamped at its threshold. The reduced rows are the library's scaling and PCA of those features. The squared signal is taken from the filtered signal before clamping. |
| EcgOffline.Prepare | ecg_offline.py:73-139 | A failed filter stage is reported with its own error, so a zero rate fails with ZeroSamplingRate and nothing else does. After a successful filter it fails with FeatureReductionFailed exactly when the scaler or PCA rejects the feature matrix of the clamped signal. It fails with NoSpectralPeak exactly when the reduction succeeds but the Welch spectrum of the squared signal has no in-band peak. It succeeds exactly when all three stages do. On success the candidates, heights and feature rows are those of the clamped filtered signal, and the features are its feature matrix. The reduced rows are the reduction of those features. The rate is the pick from the Welch spectrum of the squared filtered signal and lies in [0.8, 2.5]. |
| EcgOffline.ScoreAndSelect | ecg_offline.py:156-173 | The criterion is, for each label of `np.unique(labels)`, the log10 of the median height of its members times the count score of its size. The selection is the one `SelectCluster` takes from that criterion. The label is in [0, 4), and the selected peaks are a strictly increasing subsequence of the candidates. |
| EcgOffline.Classify | ecg_offline.py:150-209 | Fails with ClusteringFailed exactly where KMeans raises. On success it keeps the candidates, heights, features and rate it was given, and the fit is KMeans on the reduced rows. Further, as `Clustered` states: the expected number of beats is (n/sfreq) times the rate; the criterion is the cluster criterion; the selection is `SelectCluster` of it; the flags are the too-short gaps of the selected peaks; `disttocent` is the distances to the chosen centroid after the marking loop; the final peaks are the as-written deletion; the corrected resolution is `ResolvedPeaks` of the unmarked distances. |
| EcgOffline.ResolveConflicts | ecg_offline.py:179-209 | Returns the flags of the selected peaks and the marked distances. The as-written final peaks equal the selected peaks. The corrected resolution is returned beside them. |
| EcgOffline.Detect | ecg_offline.py:22-209 | It fails with ZeroSamplingRate exactly when sfreq is 0, and a failed filter stage is reported with its own error. After a successful filter, each later error is returned exactly where its stage is the first to fail: FeatureReductionFailed where the scaler or PCA raises, NoSpectralPeak where the spectrum has no in-band peak, and ClusteringFailed where KMeans raises on the reduced rows. It succeeds exactly when every stage does. On success: the candidates, heights and feature rows are those of the clamped filtered signal; the reduced rows are their reduction; the rate is the pick from the Welch spectrum of the squared signal taken before clamping and lies in [0.8, 2.5]; the fit is KMeans on the reduced rows. The criterion, selection, flags, marked distances, final peaks and corrected resolution follow from them as `Clustered` states. Consequently the selected peaks are a strictly increasing subsequence of the candidates, the final peaks equal them, and the corrected resolution drops a member of every flagged pair. |
| Clustering.Members | ecg_offline.py:161 | `np.where(labels == v)[0]` is strictly increasing and holds exactly the positions labelled v. |
| Clustering.CountScore | ecg_offline.py:158 | 1/(\|count - expected\| + 1) lies in (0, 1] and equals 1 exactly when the count equals the expected number of beats. |
| Clustering.CountScoreDecreasing | ecg_offline.py:158 | The count score strictly decreases as \|count - expected\| grows. |
| Clustering.CriterionPrefersExpectedCount | ecg_offline.py:158-169 | Of two clusters with the same positive amplitude, the one whose size is closer to the expected number of beats has the larger criterion. |
| Clustering.CriterionPrefersAmplitude | ecg_offline.py:164-169 | Of two clusters of the same size, the one with the larger amplitude has the larger criterion. |
| Clustering.MedianHeights | ecg_offline.py:159-163 | The append loop yields, for each distinct label, the median of the heights of that label's members. |
| Clustering.SelectCluster | ecg_offline.py:171-173 | `peak_label` is the first position of the largest criterion. The positions are strictly increasing and are exactly those labelled `peak_label`. The selected peaks are the candidates at those positions, a strictly increasing subsequence when the candidates are strictly increasing. |
| Clustering.SelectedScoredByOwnSize | ecg_offline.py:156-173 | When the labels are exactly 0..k-1, the count the chosen criterion entry was scored with is the number of selected peaks. |
| Clustering.ContiguousLabels | ecg_offline.py:156 | When the labels are exactly 0..k-1, `np.unique` returns 0..k-1 in order. |
| Clustering.SelectClusterByLabel | ecg_offline.py:156-173 | Corrected selection: the label is the entry of `np.unique(labels)` at the argmax. The number of selected peaks is that label's count. |
| Clustering.AsWrittenSelectsUnscoredLabel | ecg_offline.py:171-172 | With labels [0, 2, 2, 2], where label 1 is absent, and the criterion favouring label 2, the as-written selection is empty. The corrected one selects label 2's three peaks. |
| Conflicts.Trunc | ecg_offline.py:179 | Python's `int()` truncates toward zero: for x >= 0, r <= x < r + 1, and for x < 0, r - 1 < x <= r. |
| Conflicts.FlaggedSpec | ecg_offline.py:180 | The flags are strictly increasing. Position p is flagged exactly when p + 1 is a selected peak and peaks[p+1] - peaks[p] < 0.5 * ibi_est. |
| Conflicts.FlaggedInRange | ecg_offline.py:180 | Every flag names a pair (p, p+1) of selected peaks. |
| Conflicts.DiscardIndex | ecg_offline.py:204-206 | The discarded member is p or p+1. It is p exactly when disttocent[p] >= disttocent[p+1], so the first wins ties. |
| Conflicts.MarkStep | ecg_offline.py:208 | One marking step keeps the length and leaves all other entries unchanged. Afterwards the marked entry exceeds every other entry. |
| Conflicts.DiscardedAfter | ecg_offline.py:202-206 | After k iterations there is one discard per flag so far, and the t-th is flag t or the entry after it. |
| Conflicts.MarkConflicts | ecg_offline.py:202-208 | The in-place loop over the flags leaves `disttocent` equal to the marking steps applied in flag order. |
| Conflicts.MarkPair | ecg_offline.py:204-208 | One loop iteration on the array: afterwards the array equals one marking step of its old contents at flag p. |
| Conflicts.FinalPeaksUnchanged | ecg_offline.py:201-209 | As written, only entries equal to 0 are deleted, so with no peak at sample 0 the final peaks are the selected peaks. |
| Conflicts.AsWrittenKeepsConflictingPair | ecg_offline.py:201-209 | Peaks [10, 12] with ibi 100 are flagged at 0. The as-written final peaks keep both. The corrected resolution with distances [0.5, 0.7] keeps only 10. |
| Conflicts.ResolvedPeaksSpec | ecg_offline.py:184-209 | The corrected resolution is a strictly increasing subsequence of the selected peaks, no longer than they are. It keeps peaks[i] exactly when i was not chosen for discarding, and from every flagged pair at least one member is gone. |
| ArrayOps.CompressIncreasing | ecg_offline.py:209 | Selecting a strictly increasing array by a mask gives a strictly increasing subsequence no longer than the array. Entry i survives exactly when its mask bit is set. |
| Benchmark.Configure | biopeaks/benchmarks/benchmark_utils.py:217-225 | Checks the experiment, then the channel, then the annotation; each rejection carries the offending name. Succeeds exactly when all three are valid; then the channel is its column 0, 1 or 2 from `channels` and the URLs are the subject list. |
| Benchmark.SubjectUrls | biopeaks/benchmarks/benchmark_utils.py:225 | The URL list has exactly 25 entries. |
| Benchmark.SubjectUrlsSpec | biopeaks/benchmarks/benchmark_utils.py:225 | Entry i is the base URL, the two-digit zero-padded i, "/", the experiment and "/". The two digits read back as i, so the 25 entries are pairwise distinct. |
| Benchmark.SubjectUrlDigits | biopeaks/benchmarks/benchmark_utils.py:225 | For i < 100, URL i is the base URL, the tens and units digits of i, "/", the experiment and "/". The two characters after the base read back as i. |
| Benchmark.DecimalRoundTrip | biopeaks/benchmarks/benchmark_utils.py:225 | Reading back `str(i)` as decimal digits gives i. |
| Benchmark.TwoDigits | biopeaks/benchmarks/benchmark_utils.py:225 | For i < 100, `str(i).zfill(2)` is two characters: the tens digit, then the units digit. It reads back as i. |
| Benchmark.ZFill | biopeaks/benchmarks/benchmark_utils.py:225 | `zfill(w)` has length max(\|s\|, w). It is '0' characters followed by s. |
| Benchmark.Ratio | biopeaks/benchmarks/benchmark_utils.py:69-70 | num/(num+other) is undefined exactly when the denominator is 0. Otherwise it times the denominator is num, it lies in [0, 1], it is 1 exactly when other is 0, and it is 0 exactly when num is 0. |
| Benchmark.ScoreRatios | biopeaks/benchmarks/benchmark_utils.py:66-70 | Sensitivity times (tp+fn) is tp, and precision times (tp+fp) is tp. Each is undefined exactly when its denominator is 0. Otherwise each lies in [0, 1], is 1 exactly without misses (resp. false alarms), and is 0 exactly without hits. |
| Benchmark.Kept | biopeaks/benchmarks/benchmark_utils.py:142-152 | Consuming the queue one item at a time keeps exactly the items at the positions the skip decision lets through, in queue order and with their multiplicity: boolean indexing of the queue by the keep mask. An item is kept exactly when it occurs and is not skipped. |
| ArrayOps.CompressSnoc | biopeaks/benchmarks/benchmark_utils.py:142-152 | Boolean indexing of a sequence grows by its last entry exactly when the last mask bit is set. |
| Benchmark.Summary | biopeaks/benchmarks/benchmark_utils.py:136-162 | The counter n counts every queue item. Each of the three result lists has one entry per record that is not skipped. |
| Benchmark.SummaryStep | biopeaks/benchmarks/benchmark_utils.py:142-162 | One more queue item: a skipped record only advances the counter. Any other record appends its precision, sensitivity and run time to the three lists, in that order of arrival. |
| Benchmark.SkipDecisionDiffers | biopeaks/benchmarks/benchmark_utils.py:146-149 | As written, a record with a missing signal but a present annotation is scored. With the intended OR, every scored record has both files, and every record it scores is also scored as written. |
| Benchmark.AsWrittenScoresMissingRecord | biopeaks/benchmarks/benchmark_utils.py:146-149 | A one-item queue whose signal is missing is scored as written and skipped as intended. |
| Benchmark.BenchmarkDetectorGUDB.constructor | biopeaks/benchmarks/benchmark_utils.py:15-41 | Stores tolerance, sampling rate (250 Hz by default) and run count (100 by default). No channel, annotation or URL list is set yet. |
| Benchmark.BenchmarkDetectorGUDB.BenchmarkRecords | biopeaks/benchmarks/benchmark_utils.py:197-225 | The channel defaults to "einthoven_II" and the annotation to "annotation_cables". A rejected name returns its error and leaves the fields as they were. Otherwise the fields hold the mapped channel column, the annotation name and the 25 URLs. |
| Benchmark.BenchmarkDetectorGUDB.BenchmarkRecord | biopeaks/benchmarks/benchmark_utils.py:134-162 | The counter loop consumes exactly one item per URL. Its counter and the three lists equal the summary of the queue. |

## Left out

- The library's filter is assumed to fail exactly as `butter` does on a band outside (0, 1); `EcgOffline.FilterStageBand` relies on this.
- Butterworth design, `filtfilt`, `peak_prominences`, `hilbert`/`np.unwrap`, `MinMaxScaler`, PCA, `welch` and KMeans: floating-point library numerics, taken as the fields of `Numerics` with only their shape guarantees.
- The percentile, `np.median` and `np.log10`: floating-point numerics, taken as `Numerics` fields as well. The criterion is an ordinary real product.
- `np.log10` of a non-positive median height is not modelled: it is NaN for a negative median and -inf for a zero one. `np.argmax` returns the position of the first NaN, so as written a cluster whose median height is negative is selected whenever one exists. `Clustering.SelectCluster`'s "first position of the largest criterion" therefore matches the script only when every cluster's median height is positive.
- `find_peaks` is modelled as interior strict local maxima. Plateau handling is not modelled.
- KMeans is fitted twice (`fit`, then `fit_transform`). With `random_state=42` on the same features the refit is identical, so the model takes labels and distances from one fit.
- The recording loader, the random choice of the analysis window, `print` and all plotting are left out. This is I/O, a global random generator and display.
- Floating-point rounding is not modelled: all arithmetic is on exact reals. `Conflicts.Trunc` models Python's `int()` truncation exactly.
- `fetch_record`, the aiohttp session, `asyncio.Queue`/`gather` and `asyncio.run` are left out; they are network I/O and concurrency. The queue's delivery order is given as the `arrivals` sequence, one item per URL.
- `time_record` is a parameter returning a real: it depends on wall-clock timers.
- `compare_annotations` and the detector are a parameter returning the counts; they are a foreign library and a caller-supplied function.
- The `np.mean`/`np.std` summary printout after the consumer loop is floating-point reporting.
- Benchmark.ScoreRatios: a zero denominator is modelled as an undefined ratio in the result rather than an exception, because the type of the counts returned by `compare_annotations` is not part of this model.
- gui.py is not part of this model. It is a Qt user interface with file dialogs and file writing.
- EcgOffline.Detect: uses the as-written cluster selection. The corrected selection, `Clustering.SelectClusterByLabel`, coincides with it whenever KMeans uses all four labels (`Clustering.ContiguousLabels`).

## Findings

| source | as written | input that shows it | evidently intended | confidence | as-written member | corrected member |
|---|---|---|---|---|---|---|
| ecg_offline.py:201-209 | The discard loop only rewrites `disttocent`, and `np.delete` removes entries equal to 0, so no flagged peak is ever removed. | Peaks [10, 12] with ibi_est 100 are flagged at 0, yet the output keeps both. | Remove the member of each flagged pair that lies farther from the centroid. | high; not executed | Conflicts.AsWrittenKeepsConflictingPair | Conflicts.ResolvedPeaksSpec |
| biopeaks/benchmarks/benchmark_utils.py:146-147 | `skip_record = annotation is None` overwrites `physio is None`. | A record with a missing signal and a present annotation is scored, and the detector receives None. | Skip when either file is missing. | high; not executed | Benchmark.AsWrittenScoresMissingRecord | Benchmark.SkipDecisionDiffers |
| ecg_offline.py:171-172 | `np.argmax(criterion)` is a position in `np.unique(labels)`, but it is then used as a label. | Labels [0, 2, 2, 2] with criterion [0.1, 0.9] select label 1, which has no members. | Use `np.unique(labels)[np.argmax(criterion)]` as the label. | medium; not executed | Clustering.AsWrittenSelectsUnscoredLabel | Clustering.SelectClusterByLabel |
