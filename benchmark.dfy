/**
 * The GUDB benchmark harness: argument validation and the subject URL list
 * of `benchmark_records`, the record-consumer loop of `benchmark_record`
 * with its skip decision, and the precision/sensitivity arithmetic of
 * `score_record`. Fetching, the queue, timers and the annotation comparison
 * are parameters.
 */
module Benchmark {
  import opened Wrappers
  import opened ArrayOps

  const Experiments: seq<string> := ["sitting", "maths", "walking", "hand_bike", "jogging"]
  const Channels: map<string, nat> := map["cs_V2_V1" := 0, "einthoven_II" := 1, "einthoven_III" := 2]
  const Annotations: seq<string> := ["annotation_cs", "annotation_cables"]
  const BaseUrl: string := "https://berndporr.github.io/ECG-GUDB/experiment_data/subject_"
  const Subjects: nat := 25

  const DefaultChannel: string := "einthoven_II"
  const DefaultAnnotation: string := "annotation_cables"
  const DefaultSfreq: int := 250
  const DefaultRuns: int := 100

  // ---------------------------------------------------------------- strings

  /** The character of a decimal digit. */
  function DigitChar(d: nat): (c: char)
    requires d < 10
    ensures '0' <= c <= '9'
  {
    (('0' as int) + d) as char
  }

  /** `str(i)` for a non-negative integer: its decimal digits, most significant first. */
  function DecimalString(i: nat): (s: string)
    ensures |s| > 0
    ensures forall k :: 0 <= k < |s| ==> '0' <= s[k] <= '9'
  {
    if i < 10 then [DigitChar(i)] else DecimalString(i / 10) + [DigitChar(i % 10)]
  }

  /** The number a string of decimal digits denotes. */
  function DigitsValue(s: string): int {
    if |s| == 0 then 0 else DigitsValue(s[..|s| - 1]) * 10 + ((s[|s| - 1] as int) - ('0' as int))
  }

  /** `str.zfill(w)` on the digits of an unsigned number: pad with '0' on the left up to width w. */
  function ZFill(s: string, w: nat): (r: string)
    requires forall k :: 0 <= k < |s| ==> '0' <= s[k] <= '9'
    ensures |r| == if |s| >= w then |s| else w
    ensures forall k :: 0 <= k < |r| - |s| ==> r[k] == '0'
    ensures r[|r| - |s|..] == s
  {
    if |s| >= w then s else seq(w - |s|, _ => '0') + s
  }

  /** Reading back the decimal string gives the number. */
  lemma {:induction false} DecimalRoundTrip(i: nat)
    ensures DigitsValue(DecimalString(i)) == i
  {
    if i >= 10 {
      DecimalRoundTrip(i / 10);
      var s := DecimalString(i);
      assert s[..|s| - 1] == DecimalString(i / 10);
    }
  }

  /** Leading zeros do not change the value. */
  lemma {:induction false} LeadingZeros(z: string, s: string)
    requires forall k :: 0 <= k < |z| ==> z[k] == '0'
    ensures DigitsValue(z + s) == DigitsValue(s)
    decreases |z| + |s|
  {
    if |s| == 0 {
      assert z + s == z;
      if |z| > 0 {
        LeadingZeros(z[..|z| - 1], []);
        assert z[..|z| - 1] + [] == z[..|z| - 1];
      }
    } else {
      assert (z + s)[..|z + s| - 1] == z + s[..|s| - 1];
      LeadingZeros(z, s[..|s| - 1]);
    }
  }

  /** Below 100 the zero-filled string has two digits and denotes i. */
  lemma TwoDigits(i: nat)
    requires i < 100
    ensures |ZFill(DecimalString(i), 2)| == 2
    ensures DigitsValue(ZFill(DecimalString(i), 2)) == i
    ensures ZFill(DecimalString(i), 2) == [DigitChar(i / 10), DigitChar(i % 10)]
  {
    var s := DecimalString(i);
    DecimalRoundTrip(i);
    if i < 10 {
      assert s == [DigitChar(i)];
      assert ZFill(s, 2) == ['0'] + s;
      LeadingZeros(['0'], s);
    } else {
      assert DecimalString(i / 10) == [DigitChar(i / 10)];
      assert s == [DigitChar(i / 10), DigitChar(i % 10)];
      assert ZFill(s, 2) == s;
    }
  }

  // ------------------------------------------------------------ validation

  datatype ConfigError =
    | InvalidExperiment(experiment: string)
    | InvalidChannel(channel: string)
    | InvalidAnnotation(annotation: string)

  /** What `benchmark_records` stores before starting the event loop. */
  datatype Config = Config(channel: nat, annotation: string, urls: seq<string>)

  /** The subject directory of subject i for an experiment. */
  function SubjectUrl(experiment: string, i: nat): string {
    BaseUrl + ZFill(DecimalString(i), 2) + "/" + experiment + "/"
  }

  /** `[f"{base_url}{str(i).zfill(2)}/{experiment}/" for i in range(25)]`. */
  function SubjectUrls(experiment: string): (urls: seq<string>)
    ensures |urls| == Subjects
  {
    seq(Subjects, i requires 0 <= i < Subjects => SubjectUrl(experiment, i))
  }

  /** The subject directory of subject i < 100 names i in two digits right after the base URL. */
  lemma SubjectUrlDigits(experiment: string, i: nat)
    requires i < 100
    ensures SubjectUrl(experiment, i) == BaseUrl + [DigitChar(i / 10), DigitChar(i % 10)] + "/" + experiment + "/"
    ensures DigitsValue(SubjectUrl(experiment, i)[|BaseUrl|..|BaseUrl| + 2]) == i
  {
    TwoDigits(i);
    SliceAfterPrefix(BaseUrl, ZFill(DecimalString(i), 2), "/", experiment, "/");
  }

  /** The part of a concatenation right after its first piece is its second piece. */
  lemma SliceAfterPrefix(a: string, z: string, b: string, c: string, d: string)
    ensures (a + z + b + c + d)[|a|..|a| + |z|] == z
  {
    var u := a + z + b + c + d;
    forall k | 0 <= k < |z| ensures u[|a|..|a| + |z|][k] == z[k] {
      assert u[|a| + k] == (a + z)[|a| + k];
    }
  }

  /**
   * Entry i of the URL list is the base URL, the two digits of i, and the
   * experiment directory; the two digits read back as i, so the 25 entries
   * are pairwise distinct.
   */
  lemma SubjectUrlsSpec(experiment: string)
    ensures forall i :: 0 <= i < Subjects ==>
      SubjectUrls(experiment)[i] == BaseUrl + [DigitChar(i / 10), DigitChar(i % 10)] + "/" + experiment + "/"
    ensures forall i :: 0 <= i < Subjects ==>
      DigitsValue(SubjectUrls(experiment)[i][|BaseUrl|..|BaseUrl| + 2]) == i
    ensures forall i, j :: 0 <= i < j < Subjects ==> SubjectUrls(experiment)[i] != SubjectUrls(experiment)[j]
  {
    var urls := SubjectUrls(experiment);
    forall i | 0 <= i < Subjects
      ensures urls[i] == BaseUrl + [DigitChar(i / 10), DigitChar(i % 10)] + "/" + experiment + "/"
      ensures DigitsValue(urls[i][|BaseUrl|..|BaseUrl| + 2]) == i
    {
      SubjectUrlDigits(experiment, i);
    }
    forall i, j | 0 <= i < j < Subjects ensures urls[i] != urls[j] {
      SubjectUrlDigits(experiment, i);
      SubjectUrlDigits(experiment, j);
    }
  }

  /**
   * The three checks of `benchmark_records`, in order: experiment, then
   * channel, then annotation. Success exactly when all three names are in
   * their vocabularies; the channel maps to column 0, 1 or 2.
   */
  function Configure(experiment: string, channel: string, annotation: string): (r: Result<Config, ConfigError>)
    ensures r.Success? <==> experiment in Experiments && channel in Channels && annotation in Annotations
    ensures experiment !in Experiments ==> r == Failure(InvalidExperiment(experiment))
    ensures experiment in Experiments && channel !in Channels ==> r == Failure(InvalidChannel(channel))
    ensures experiment in Experiments && channel in Channels && annotation !in Annotations ==>
      r == Failure(InvalidAnnotation(annotation))
    ensures r.Success? ==>
      r.value.channel == Channels[channel] && r.value.channel <= 2 &&
      r.value.annotation == annotation && r.value.urls == SubjectUrls(experiment)
  {
    if experiment !in Experiments then Failure(InvalidExperiment(experiment))
    else if channel !in Channels then Failure(InvalidChannel(channel))
    else if annotation !in Annotations then Failure(InvalidAnnotation(annotation))
    else Success(Config(Channels[channel], annotation, SubjectUrls(experiment)))
  }

  // ---------------------------------------------------------------- scoring

  /** The matching counts of a detection against a manual annotation. */
  datatype Tally = Tally(tp: nat, fp: nat, fn: nat)

  /** Precision and sensitivity; None where the denominator is zero. */
  datatype Ratios = Ratios(precision: Option<real>, sensitivity: Option<real>)

  lemma QuotientBounds(num: real, den: real)
    requires 0.0 <= num <= den && den > 0.0
    ensures 0.0 <= num / den <= 1.0
    ensures num / den == 1.0 <==> num == den
    ensures num / den == 0.0 <==> num == 0.0
  {
    var q := num / den;
    assert q * den == num;
  }

  /** `num / (num + other)` for counts. */
  function Ratio(num: nat, other: nat): (r: Option<real>)
    ensures r.None? <==> num + other == 0
    ensures r.Some? ==> r.value * ((num + other) as real) == num as real
    ensures r.Some? ==> 0.0 <= r.value <= 1.0
    ensures r.Some? ==> (r.value == 1.0 <==> other == 0)
    ensures r.Some? ==> (r.value == 0.0 <==> num == 0)
  {
    if num + other == 0 then None
    else
      QuotientBounds(num as real, (num + other) as real);
      Some((num as real) / ((num + other) as real))
  }

  /**
   * `sensitivity = tp / (tp + fn)` and `precision = tp / (tp + fp)`: each is
   * undefined exactly when its denominator is 0; otherwise it times its
   * denominator is tp, it lies in [0, 1], it is 1 exactly without misses
   * (resp. false alarms) and 0 exactly without hits.
   */
  function ScoreRatios(t: Tally): (r: Ratios)
    ensures r.sensitivity.None? <==> t.tp + t.fn == 0
    ensures r.precision.None? <==> t.tp + t.fp == 0
    ensures r.sensitivity.Some? ==> r.sensitivity.value * ((t.tp + t.fn) as real) == t.tp as real
    ensures r.precision.Some? ==> r.precision.value * ((t.tp + t.fp) as real) == t.tp as real
    ensures r.sensitivity.Some? ==>
      0.0 <= r.sensitivity.value <= 1.0 &&
      (r.sensitivity.value == 1.0 <==> t.fn == 0) && (r.sensitivity.value == 0.0 <==> t.tp == 0)
    ensures r.precision.Some? ==>
      0.0 <= r.precision.value <= 1.0 &&
      (r.precision.value == 1.0 <==> t.fp == 0) && (r.precision.value == 0.0 <==> t.tp == 0)
  {
    Ratios(Ratio(t.tp, t.fp), Ratio(t.tp, t.fn))
  }

  // ---------------------------------------------------------- consumer loop

  /** One queue entry: the record (None if missing), the annotation (None if missing), its URL. */
  datatype Item = Item(physio: Option<seq<real>>, annotation: Option<seq<int>>, url: string)

  /** The skip decision as written: the second assignment overwrites the first. */
  predicate SkipRecord(it: Item) {
    it.annotation.None?
  }

  /** The skip decision evidently intended: skip when either file is missing. */
  predicate SkipRecordIntended(it: Item) {
    it.physio.None? || it.annotation.None?
  }

  /** The positions a skip decision lets through. */
  function KeepMask(items: seq<Item>, skip: Item -> bool): (m: seq<bool>)
    ensures |m| == |items|
  {
    seq(|items|, i requires 0 <= i < |items| => !skip(items[i]))
  }

  /**
   * The items a skip decision lets through, consumed one at a time: exactly
   * the items at the unskipped positions, in queue order and with their
   * multiplicity, which is boolean indexing by the keep mask.
   */
  function Kept(items: seq<Item>, skip: Item -> bool): (r: seq<Item>)
    ensures r == Compress(items, KeepMask(items, skip))
    ensures |r| <= |items|
    ensures forall x :: x in r <==> x in items && !skip(x)
  {
    if |items| == 0 then []
    else
      var init := items[..|items| - 1];
      var last := items[|items| - 1];
      var m := KeepMask(items, skip);
      CompressSnoc(items, m);
      assert m[..|items| - 1] == KeepMask(init, skip);
      assert items == init + [last];
      Kept(init, skip) + (if skip(last) then [] else [last])
  }

  /** What the loop leaves behind after consuming `items`. */
  datatype Report = Report(n: nat, precisions: seq<Option<real>>, sensitivities: seq<Option<real>>,
                           avgTimes: seq<real>)

  /** The scores of one record: `score_record`. */
  function Score(it: Item, compare: (Option<seq<real>>, Option<seq<int>>) -> Tally): Ratios {
    ScoreRatios(compare(it.physio, it.annotation))
  }

  /** The precision of each record, in order. */
  function Precisions(k: seq<Item>, compare: (Option<seq<real>>, Option<seq<int>>) -> Tally): (r: seq<Option<real>>)
    ensures |r| == |k|
  {
    seq(|k|, j requires 0 <= j < |k| => Score(k[j], compare).precision)
  }

  /** The sensitivity of each record, in order. */
  function Sensitivities(k: seq<Item>, compare: (Option<seq<real>>, Option<seq<int>>) -> Tally): (r: seq<Option<real>>)
    ensures |r| == |k|
  {
    seq(|k|, j requires 0 <= j < |k| => Score(k[j], compare).sensitivity)
  }

  /** The average run time of each record, in order. */
  function RunTimes(k: seq<Item>, timeRecord: Option<seq<real>> -> real): (r: seq<real>)
    ensures |r| == |k|
  {
    seq(|k|, j requires 0 <= j < |k| => timeRecord(k[j].physio))
  }

  /**
   * The report over `items`: n counts every item, and the three lists hold,
   * in queue order, the precision, sensitivity and run time of exactly the
   * records not skipped.
   */
  function Summary(items: seq<Item>, compare: (Option<seq<real>>, Option<seq<int>>) -> Tally,
                   timeRecord: Option<seq<real>> -> real): (r: Report)
    ensures r.n == |items|
    ensures |r.precisions| == |r.sensitivities| == |r.avgTimes| == |Kept(items, SkipRecord)|
  {
    var k := Kept(items, SkipRecord);
    Report(|items|, Precisions(k, compare), Sensitivities(k, compare), RunTimes(k, timeRecord))
  }

  /** Consuming one more item: a skipped one only advances n, any other appends its scores. */
  lemma SummaryStep(items: seq<Item>, i: nat, compare: (Option<seq<real>>, Option<seq<int>>) -> Tally,
                    timeRecord: Option<seq<real>> -> real)
    requires i < |items|
    ensures var prev := Summary(items[..i], compare, timeRecord);
      var it := items[i];
      Summary(items[..i + 1], compare, timeRecord) ==
        if SkipRecord(it) then prev.(n := i + 1)
        else Report(i + 1, prev.precisions + [Score(it, compare).precision],
                    prev.sensitivities + [Score(it, compare).sensitivity],
                    prev.avgTimes + [timeRecord(it.physio)])
  {
    var k0 := Kept(items[..i], SkipRecord);
    assert items[..i + 1][..i] == items[..i];
    if !SkipRecord(items[i]) {
      var k := k0 + [items[i]];
      assert Precisions(k, compare) == Precisions(k0, compare) + [Score(items[i], compare).precision];
      assert Sensitivities(k, compare) == Sensitivities(k0, compare) + [Score(items[i], compare).sensitivity];
      assert RunTimes(k, timeRecord) == RunTimes(k0, timeRecord) + [timeRecord(items[i].physio)];
    }
  }

  /**
   * As written, a record whose signal is missing but whose annotation is
   * present is scored (the detector receives None); with the intended skip
   * decision every scored record has both files.
   */
  lemma SkipDecisionDiffers(items: seq<Item>)
    ensures forall x :: x in items && x.physio.None? && x.annotation.Some? ==> x in Kept(items, SkipRecord)
    ensures forall x :: x in Kept(items, SkipRecordIntended) ==> x.physio.Some? && x.annotation.Some?
    ensures forall x :: x in Kept(items, SkipRecordIntended) ==> x in Kept(items, SkipRecord)
  {
  }

  /** A one-record queue whose signal is missing: scored as written, skipped as intended. */
  lemma AsWrittenScoresMissingRecord()
    ensures var it := Item(None, Some([100, 350]), "u");
      Kept([it], SkipRecord) == [it] && Kept([it], SkipRecordIntended) == []
  {
    var it := Item(None, Some([100, 350]), "u");
    assert [it][..0] == [];
  }

  class BenchmarkDetectorGUDB {
    const tolerance: int
    const sfreq: int
    const nRuns: int
    var channel: Option<nat>
    var annotation: Option<string>
    var urls: Option<seq<string>>

    /** `__init__`: no experiment configured yet. */
    constructor(tolerance: int, sfreq: int := DefaultSfreq, nRuns: int := DefaultRuns)
      ensures this.tolerance == tolerance && this.sfreq == sfreq && this.nRuns == nRuns
      ensures channel == None && annotation == None && urls == None
    {
      this.tolerance := tolerance;
      this.sfreq := sfreq;
      this.nRuns := nRuns;
      channel := None;
      annotation := None;
      urls := None;
    }

    /**
     * The validation and field assignments of `benchmark_records`; a
     * rejected name leaves every field as it was.
     */
    method BenchmarkRecords(experiment: string, channelName: string := DefaultChannel,
                            annotationName: string := DefaultAnnotation)
      returns (err: Option<ConfigError>)
      modifies this
      ensures var c := Configure(experiment, channelName, annotationName);
        if c.Failure? then
          err == Some(c.error) &&
          channel == old(channel) && annotation == old(annotation) && urls == old(urls)
        else
          err == None &&
          channel == Some(c.value.channel) && annotation == Some(annotationName) &&
          urls == Some(SubjectUrls(experiment))
    {
      var c := Configure(experiment, channelName, annotationName);
      if c.Failure? {
        return Some(c.error);
      }
      channel := Some(Channels[channelName]);
      annotation := Some(annotationName);
      urls := Some(SubjectUrls(experiment));
      err := None;
    }

    /**
     * The consumer loop of `benchmark_record` over the items in the order the
     * queue yields them, one per URL.
     */
    method BenchmarkRecord(arrivals: seq<Item>, compare: (Option<seq<real>>, Option<seq<int>>) -> Tally,
                           timeRecord: Option<seq<real>> -> real) returns (report: Report)
      requires urls.Some? && |arrivals| == |urls.value|
      ensures report == Summary(arrivals, compare, timeRecord)
      ensures report.n == |urls.value|
    {
      var n := 0;
      var nRecords := |urls.value|;
      var sensitivities: seq<Option<real>> := [];
      var precisions: seq<Option<real>> := [];
      var avgTimes: seq<real> := [];
      while n < nRecords
        invariant 0 <= n <= nRecords
        invariant Summary(arrivals[..n], compare, timeRecord) == Report(n, precisions, sensitivities, avgTimes)
      {
        var item := arrivals[n];
        SummaryStep(arrivals, n, compare, timeRecord);
        var skipRecord := item.physio.None?;
        skipRecord := item.annotation.None?;
        if skipRecord {
          n := n + 1;
          continue;
        }
        var ratios := Score(item, compare);
        var avgTime := timeRecord(item.physio);
        precisions := precisions + [ratios.precision];
        sensitivities := sensitivities + [ratios.sensitivity];
        avgTimes := avgTimes + [avgTime];
        n := n + 1;
      }
      assert arrivals[..n] == arrivals;
      report := Report(n, precisions, sensitivities, avgTimes);
    }
  }
}
