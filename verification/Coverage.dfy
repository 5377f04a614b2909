/** Hour counting and the frozen thresholds that judge one UTC coverage window. */
module Coverage {
  import opened Common
  import opened Intervals
  import opened Pairing

  const UTC_HOUR_NS: int := 3_600_000_000_000
  const UTC_DAY_NS: int := 24 * UTC_HOUR_NS
  const MAX_EXPLAINED_GAP_NS: int := 4 * UTC_HOUR_NS
  const MAX_EXPLAINED_GAP_PERCENT: int := 2
  const MIN_LATENCY_USABLE_HOUR_PERCENT: int := 95
  const GATE1_WINDOW_HOURS: int := 168
  const COMPLETION_WINDOW_HOURS: int := 720

  /** The twelve streams an hour needs; the Hyperliquid context feed carries no exchange time and is not one of them. */
  const REQUIRED_LATENCY_STREAMS: set<string> := {
    "l2Book:BTC", "l2Book:ETH", "trades:BTC", "trades:ETH", "bbo:BTC", "bbo:ETH",
    "orderbook.50.BTCUSDT", "orderbook.50.ETHUSDT", "publicTrade.BTCUSDT", "publicTrade.ETHUSDT",
    "tickers.BTCUSDT", "tickers.ETHUSDT"
  }

  datatype WindowKind = Gate1Week | CompletionMonth

  /**
   * What the hour count reads of one collector event; a raw frame is the set of streams it samples, if it can be
   * read.
   */
  datatype Sample = RawFrame(streams: set<string>) | UnreadableFrame | RawQuarantine | OtherRecord

  datatype LatencyEvent = LatencyEvent(received: int, body: Sample)

  // ---------- usable hours ----------

  ghost predicate InHour(t: int, hour: int) {
    hour <= t < hour + UTC_HOUR_NS
  }

  ghost predicate Samples(event: LatencyEvent, hour: int, stream: string) {
    InHour(event.received, hour) && event.body.RawFrame? && stream in event.body.streams
  }

  ghost predicate Quarantines(event: LatencyEvent, hour: int) {
    InHour(event.received, hour) && event.body.RawQuarantine?
  }

  ghost predicate SampledIn(events: seq<LatencyEvent>, upTo: int, hour: int, stream: string)
    requires 0 <= upTo <= |events|
  {
    exists i :: 0 <= i < upTo && Samples(events[i], hour, stream)
  }

  ghost predicate QuarantinedIn(events: seq<LatencyEvent>, upTo: int, hour: int)
    requires 0 <= upTo <= |events|
  {
    exists i :: 0 <= i < upTo && Quarantines(events[i], hour)
  }

  /** The hour has a sample of every stream, no quarantined frame, and no instant inside an explained gap. */
  ghost predicate UsableHour(events: seq<LatencyEvent>, gaps: seq<Interval>, hour: int) {
    && (forall s :: s in REQUIRED_LATENCY_STREAMS ==> SampledIn(events, |events|, hour, s))
    && !QuarantinedIn(events, |events|, hour)
    && (forall t :: InHour(t, hour) ==> !Covers(gaps, t))
  }

  ghost function UsableHours(events: seq<LatencyEvent>, gaps: seq<Interval>, from: int, end: int): nat
    decreases end - from
  {
    if end <= from then 0
    else (if UsableHour(events, gaps, from) then 1 else 0) + UsableHours(events, gaps, from + UTC_HOUR_NS, end)
  }

  ghost predicate HourWindow(start: int, end: int) {
    0 <= start < end && start % UTC_HOUR_NS == 0 && end % UTC_HOUR_NS == 0
  }

  /** The interval shape the hour count demands: proper, nonnegative, and ordered by start. */
  ghost predicate OrderedGaps(gaps: seq<Interval>) {
    && (forall k :: 0 <= k < |gaps| ==> 0 <= gaps[k].start < gaps[k].end)
    && (forall k :: 0 < k < |gaps| ==> gaps[k - 1].start <= gaps[k].start)
  }

  method CheckHourInputs(start: int, end: int, gaps: seq<Interval>) returns (ok: bool)
    ensures ok <==> HourWindow(start, end) && OrderedGaps(gaps)
  {
    if start < 0 || end <= start || start % UTC_HOUR_NS != 0 || end % UTC_HOUR_NS != 0 { return false; }
    var previousStart := -1;
    for k := 0 to |gaps|
      invariant OrderedGaps(gaps[..k])
      invariant previousStart == if k == 0 then -1 else gaps[k - 1].start
    {
      var gap := gaps[k];
      assert gaps[..k + 1][k] == gap;
      if !(0 <= gap.start < gap.end && gap.start >= previousStart) { return false; }
      previousStart := gap.start;
    }
    assert gaps[..|gaps|] == gaps;
    return true;
  }

  function SamplesAt(samples: map<int, set<string>>, hour: int): set<string> {
    if hour in samples then samples[hour] else {}
  }

  function HourStart(t: int): int {
    t - t % UTC_HOUR_NS
  }

  ghost predicate AlignedHour(start: int, hour: int, end: int) {
    start <= hour < end && HourStart(hour) == hour
  }

  /** The start of the hour that holds an instant is the only aligned hour that does. */
  lemma HourOf(t: int, hour: int)
    requires HourStart(hour) == hour
    ensures HourStart(t) == hour <==> InHour(t, hour)
  {
    if InHour(t, hour) {
      var q := hour / UTC_HOUR_NS;
      assert hour == q * UTC_HOUR_NS;
      assert t / UTC_HOUR_NS == q;
    }
  }

  /** Samples and invalid hours are those of the first k events, for every hour of the window. */
  ghost predicate Collected(events: seq<LatencyEvent>, k: int, samples: map<int, set<string>>, invalidHours: set<int>,
                            start: int, end: int)
    requires 0 <= k <= |events|
  {
    forall hour :: AlignedHour(start, hour, end) ==>
      && (forall s :: s in SamplesAt(samples, hour) <==> SampledIn(events, k, hour, s))
      && (hour in invalidHours <==> QuarantinedIn(events, k, hour))
  }

  method CollectSamples(events: seq<LatencyEvent>, start: int, end: int)
    returns (samples: map<int, set<string>>, invalidHours: set<int>)
    requires HourWindow(start, end)
    ensures Collected(events, |events|, samples, invalidHours, start, end)
  {
    samples, invalidHours := map[], {};
    for k := 0 to |events|
      invariant Collected(events, k, samples, invalidHours, start, end)
    {
      var event := events[k];
      ghost var samplesBefore, invalidBefore, next := samples, invalidHours, k + 1;
      if start <= event.received < end {
        var hour := HourStart(event.received);
        match event.body
        case RawQuarantine => invalidHours := invalidHours + {hour};
        case RawFrame(streams) => samples := samples[hour := SamplesAt(samples, hour) + streams];
        case UnreadableFrame =>
        case OtherRecord =>
      }
      forall hour | AlignedHour(start, hour, end)
        ensures forall s :: s in SamplesAt(samples, hour) <==>
                  s in SamplesAt(samplesBefore, hour) || Samples(event, hour, s)
        ensures hour in invalidHours <==> hour in invalidBefore || Quarantines(event, hour)
      {
        HourOf(event.received, hour);
        HourEndsInside(start, hour, end);
      }
      forall hour, s
        ensures SampledIn(events, next, hour, s) <==> SampledIn(events, k, hour, s) || Samples(event, hour, s)
      {
      }
      forall hour
        ensures QuarantinedIn(events, next, hour) <==> QuarantinedIn(events, k, hour) || Quarantines(event, hour)
      {
      }
    }
  }

  /** An aligned hour that starts before an aligned end also ends by it. */
  lemma HourEndsInside(start: int, hour: int, end: int)
    requires HourWindow(start, end) && AlignedHour(start, hour, end)
    ensures hour + UTC_HOUR_NS <= end
    ensures HourStart(hour + UTC_HOUR_NS) == hour + UTC_HOUR_NS
  {
    var q := hour / UTC_HOUR_NS;
    var e := end / UTC_HOUR_NS;
    assert hour == q * UTC_HOUR_NS && end == e * UTC_HOUR_NS;
  }

  method CountHours(events: seq<LatencyEvent>, samples: map<int, set<string>>, invalidHours: set<int>,
                    start: int, end: int, gaps: seq<Interval>)
    returns (count: int)
    requires HourWindow(start, end) && Proper(gaps)
    requires Collected(events, |events|, samples, invalidHours, start, end)
    ensures count == UsableHours(events, gaps, start, end)
  {
    var hour := start;
    count := 0;
    while hour < end
      invariant start <= hour <= end && HourStart(hour) == hour
      invariant count + UsableHours(events, gaps, hour, end) == UsableHours(events, gaps, start, end)
    {
      assert AlignedHour(start, hour, end);
      HourEndsInside(start, hour, end);
      OverlapMeansCovered(gaps, hour);
      var clear := forall k :: 0 <= k < |gaps| ==> !(gaps[k].start < hour + UTC_HOUR_NS && hour < gaps[k].end);
      assert UsableHour(events, gaps, hour) <==>
             REQUIRED_LATENCY_STREAMS <= SamplesAt(samples, hour) && hour !in invalidHours && clear;
      if REQUIRED_LATENCY_STREAMS <= SamplesAt(samples, hour) && hour !in invalidHours && clear {
        count := count + 1;
      }
      hour := hour + UTC_HOUR_NS;
    }
  }

  /** Every event has a time, and every market frame of the window can be read. */
  predicate CountableEvents(events: seq<LatencyEvent>, start: int, end: int) {
    forall i :: 0 <= i < |events| ==>
      events[i].received >= 0 && (start <= events[i].received < end ==> !events[i].body.UnreadableFrame?)
  }

  /** Counts exactly the usable hours of an aligned window. */
  method UsableLatencyHours(events: seq<LatencyEvent>, start: int, end: int, gaps: seq<Interval>)
    returns (r: Result<int>)
    ensures r.Success? <==> HourWindow(start, end) && OrderedGaps(gaps) && CountableEvents(events, start, end)
    ensures r.Success? ==> r.value == UsableHours(events, gaps, start, end)
  {
    var ok := CheckHourInputs(start, end, gaps);
    if !ok { return Failure("invalid latency hour window or explained interval"); }
    if !CountableEvents(events, start, end) { return Failure("invalid latency event or frame"); }
    var samples, invalidHours := CollectSamples(events, start, end);
    var count := CountHours(events, samples, invalidHours, start, end, gaps);
    return Success(count);
  }

  /** For proper gaps, the overlap test of an hour fails exactly when no instant of the hour is covered. */
  lemma OverlapMeansCovered(gaps: seq<Interval>, hour: int)
    requires Proper(gaps)
    ensures (forall k :: 0 <= k < |gaps| ==> !(gaps[k].start < hour + UTC_HOUR_NS && hour < gaps[k].end))
            <==> (forall t :: InHour(t, hour) ==> !Covers(gaps, t))
  {
    forall k | 0 <= k < |gaps| && gaps[k].start < hour + UTC_HOUR_NS && hour < gaps[k].end
      ensures exists t :: InHour(t, hour) && Covers(gaps, t)
    {
      var t := if gaps[k].start >= hour then gaps[k].start else hour;
      assert Inside(gaps[k], t) && InHour(t, hour) && Covers(gaps, t);
    }
  }

  /** Merging gaps never changes the usable-hour count: only the covered instants matter. */
  lemma {:induction false} UsableHoursDependOnCover(events: seq<LatencyEvent>, a: seq<Interval>, b: seq<Interval>,
                                                    from: int, end: int)
    requires SameCover(a, b)
    ensures UsableHours(events, a, from, end) == UsableHours(events, b, from, end)
    decreases end - from
  {
    if from < end {
      UsableHoursDependOnCover(events, a, b, from + UTC_HOUR_NS, end);
    }
  }

  /** There are never more usable hours than hours. */
  lemma {:induction false} UsableWithinEligible(events: seq<LatencyEvent>, gaps: seq<Interval>, from: int, end: int)
    requires from <= end && from % UTC_HOUR_NS == 0 && end % UTC_HOUR_NS == 0
    ensures UsableHours(events, gaps, from, end) <= (end - from) / UTC_HOUR_NS
    decreases end - from
  {
    if from < end {
      UsableWithinEligible(events, gaps, from + UTC_HOUR_NS, end);
      assert (end - from) / UTC_HOUR_NS == (end - (from + UTC_HOUR_NS)) / UTC_HOUR_NS + 1;
    }
  }

  // ---------- the verdict ----------

  ghost predicate UtcWindow(start: int, end: int, kind: WindowKind) {
    && HourWindow(start, end)
    && end - start == (if kind.Gate1Week? then 604_800_000_000_000 else 2_592_000_000_000_000)
    && (kind.CompletionMonth? ==> start % 86_400_000_000_000 == 0)
  }

  function EligibleUtcHours(start: int, end: int, kind: WindowKind): (r: Result<int>)
    ensures r.Success? <==> UtcWindow(start, end, kind)
    ensures r.Success? ==> r.value * UTC_HOUR_NS == end - start
  {
    if !(start >= 0 && end > start) then Failure("invalid UTC window range")
    else if !(start % UTC_HOUR_NS == 0 && end % UTC_HOUR_NS == 0) then Failure("UTC hour alignment required")
    else
      var expected := if kind.Gate1Week? then GATE1_WINDOW_HOURS else COMPLETION_WINDOW_HOURS;
      var actual := (end - start) / UTC_HOUR_NS;
      if actual != expected then Failure("invalid window duration")
      else if kind.CompletionMonth? && start % UTC_DAY_NS != 0 then Failure("completion window must be UTC day aligned")
      else Success(actual)
  }

  function WindowCoverageOk(duration: int, maxGap: int, totalGap: int, unexplained: bool, usable: int,
                            eligible: int): Result<bool> {
    if duration <= 0 || maxGap < 0 || totalGap < 0 || usable < 0 || eligible <= 0 then
      Failure("invalid coverage number")
    else if maxGap > totalGap then Failure("gap maximum exceeds total")
    else if totalGap > duration then Failure("gap total exceeds window")
    else if (maxGap != 0) != (totalGap != 0) then Failure("incomplete gap aggregate")
    else if usable > eligible then Failure("usable hours exceed eligible hours")
    else Success(
      && !unexplained
      && maxGap <= MAX_EXPLAINED_GAP_NS
      && totalGap * 100 <= duration * MAX_EXPLAINED_GAP_PERCENT
      && usable * 100 >= eligible * MIN_LATENCY_USABLE_HOUR_PERCENT)
  }

  datatype CoverageWindowResult = CoverageWindowResult(
    pairing: PairingResult, maxGap: int, totalGap: int, usable: int, eligible: int, passed: bool)

  /** The verdict in terms of the point and event streams alone. */
  ghost predicate Passes(points: seq<CoveragePoint>, events: seq<LatencyEvent>, gaps: seq<Interval>, start: int,
                         end: int) {
    && !HasUnexplained(points, start, end)
    && (forall k :: 0 <= k < |gaps| ==> gaps[k].end - gaps[k].start <= 14_400_000_000_000)
    && CoveredCount(gaps, start, end) * 100 <= (end - start) * 2
    && UsableHours(events, gaps, start, end) * 100 >= ((end - start) / 3_600_000_000_000) * 95
  }

  /**
   * Over merged gaps inside a UTC window the verdict on the aggregates never fails, and is the verdict on the
   * streams.
   */
  lemma VerdictMeans(points: seq<CoveragePoint>, events: seq<LatencyEvent>, gaps: seq<Interval>, start: int,
                     end: int, unexplained: bool)
    requires HourWindow(start, end) && Proper(gaps) && Separated(gaps) && Within(gaps, start, end)
    requires unexplained <==> HasUnexplained(points, start, end)
    ensures WindowCoverageOk(end - start, LongestGap(gaps), TotalGap(gaps), unexplained,
                             UsableHours(events, gaps, start, end), (end - start) / UTC_HOUR_NS)
            == Success(Passes(points, events, gaps, start, end))
  {
    AggregatesFit(events, gaps, start, end);
    WindowHoldsAnHour(start, end);
  }

  lemma WindowHoldsAnHour(start: int, end: int)
    requires HourWindow(start, end)
    ensures (end - start) / UTC_HOUR_NS > 0
  {
    var q, e := start / UTC_HOUR_NS, end / UTC_HOUR_NS;
    assert start == q * UTC_HOUR_NS && end == e * UTC_HOUR_NS;
  }

  /** On a valid window and stream no later check can fire, and the verdict means what the thresholds say. */
  method ReplayWindowCoverage(points: seq<CoveragePoint>, events: seq<LatencyEvent>, start: int, end: int,
                              kind: WindowKind)
    returns (r: Result<CoverageWindowResult>)
    ensures r.Success? <==> UtcWindow(start, end, kind) && ValidStream(points) && CountableEvents(events, start, end)
    ensures r.Success? ==> Faithful(points, start, end, r.value.pairing)
    ensures r.Success? ==> r.value.totalGap == CoveredCount(r.value.pairing.intervals, start, end) <= end - start
    ensures r.Success? ==> IsLongest(r.value.pairing.intervals, r.value.maxGap) && r.value.maxGap <= r.value.totalGap
    ensures r.Success? ==> r.value.eligible == (end - start) / UTC_HOUR_NS
    ensures r.Success? ==>
              r.value.usable == UsableHours(events, r.value.pairing.intervals, start, end) <= r.value.eligible
    ensures r.Success? ==> (r.value.passed <==> Passes(points, events, r.value.pairing.intervals, start, end))
  {
    var pairing := PairExplainedIntervals(points, start, end);
    if pairing.Failure? { return Failure(pairing.error); }
    var gaps := pairing.value.intervals;
    var maximum, total := LongestGap(gaps), TotalGap(gaps);
    var eligible := EligibleUtcHours(start, end, kind);
    if eligible.Failure? { return Failure(eligible.error); }
    assert OrderedGaps(gaps);
    var usable := UsableLatencyHours(events, start, end, gaps);
    AggregatesFit(events, gaps, start, end);
    VerdictMeans(points, events, gaps, start, end, pairing.value.unexplained);
    if usable.Failure? { return Failure(usable.error); }
    LongestIsLongest(gaps);
    assert eligible.value == (end - start) / UTC_HOUR_NS;
    var passed := WindowCoverageOk(end - start, maximum, total, pairing.value.unexplained, usable.value,
        eligible.value);
    return Success(CoverageWindowResult(pairing.value, maximum, total, usable.value, eligible.value, passed.value));
  }

  /** The width of some gap that no other exceeds; zero if there is none. */
  ghost predicate IsLongest(gaps: seq<Interval>, width: int) {
    && (forall k :: 0 <= k < |gaps| ==> gaps[k].end - gaps[k].start <= width)
    && (if gaps == [] then width == 0 else exists k :: 0 <= k < |gaps| && gaps[k].end - gaps[k].start == width)
  }

  lemma LongestIsLongest(gaps: seq<Interval>)
    requires Proper(gaps)
    ensures IsLongest(gaps, LongestGap(gaps))
  {
    if gaps != [] {
      LongestBounds(gaps, LongestGap(gaps));
      if forall k :: 0 <= k < |gaps| ==> gaps[k].end - gaps[k].start != LongestGap(gaps) {
        LongestBounds(gaps, LongestGap(gaps) - 1);
      }
    }
  }

  /** Aggregates of merged gaps inside a UTC window satisfy every structural check of the verdict. */
  lemma AggregatesFit(events: seq<LatencyEvent>, gaps: seq<Interval>, start: int, end: int)
    requires HourWindow(start, end)
    requires Proper(gaps) && Separated(gaps) && Within(gaps, start, end)
    ensures TotalGap(gaps) == CoveredCount(gaps, start, end) <= end - start
    ensures 0 <= LongestGap(gaps) <= TotalGap(gaps) && (LongestGap(gaps) == 0 <==> TotalGap(gaps) == 0)
    ensures LongestGap(gaps) <= MAX_EXPLAINED_GAP_NS <==>
              forall k :: 0 <= k < |gaps| ==> gaps[k].end - gaps[k].start <= MAX_EXPLAINED_GAP_NS
    ensures UsableHours(events, gaps, start, end) <= (end - start) / UTC_HOUR_NS
  {
    TotalCountsInstants(gaps, start, end);
    CountBound(gaps, start, end);
    LongestWithinTotal(gaps);
    LongestBounds(gaps, MAX_EXPLAINED_GAP_NS);
    UsableWithinEligible(events, gaps, start, end);
  }
}
