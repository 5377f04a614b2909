/** The whole coverage chain: from one collector log to the verdict on a window. */
module CoverageWindow {
  import opened Common
  import opened Intervals
  import opened Pairing
  import Coverage
  import CoveragePoints
  import CoverageMeaning

  /** A log event, and what its bytes say as a market frame: the streams they sample, or that they cannot be read. */
  datatype Record = Record(event: CoveragePoints.Event, market: Option<Result<set<string>>>)

  function EventsOf(log: seq<Record>): (events: seq<CoveragePoints.Event>)
    ensures |events| == |log| && forall k :: 0 <= k < |log| ==> events[k] == log[k].event
  {
    seq(|log|, k requires 0 <= k < |log| => log[k].event)
  }

  /** The hour count reads only quarantines and market frames. */
  function SampleOf(r: Record): Coverage.Sample {
    if r.event.body.RawQuarantine? then Coverage.RawQuarantine
    else
      match r.market
      case Some(Success(streams)) => Coverage.RawFrame(streams)
      case Some(Failure(_)) => Coverage.UnreadableFrame
      case None => Coverage.OtherRecord
  }

  function LatencyOf(log: seq<Record>): (events: seq<Coverage.LatencyEvent>)
    ensures |events| == |log|
    ensures forall k :: 0 <= k < |log| ==> events[k] == Coverage.LatencyEvent(log[k].event.observed, SampleOf(log[k]))
  {
    seq(|log|, k requires 0 <= k < |log| => Coverage.LatencyEvent(log[k].event.observed, SampleOf(log[k])))
  }

  /** Times are never negative and never step back. */
  method CheckTimes(events: seq<CoveragePoints.Event>) returns (ok: bool)
    ensures ok <==> CoveragePoints.Timed(events)
  {
    var previous := 0;
    for k := 0 to |events|
      invariant previous == if k == 0 then 0 else events[k - 1].observed
      invariant forall i :: 0 <= i < k ==> events[i].observed >= 0
      invariant forall i :: 0 < i < k ==> events[i - 1].observed <= events[i].observed
    {
      if events[k].observed < previous {
        return false;
      }
      previous := events[k].observed;
    }
    return true;
  }

  /** Every market frame of the window can be read. */
  ghost predicate ReadableWindow(log: seq<Record>, start: int, end: int) {
    forall k :: 0 <= k < |log| && start <= log[k].event.observed < end && !log[k].event.body.RawQuarantine? ==>
      log[k].market.None? || log[k].market.value.Success?
  }

  // ---------- usable hours of a log ----------

  predicate Shows(r: Record, stream: string) {
    && !r.event.body.RawQuarantine?
    && r.market.Some? && r.market.value.Success? && stream in r.market.value.value
  }

  /** The hour shows every required stream, holds no quarantined frame and no instant of an explained gap. */
  ghost predicate ClearHour(log: seq<Record>, gaps: seq<Interval>, hour: int) {
    && (forall s :: s in Coverage.REQUIRED_LATENCY_STREAMS ==>
          exists k :: 0 <= k < |log| && Coverage.InHour(log[k].event.observed, hour) && Shows(log[k], s))
    && (forall k :: 0 <= k < |log| && log[k].event.body.RawQuarantine? ==>
          !Coverage.InHour(log[k].event.observed, hour))
    && (forall t :: Coverage.InHour(t, hour) ==> !Covers(gaps, t))
  }

  ghost function ClearHours(log: seq<Record>, gaps: seq<Interval>, from: int, end: int): nat
    decreases end - from
  {
    if end <= from then 0
    else (if ClearHour(log, gaps, from) then 1 else 0) + ClearHours(log, gaps, from + 3_600_000_000_000, end)
  }

  lemma UsableIsClear(log: seq<Record>, gaps: seq<Interval>, hour: int)
    ensures Coverage.UsableHour(LatencyOf(log), gaps, hour) <==> ClearHour(log, gaps, hour)
  {
    var events := LatencyOf(log);
    forall k, s | 0 <= k < |log|
      ensures Coverage.Samples(events[k], hour, s) <==>
                Coverage.InHour(log[k].event.observed, hour) && Shows(log[k], s)
      ensures Coverage.Quarantines(events[k], hour) <==>
                Coverage.InHour(log[k].event.observed, hour) && log[k].event.body.RawQuarantine?
    {
    }
  }

  /** The hours that the count finds usable are the clear hours of the log. */
  lemma {:induction false} UsableHoursAreClear(log: seq<Record>, gaps: seq<Interval>, from: int, end: int)
    ensures Coverage.UsableHours(LatencyOf(log), gaps, from, end) == ClearHours(log, gaps, from, end)
    decreases end - from
  {
    if from < end {
      UsableIsClear(log, gaps, from);
      UsableHoursAreClear(log, gaps, from + 3_600_000_000_000, end);
    }
  }

  /**
   * The evaluation of a log is refused exactly when its times step back, its events are not well formed, the window is
   * no UTC window, or a market frame of the window cannot be read; every other check of the chain is satisfied.
   */
  method EvaluateLog(log: seq<Record>, start: int, end: int, kind: Coverage.WindowKind)
    returns (r: Result<Coverage.CoverageWindowResult>)
    ensures r.Success? <==>
              && CoveragePoints.Timed(EventsOf(log)) && CoverageMeaning.WellFormed(EventsOf(log))
              && Coverage.UtcWindow(start, end, kind) && ReadableWindow(log, start, end)
    ensures r.Success? ==> CoveragePoints.PointsOf(EventsOf(log)).Success?
    ensures r.Success? ==> Faithful(CoveragePoints.PointsOf(EventsOf(log)).value, start, end, r.value.pairing)
    ensures r.Success? ==>
              (r.value.passed <==> Coverage.Passes(CoveragePoints.PointsOf(EventsOf(log)).value, LatencyOf(log),
                  r.value.pairing.intervals, start, end))
    ensures r.Success? && r.value.passed ==>
              forall k :: 0 <= k < |log| && log[k].event.body.RawQuarantine? ==> !(start <= log[k].event.observed < end)
    ensures r.Success? ==> r.value.usable == ClearHours(log, r.value.pairing.intervals, start, end)
  {
    var events := EventsOf(log);
    CoverageMeaning.ReplayableIff(events);
    var timed := CheckTimes(events);
    if !timed {
      return Failure("invalid formal collector record");
    }
    var points := CoveragePoints.CoveragePoints(events);
    if points.Failure? {
      return Failure(points.error);
    }
    CoveragePoints.PointsAreValid(events);
    assert Coverage.CountableEvents(LatencyOf(log), start, end) <==> ReadableWindow(log, start, end);
    r := Coverage.ReplayWindowCoverage(points.value, LatencyOf(log), start, end, kind);
    if r.Success? {
      UsableHoursAreClear(log, r.value.pairing.intervals, start, end);
    }
    if r.Success? && r.value.passed {
      CoverageMeaning.NoQuarantine(events, start, end);
    }
  }
}
