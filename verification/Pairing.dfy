/** Pairs explained failures with the verified points around them, in one pass over an ordered point stream. */
module Pairing {
  import opened Common
  import opened Intervals

  datatype Venue = Hyperliquid | Bybit

  datatype FailureReason =
    | ApplicationPongTimeout
    | SubscriptionAckTimeout
    | TransportDisconnected
    | TransportPingTimeout
    | VenueDown
    | BybitSequenceGap

  datatype Kind = HardVerified | ExplainedFailure | UnexplainedFailure

  datatype CoveragePoint = CoveragePoint(venue: Venue, observed: int, kind: Kind, reason: Option<FailureReason>)

  datatype PairingResult = PairingResult(intervals: seq<Interval>, unexplained: bool)

  predicate ValidPoint(p: CoveragePoint) {
    && p.observed >= 0
    && (p.kind.ExplainedFailure? <==> p.reason.Some?)
    && (p.reason == Some(BybitSequenceGap) ==> p.venue.Bybit?)
  }

  /** What the pairing accepts: valid points whose times never move backwards. */
  ghost predicate ValidStream(points: seq<CoveragePoint>) {
    ValidPrefix(points, |points|)
  }

  ghost predicate ValidPrefix(points: seq<CoveragePoint>, k: int)
    requires 0 <= k <= |points|
  {
    && (forall i :: 0 <= i < k ==> points[i].observed >= 0)
    && (forall i :: 0 <= i < k ==> (points[i].kind == ExplainedFailure <==> points[i].reason != None))
    && (forall i :: 0 <= i < k && points[i].reason == Some(BybitSequenceGap) ==> points[i].venue == Bybit)
    && (forall i :: 0 < i < k ==> points[i - 1].observed <= points[i].observed)
  }

  predicate Verified(p: CoveragePoint, venue: Venue) {
    p.kind.HardVerified? && p.venue == venue
  }

  // ---------- the declarative meaning ----------

  /** Index of the last verified point of the venue before position i, or -1. */
  ghost function Previous(points: seq<CoveragePoint>, venue: Venue, i: int): (p: int)
    requires 0 <= i <= |points|
    ensures -1 <= p < i
    ensures p >= 0 ==> Verified(points[p], venue)
    ensures forall j :: p < j < i ==> !Verified(points[j], venue)
  {
    if i == 0 then -1
    else if Verified(points[i - 1], venue) then i - 1
    else Previous(points, venue, i - 1)
  }

  /** Index of the first verified point of the venue at or after position i, or the length. */
  ghost function Next(points: seq<CoveragePoint>, venue: Venue, i: int): (n: int)
    requires 0 <= i <= |points|
    ensures i <= n <= |points|
    ensures n < |points| ==> Verified(points[n], venue)
    ensures forall j :: i <= j < n ==> !Verified(points[j], venue)
    decreases |points| - i
  {
    if i == |points| || Verified(points[i], venue) then i else Next(points, venue, i + 1)
  }

  /** Position i is an explained failure that lies before the end of the window. */
  ghost predicate FailureAt(points: seq<CoveragePoint>, windowEnd: int, i: int) {
    0 <= i < |points| && points[i].kind.ExplainedFailure? && points[i].observed < windowEnd
  }

  /** The venue is verified again after failure i and before the end of the window. */
  ghost predicate Closes(points: seq<CoveragePoint>, windowEnd: int, i: int)
    requires 0 <= i < |points|
  {
    var n := Next(points, points[i].venue, i);
    n < |points| && points[n].observed < windowEnd
  }

  /** Instant t is explained by failure i: it lies between the verified points on either side. */
  ghost predicate Explains(points: seq<CoveragePoint>, windowStart: int, windowEnd: int, i: int, t: int) {
    && FailureAt(points, windowEnd, i)
    && Closes(points, windowEnd, i)
    && var p := Previous(points, points[i].venue, i);
    && p >= 0
    && windowStart <= t
    && points[p].observed <= t < points[Next(points, points[i].venue, i)].observed
  }

  /** Failure i leaves time inside the window that no earlier verified point explains. */
  ghost predicate Unanchored(points: seq<CoveragePoint>, windowStart: int, windowEnd: int, i: int) {
    && FailureAt(points, windowEnd, i)
    && Closes(points, windowEnd, i)
    && Previous(points, points[i].venue, i) < 0
    && windowStart < points[Next(points, points[i].venue, i)].observed
  }

  ghost predicate NeverCloses(points: seq<CoveragePoint>, windowEnd: int, i: int) {
    FailureAt(points, windowEnd, i) && !Closes(points, windowEnd, i)
  }

  ghost predicate UnexplainedAt(points: seq<CoveragePoint>, windowStart: int, windowEnd: int, i: int) {
    0 <= i < |points| && points[i].kind.UnexplainedFailure? && windowStart <= points[i].observed < windowEnd
  }

  ghost predicate HasUnexplained(points: seq<CoveragePoint>, windowStart: int, windowEnd: int) {
    || (exists i :: UnexplainedAt(points, windowStart, windowEnd, i))
    || (exists i :: Unanchored(points, windowStart, windowEnd, i))
    || (exists i :: NeverCloses(points, windowEnd, i))
  }

  // ---------- the one-pass loop ----------

  /** Failure i of the venue is still open after the first k points. */
  ghost predicate OpenAt(points: seq<CoveragePoint>, windowEnd: int, venue: Venue, k: int, i: int) {
    FailureAt(points, windowEnd, i) && i < k && points[i].venue == venue && Next(points, venue, i) >= k
  }

  ghost predicate AnyOpen(points: seq<CoveragePoint>, windowEnd: int, venue: Venue, k: int) {
    exists i :: OpenAt(points, windowEnd, venue, k, i)
  }

  /** Instant t is explained by a failure that the first k points close. */
  ghost predicate ExplainedBy(points: seq<CoveragePoint>, windowStart: int, windowEnd: int, k: int, t: int) {
    exists i :: Explains(points, windowStart, windowEnd, i, t) && Next(points, points[i].venue, i) < k
  }

  /** The first k points already show unexplained time. */
  ghost predicate FlaggedBy(points: seq<CoveragePoint>, windowStart: int, windowEnd: int, k: int) {
    || (exists i :: UnexplainedAt(points, windowStart, windowEnd, i) && i < k)
    || (exists i :: Unanchored(points, windowStart, windowEnd, i) && Next(points, points[i].venue, i) < k)
  }

  /** The start an open failure of the venue would get: the time of its last verified point. */
  ghost function Anchor(points: seq<CoveragePoint>, venue: Venue, k: int): Option<int>
    requires 0 <= k <= |points|
  {
    var p := Previous(points, venue, k);
    if p < 0 then None else Some(points[p].observed)
  }

  /** The part inside the window of the interval from an anchor to the closing point. */
  function Clipped(anchor: int, windowStart: int, observed: int): Interval {
    Interval(if anchor >= windowStart then anchor else windowStart, observed)
  }

  /** How the open failures and the anchor of a venue change at point k. */
  lemma VenueStep(points: seq<CoveragePoint>, windowEnd: int, k: int, venue: Venue)
    requires 0 <= k < |points| && points[k].observed < windowEnd
    ensures var opens := points[k].kind.ExplainedFailure? && points[k].venue == venue;
            AnyOpen(points, windowEnd, venue, k + 1) <==>
              !Verified(points[k], venue) && (AnyOpen(points, windowEnd, venue, k) || opens)
    ensures Anchor(points, venue, k + 1)
         == if Verified(points[k], venue) then Some(points[k].observed) else Anchor(points, venue, k)
  {
    if i :| OpenAt(points, windowEnd, venue, k, i) {
      assert !Verified(points[k], venue) ==> OpenAt(points, windowEnd, venue, k + 1, i);
    }
    assert points[k].kind.ExplainedFailure? && points[k].venue == venue ==> OpenAt(points, windowEnd, venue, k + 1, k);
    var after := k + 1;
    if i :| OpenAt(points, windowEnd, venue, after, i) {
      assert i != k ==> OpenAt(points, windowEnd, venue, k, i);
    }
  }

  lemma {:induction false} PreviousStable(points: seq<CoveragePoint>, venue: Venue, i: int, k: int)
    requires 0 <= i <= k <= |points|
    requires forall j :: i <= j < k ==> !Verified(points[j], venue)
    ensures Previous(points, venue, i) == Previous(points, venue, k)
    decreases k - i
  {
    if i < k {
      PreviousStable(points, venue, i, k - 1);
    }
  }

  /** An instant first explained at point k needs point k to close a failure that was open, from its anchor. */
  lemma ExplainedStep(points: seq<CoveragePoint>, windowStart: int, windowEnd: int, k: int, t: int)
    requires 0 <= k < |points| && points[k].observed < windowEnd
    ensures var venue := points[k].venue; var anchor := Anchor(points, venue, k);
            ExplainedBy(points, windowStart, windowEnd, k + 1, t) <==>
              || ExplainedBy(points, windowStart, windowEnd, k, t)
              || (points[k].kind.HardVerified? && AnyOpen(points, windowEnd, venue, k)
                  && anchor.Some? && Inside(Clipped(anchor.value, windowStart, points[k].observed), t))
  {
    var venue := points[k].venue;
    if i :| Explains(points, windowStart, windowEnd, i, t) && Next(points, points[i].venue, i) == k {
      assert OpenAt(points, windowEnd, venue, k, i);
      PreviousStable(points, venue, i, k);
    }
    if i :| points[k].kind.HardVerified? && OpenAt(points, windowEnd, venue, k, i) {
      PreviousStable(points, venue, i, k);
      assert Next(points, venue, i) == k;
      var anchor := Anchor(points, venue, k);
      assert anchor.Some? && Inside(Clipped(anchor.value, windowStart, points[k].observed), t) ==>
          Explains(points, windowStart, windowEnd, i, t);
    }
  }

  lemma FlaggedStep(points: seq<CoveragePoint>, windowStart: int, windowEnd: int, k: int)
    requires 0 <= k < |points| && points[k].observed < windowEnd
    ensures var venue := points[k].venue;
            FlaggedBy(points, windowStart, windowEnd, k + 1) <==>
              || FlaggedBy(points, windowStart, windowEnd, k)
              || (points[k].kind.UnexplainedFailure? && windowStart <= points[k].observed)
              || (points[k].kind.HardVerified? && AnyOpen(points, windowEnd, venue, k)
                  && Anchor(points, venue, k).None? && windowStart < points[k].observed)
  {
    var venue := points[k].venue;
    assert points[k].kind.UnexplainedFailure? && windowStart <= points[k].observed ==>
        UnexplainedAt(points, windowStart, windowEnd, k);
    if i :| Unanchored(points, windowStart, windowEnd, i) && Next(points, points[i].venue, i) == k {
      assert OpenAt(points, windowEnd, venue, k, i);
      PreviousStable(points, venue, i, k);
    }
    if i :| points[k].kind.HardVerified? && OpenAt(points, windowEnd, venue, k, i) {
      PreviousStable(points, venue, i, k);
      assert Next(points, venue, i) == k;
      assert Anchor(points, venue, k).None? && windowStart < points[k].observed ==>
          Unanchored(points, windowStart, windowEnd, i);
    }
  }

  /** After the last point before the window end, what is still open never closes. */
  lemma EndOfStream(points: seq<CoveragePoint>, windowStart: int, windowEnd: int, k: int)
    requires 0 <= k <= |points|
    requires forall j :: 0 <= j < k ==> points[j].observed < windowEnd
    requires forall j :: k <= j < |points| ==> points[j].observed >= windowEnd
    ensures forall t :: ExplainedBy(points, windowStart, windowEnd, k, t) <==>
              exists i :: Explains(points, windowStart, windowEnd, i, t)
    ensures HasUnexplained(points, windowStart, windowEnd) <==>
              || FlaggedBy(points, windowStart, windowEnd, k)
              || AnyOpen(points, windowEnd, Hyperliquid, k)
              || AnyOpen(points, windowEnd, Bybit, k)
  {
    forall i | NeverCloses(points, windowEnd, i)
      ensures OpenAt(points, windowEnd, points[i].venue, k, i)
    {
    }
    forall v, i | OpenAt(points, windowEnd, v, k, i)
      ensures NeverCloses(points, windowEnd, i)
    {
    }
  }

  // ---------- the meaning of a prefix, as one value ----------

  /** What the points consumed so far say: explained instants, the flag, and each venue's open failures and anchor. */
  datatype Meaning = Meaning(
    explained: iset<int>, flagged: bool, open: map<Venue, bool>, anchor: map<Venue, Option<int>>)

  ghost predicate BothVenues(m: Meaning) {
    Hyperliquid in m.open && Bybit in m.open && Hyperliquid in m.anchor && Bybit in m.anchor
  }

  ghost predicate VenueMeaning(m: Meaning, points: seq<CoveragePoint>, windowEnd: int, k: int, venue: Venue)
    requires venue in m.open && venue in m.anchor && 0 <= k <= |points|
  {
    m.open[venue] == AnyOpen(points, windowEnd, venue, k) && m.anchor[venue] == Anchor(points, venue, k)
  }

  ghost predicate Means(m: Meaning, points: seq<CoveragePoint>, windowStart: int, windowEnd: int, k: int)
    requires 0 <= k <= |points|
  {
    && BothVenues(m)
    && (forall t :: t in m.explained <==> ExplainedBy(points, windowStart, windowEnd, k, t))
    && m.flagged == FlaggedBy(points, windowStart, windowEnd, k)
    && VenueMeaning(m, points, windowEnd, k, Hyperliquid)
    && VenueMeaning(m, points, windowEnd, k, Bybit)
  }

  /** How one point changes the meaning. */
  ghost function StepMeaning(m: Meaning, windowStart: int, point: CoveragePoint): (after: Meaning)
    requires BothVenues(m)
    ensures BothVenues(after)
  {
    var v := point.venue;
    assert v == Hyperliquid || v == Bybit;
    var anchor := m.anchor[v];
    match point.kind
    case HardVerified =>
      var closing := m.open[v] && windowStart < point.observed;
      Meaning(if closing && anchor.Some?
              then m.explained + (iset t: int | Inside(Clipped(anchor.value, windowStart, point.observed), t))
              else m.explained,
              m.flagged || (closing && anchor.None?),
              m.open[v := false], m.anchor[v := Some(point.observed)])
    case ExplainedFailure => m.(open := m.open[v := true])
    case UnexplainedFailure => m.(flagged := m.flagged || windowStart <= point.observed)
  }

  lemma MeaningStep(m: Meaning, points: seq<CoveragePoint>, windowStart: int, windowEnd: int, k: int)
    requires 0 <= k < |points| && points[k].observed < windowEnd
    requires Means(m, points, windowStart, windowEnd, k)
    ensures Means(StepMeaning(m, windowStart, points[k]), points, windowStart, windowEnd, k + 1)
  {
    VenueStep(points, windowEnd, k, Hyperliquid);
    VenueStep(points, windowEnd, k, Bybit);
    MeaningStepExplained(m, points, windowStart, windowEnd, k);
  }

  lemma MeaningStepExplained(m: Meaning, points: seq<CoveragePoint>, windowStart: int, windowEnd: int, k: int)
    requires 0 <= k < |points| && points[k].observed < windowEnd
    requires Means(m, points, windowStart, windowEnd, k)
    ensures var after := StepMeaning(m, windowStart, points[k]); var next := k + 1;
            && after.flagged == FlaggedBy(points, windowStart, windowEnd, next)
            && forall t :: t in after.explained <==> ExplainedBy(points, windowStart, windowEnd, next, t)
  {
    var after := StepMeaning(m, windowStart, points[k]);
    var next := k + 1;
    assert points[k].venue == Hyperliquid || points[k].venue == Bybit;
    FlaggedStep(points, windowStart, windowEnd, k);
    forall t ensures t in after.explained <==> ExplainedBy(points, windowStart, windowEnd, next, t) {
      ExplainedStep(points, windowStart, windowEnd, k, t);
    }
  }

  // ---------- the one-pass loop ----------

  /** One venue's entries in the two dictionaries. */
  ghost predicate VenueState(m: Meaning, venue: Venue, lastVerified: map<Venue, int>, pending: map<Venue,
                             seq<Option<int>>>)
    requires venue in m.open && venue in m.anchor
  {
    && venue in pending
    && (if venue in lastVerified then Some(lastVerified[venue]) else None) == m.anchor[venue]
    && (forall j :: 0 <= j < |pending[venue]| ==> pending[venue][j] == m.anchor[venue])
    && (pending[venue] != [] <==> m.open[venue])
  }

  /** The loop variables hold exactly the meaning m. */
  ghost predicate Represents(m: Meaning, windowStart: int, windowEnd: int,
                             lastVerified: map<Venue, int>, pending: map<Venue, seq<Option<int>>>,
                             intervals: seq<Interval>, unexplained: bool)
  {
    && BothVenues(m)
    && VenueState(m, Hyperliquid, lastVerified, pending)
    && VenueState(m, Bybit, lastVerified, pending)
    && Proper(intervals) && Within(intervals, windowStart, windowEnd)
    && (forall t :: Covers(intervals, t) <==> t in m.explained)
    && unexplained == m.flagged
  }

  /** The entries of one venue's pending list, closed by its verified point. */
  method CloseStarts(starts: seq<Option<int>>, observed: int, windowStart: int, intervals: seq<Interval>,
                     unexplained: bool,
                     ghost anchor: Option<int>, ghost windowEnd: int)
    returns (intervals': seq<Interval>, unexplained': bool)
    requires Proper(intervals) && Within(intervals, windowStart, windowEnd) && observed < windowEnd
    requires forall j :: 0 <= j < |starts| ==> starts[j] == anchor
    ensures Proper(intervals') && Within(intervals', windowStart, windowEnd)
    ensures unexplained' <==> unexplained || (starts != [] && anchor.None?)
    ensures forall t :: Covers(intervals', t) <==>
              || Covers(intervals, t)
              || (starts != [] && anchor.Some? && Inside(Clipped(anchor.value, windowStart, observed), t))
  {
    intervals', unexplained' := intervals, unexplained;
    for s := 0 to |starts|
      invariant Proper(intervals') && Within(intervals', windowStart, windowEnd)
      invariant unexplained' <==> unexplained || (s > 0 && anchor.None?)
      invariant forall t :: Covers(intervals', t) <==>
                  || Covers(intervals, t)
                  || (s > 0 && anchor.Some? && Inside(Clipped(anchor.value, windowStart, observed), t))
    {
      if starts[s].None? {
        unexplained' := true;
      } else {
        var clipped := Clipped(starts[s].value, windowStart, observed);
        if clipped.start < observed {
          ghost var before := intervals';
          intervals' := intervals' + [clipped];
          forall t ensures Covers(intervals', t) <==> Covers(before, t) || Inside(clipped, t) {
            CoverAppend(before, clipped, t);
          }
        }
      }
    }
  }

  /** One turn of the loop on a point that lies before the window end. */
  method Consume(ghost m: Meaning, ghost points: seq<CoveragePoint>, windowStart: int, ghost windowEnd: int,
                 ghost k: int, point: CoveragePoint, lastVerified: map<Venue, int>,
                 pending: map<Venue, seq<Option<int>>>,
                 intervals: seq<Interval>, unexplained: bool)
    returns (ghost m': Meaning, lastVerified': map<Venue, int>, pending': map<Venue, seq<Option<int>>>,
             intervals': seq<Interval>, unexplained': bool)
    requires 0 <= k < |points| && point == points[k] && point.observed < windowEnd
    requires Means(m, points, windowStart, windowEnd, k)
    requires Represents(m, windowStart, windowEnd, lastVerified, pending, intervals, unexplained)
    ensures Means(m', points, windowStart, windowEnd, k + 1)
    ensures Represents(m', windowStart, windowEnd, lastVerified', pending', intervals', unexplained')
  {
    lastVerified', pending', intervals', unexplained' :=
      Update(m, windowStart, windowEnd, point, lastVerified, pending, intervals, unexplained);
    MeaningStep(m, points, windowStart, windowEnd, k);
    m' := StepMeaning(m, windowStart, point);
  }

  /** The branches of the loop body, one per kind of point. */
  method Update(ghost m: Meaning, windowStart: int, ghost windowEnd: int, point: CoveragePoint,
                lastVerified: map<Venue, int>, pending: map<Venue, seq<Option<int>>>,
                intervals: seq<Interval>, unexplained: bool)
    returns (lastVerified': map<Venue, int>, pending': map<Venue, seq<Option<int>>>,
             intervals': seq<Interval>, unexplained': bool)
    requires point.observed < windowEnd
    requires Represents(m, windowStart, windowEnd, lastVerified, pending, intervals, unexplained)
    ensures Represents(StepMeaning(m, windowStart, point), windowStart, windowEnd, lastVerified', pending', intervals',
        unexplained')
  {
    lastVerified', pending', intervals', unexplained' := lastVerified, pending, intervals, unexplained;
    assert point.venue == Hyperliquid || point.venue == Bybit;
    match point.kind
    case HardVerified =>
      var starts := pending[point.venue];
      if point.observed > windowStart {
        intervals', unexplained' := CloseStarts(starts, point.observed, windowStart, intervals, unexplained,
                                                m.anchor[point.venue], windowEnd);
      }
      pending' := pending[point.venue := []];
      lastVerified' := lastVerified[point.venue := point.observed];
    case ExplainedFailure =>
      var anchor := if point.venue in lastVerified then Some(lastVerified[point.venue]) else None;
      pending' := pending[point.venue := pending[point.venue] + [anchor]];
    case UnexplainedFailure =>
      if point.observed >= windowStart {
        unexplained' := true;
      }
  }

  /** The result says what the point stream means: explained instants, the flag, and a merged form inside the window. */
  ghost predicate Faithful(points: seq<CoveragePoint>, windowStart: int, windowEnd: int, r: PairingResult) {
    && (forall t :: Covers(r.intervals, t) <==> exists i :: Explains(points, windowStart, windowEnd, i, t))
    && (r.unexplained <==> HasUnexplained(points, windowStart, windowEnd))
    && Proper(r.intervals) && Separated(r.intervals) && Within(r.intervals, windowStart, windowEnd)
  }

  /** The first k points are valid, and exactly the first inWindow of them lie before the window end. */
  ghost predicate Reached(points: seq<CoveragePoint>, windowEnd: int, k: int, inWindow: int, previousNs: int)
    requires 0 <= k <= |points|
  {
    && ValidPrefix(points, k)
    && previousNs == (if k == 0 then -1 else points[k - 1].observed)
    && 0 <= inWindow <= k
    && (forall j :: 0 <= j < inWindow ==> points[j].observed < windowEnd)
    && (forall j :: inWindow <= j < k ==> points[j].observed >= windowEnd)
  }

  lemma ReachedStep(points: seq<CoveragePoint>, windowEnd: int, k: int, inWindow: int, previousNs: int)
    requires 0 <= k < |points| && Reached(points, windowEnd, k, inWindow, previousNs)
    requires ValidPoint(points[k]) && points[k].observed >= previousNs
    ensures points[k].observed < windowEnd ==> inWindow == k
    ensures Reached(points, windowEnd, k + 1, if points[k].observed < windowEnd then k + 1 else inWindow,
                    points[k].observed)
  {
    if inWindow < k {
      assert points[k - 1].observed >= windowEnd;
    }
  }

  lemma Finish(m: Meaning, points: seq<CoveragePoint>, windowStart: int, windowEnd: int, inWindow: int, previousNs: int,
               lastVerified: map<Venue, int>, pending: map<Venue, seq<Option<int>>>,
               intervals: seq<Interval>, unexplained: bool, merged: seq<Interval>)
    requires Reached(points, windowEnd, |points|, inWindow, previousNs)
    requires Means(m, points, windowStart, windowEnd, inWindow)
    requires Represents(m, windowStart, windowEnd, lastVerified, pending, intervals, unexplained)
    requires MergeOf(intervals, merged)
    ensures Faithful(points, windowStart, windowEnd,
                     PairingResult(merged, unexplained || pending[Hyperliquid] != [] || pending[Bybit] != []))
  {
    EndOfStream(points, windowStart, windowEnd, inWindow);
  }

  /** The one-pass loop: its intervals and its flag are exactly the declarative ones. */
  method PairExplainedIntervals(points: seq<CoveragePoint>, windowStart: int, windowEnd: int)
    returns (r: Result<PairingResult>)
    ensures match r
            case Success(result) =>
              && 0 <= windowStart < windowEnd && ValidStream(points)
              && Faithful(points, windowStart, windowEnd, result)
            case Failure(_) => !(0 <= windowStart < windowEnd && ValidStream(points))
  {
    if windowStart < 0 || windowEnd <= windowStart { return Failure("invalid pairing window"); }
    var lastVerified: map<Venue, int> := map[];
    var pending: map<Venue, seq<Option<int>>> := map[Hyperliquid := [], Bybit := []];
    var intervals: seq<Interval> := [];
    var unexplained, previousNs := false, -1;
    ghost var m := Meaning(iset{}, false, map[Hyperliquid := false, Bybit := false], map[Hyperliquid := None,
        Bybit := None]);
    ghost var inWindow := 0;  // how many leading points lie before the window end
    for k := 0 to |points|
      invariant Reached(points, windowEnd, k, inWindow, previousNs)
      invariant Means(m, points, windowStart, windowEnd, inWindow)
      invariant Represents(m, windowStart, windowEnd, lastVerified, pending, intervals, unexplained)
    {
      var point := points[k];
      if !ValidPoint(point) || point.observed < previousNs { return Failure("invalid coverage point or order"); }
      ReachedStep(points, windowEnd, k, inWindow, previousNs);
      previousNs := point.observed;
      if point.observed < windowEnd {
        m, lastVerified, pending, intervals, unexplained :=
          Consume(m, points, windowStart, windowEnd, k, point, lastVerified, pending, intervals, unexplained);
        inWindow := k + 1;
      }
    }
    var merged := MergeIntervals(intervals);
    Finish(m, points, windowStart, windowEnd, inWindow, previousNs, lastVerified, pending, intervals, unexplained,
        merged);
    unexplained := unexplained || pending[Hyperliquid] != [] || pending[Bybit] != [];
    return Success(PairingResult(merged, unexplained));
  }
}
