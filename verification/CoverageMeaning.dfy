/**
 * What a collector log says: which logs can be replayed, and exactly which coverage points each of their events adds.
 */
module CoverageMeaning {
  import opened Common
  import opened Pairing
  import opened Barrier
  import opened CoveragePoints

  // ---------- one event ----------

  /** The point is the one that a failure event calls for. */
  predicate PointOf(p: CoveragePoint, e: Event) {
    && p.venue == e.venue && p.observed == e.observed
    && match e.body
       case RawQuarantine => p.kind.UnexplainedFailure? && p.reason == None
       case LivenessFailure(reason) => p.kind.ExplainedFailure? && reason.Some? && p.reason == reason
       case VenueDown => p.kind.ExplainedFailure? && p.reason == Some(FailureReason.VenueDown)
       case SequenceGap => p.kind.ExplainedFailure? && p.reason == Some(BybitSequenceGap)
       case _ => false
  }

  /** The events before e leave the venue verified. */
  ghost predicate Verifies(events: seq<Event>, e: Event) {
    && !IsFailure(e.body)
    && Earned(events + [e], e.venue)
    && (e.body == Heartbeat(true) || !Earned(events, e.venue))
  }

  /**
   * What an event adds: its failure point, a verified point when the venue becomes or is confirmed ready, or nothing.
   */
  ghost predicate Adds(events: seq<Event>, e: Event, added: seq<CoveragePoint>) {
    if IsFailure(e.body) then |added| == 1 && PointOf(added[0], e)
    else if Verifies(events, e) then added == [CoveragePoint(e.venue, e.observed, HardVerified, None)]
    else added == []
  }

  lemma Unrolled(events: seq<Event>, e: Event)
    ensures (events + [e])[..|events|] == events
    ensures Replayed(START, events + [e])
         == match Replayed(START, events)
            case Failure(error) => Failure(error)
            case Success(s) => Step(s, e)
  {
  }

  /** After its own event a venue counts as verified exactly when it is ready and nothing blocks it. */
  lemma OwnFlags(s: State, e: Event)
    requires Step(s, e).Success? && (Get(s, e.venue).blocked ==> !Get(s, e.venue).active)
    ensures var t := Step(s, e).value;
            Get(t, e.venue).active <==> !Get(t, e.venue).blocked && VenueReady(Get(t, e.venue), e.venue, t.barrier)
  {
  }

  /** At every prefix of a log a venue counts as verified exactly when its connection has earned it. */
  lemma {:induction false} ActiveIffEarned(events: seq<Event>, venue: Venue)
    requires Replayed(START, events).Success?
    ensures var v := Get(Replayed(START, events).value, venue);
            (v.active <==> Earned(events, venue)) && (v.blocked ==> !v.active)
  {
    if events != [] {
      var n := |events| - 1;
      var front, last := events[..n], events[n];
      assert events == front + [last];
      var s, t := Replayed(START, front).value, Replayed(START, events).value;
      ActiveIffEarned(front, venue);
      ReplayReflects(events, venue);
      ReadyIsEarned(t, events, venue);
      if last.venue == venue {
        OwnFlags(s, last);
      } else {
        OtherVenueUntouched(s, last, venue);
        OtherVenueEpisode(front, last, venue);
      }
    }
  }

  /** The points that one step adds, by the state after it. */
  lemma StepAdds(s: State, e: Event)
    requires Step(s, e).Success?
    ensures var c, t := Connected(s, e), Step(s, e).value;
            var verified := CoveragePoint(e.venue, e.observed, HardVerified, None);
            var holding := !Get(t, e.venue).blocked && Get(t, e.venue).active;
            if IsFailure(e.body) then
              && |t.points| == |s.points| + 1 && t.points == s.points + [t.points[|s.points|]]
              && PointOf(t.points[|s.points|], e)
            else if holding && (e.body == Heartbeat(true) || !Get(c, e.venue).active) then
              t.points == s.points + [verified]
            else t.points == s.points
  {
  }

  /** A venue that a subscription starts afresh has not earned anything. */
  lemma FreshUnearned(events: seq<Event>, e: Event)
    requires e.body.SubscriptionSend? && CurrentConnection(events, e.venue) != Some(e.conn)
    ensures !Earned(events + [e], e.venue)
  {
    Unrolled(events, e);
    var episode := Episode(events + [e], e.venue);
    assert episode == [e];
    assert !Saw(episode, SubscriptionAck(true));
  }

  /** Every event of a replayable log adds exactly what it says: no failure is lost, and nothing else counts. */
  lemma PointsExact(events: seq<Event>, e: Event)
    requires Replayed(START, events + [e]).Success?
    ensures Replayed(START, events).Success?
    ensures var before, after := Replayed(START, events).value.points, Replayed(START, events + [e]).value.points;
            && before <= after
            && Adds(events, e, after[|before|..])
  {
    Unrolled(events, e);
    var s, t := Replayed(START, events).value, Replayed(START, events + [e]).value;
    StepAdds(s, e);
    ActiveIffEarned(events, e.venue);
    OwnFlags(s, e);
    ActiveIffEarned(events + [e], e.venue);
    ReplayReflects(events, e.venue);
    ReplayReflects(events + [e], e.venue);
    ReadyIsEarned(t, events + [e], e.venue);
    if e.body.SubscriptionSend? && CurrentConnection(events, e.venue) != Some(e.conn) {
      FreshUnearned(events, e);
    } else {
      assert Connected(s, e) == s;
    }
    assert t.points == s.points + t.points[|s.points|..];
  }

  // ---------- whole logs ----------

  function FailuresOf(events: seq<Event>): seq<Event> {
    if events == [] then []
    else
      var front, last := FailuresOf(events[..|events| - 1]), events[|events| - 1];
      if IsFailure(last.body) then front + [last] else front
  }

  function NotVerified(points: seq<CoveragePoint>): seq<CoveragePoint> {
    if points == [] then []
    else
      var front, last := NotVerified(points[..|points| - 1]), points[|points| - 1];
      if last.kind.HardVerified? then front else front + [last]
  }

  /** The points and the failures correspond one to one, in order. */
  predicate Corresponds(points: seq<CoveragePoint>, failures: seq<Event>) {
    |points| == |failures| && forall k :: 0 <= k < |points| ==> PointOf(points[k], failures[k])
  }

  lemma NotVerifiedAppend(points: seq<CoveragePoint>, p: CoveragePoint)
    ensures NotVerified(points + [p]) == if p.kind.HardVerified? then NotVerified(points) else NotVerified(points) + [p]
  {
    assert (points + [p])[..|points|] == points;
  }

  lemma AddsOneFailure(events: seq<Event>, e: Event, before: seq<CoveragePoint>, added: seq<CoveragePoint>)
    requires Adds(events, e, added)
    ensures IsFailure(e.body) ==>
              |added| == 1 && NotVerified(before + added) == NotVerified(before) + added && PointOf(added[0], e)
    ensures !IsFailure(e.body) ==> NotVerified(before + added) == NotVerified(before)
  {
    if added == [] {
      assert before + added == before;
    } else {
      assert added == [added[0]];
      NotVerifiedAppend(before, added[0]);
    }
  }

  lemma CorrespondsAppend(points: seq<CoveragePoint>, failures: seq<Event>, p: CoveragePoint, e: Event)
    requires Corresponds(points, failures) && PointOf(p, e)
    ensures Corresponds(points + [p], failures + [e])
  {
  }

  lemma FailureStep(events: seq<Event>, e: Event)
    requires Replayed(START, events + [e]).Success? && Replayed(START, events).Success?
    requires Corresponds(NotVerified(Replayed(START, events).value.points), FailuresOf(events))
    ensures Corresponds(NotVerified(Replayed(START, events + [e]).value.points), FailuresOf(events + [e]))
  {
    PointsExact(events, e);
    var before, after := Replayed(START, events).value.points, Replayed(START, events + [e]).value.points;
    var added := after[|before|..];
    assert after == before + added;
    AddsOneFailure(events, e, before, added);
    assert (events + [e])[..|events|] == events;
    if IsFailure(e.body) {
      assert added == [added[0]];
      CorrespondsAppend(NotVerified(before), FailuresOf(events), added[0], e);
    }
  }

  /**
   * The points of a log that verify nothing are, in order, exactly one for every disconnection, quarantine, downtime
   * and sequence gap of the log, each with the venue, time and reason of its event.
   */
  lemma {:induction false} FailurePointsExact(events: seq<Event>)
    requires Replayed(START, events).Success?
    ensures Corresponds(NotVerified(Replayed(START, events).value.points), FailuresOf(events))
  {
    if events != [] {
      var front, last := events[..|events| - 1], events[|events| - 1];
      assert events == front + [last];
      Unrolled(front, last);
      FailurePointsExact(front);
      FailureStep(front, last);
    }
  }

  lemma {:induction false} FailureIsListed(events: seq<Event>, k: nat)
    requires k < |events| && IsFailure(events[k].body)
    ensures events[k] in FailuresOf(events)
  {
    if k < |events| - 1 {
      FailureIsListed(events[..|events| - 1], k);
    }
  }

  lemma {:induction false} NotVerifiedAmong(points: seq<CoveragePoint>, p: CoveragePoint)
    ensures p in NotVerified(points) ==> p in points
  {
    if points != [] {
      NotVerifiedAmong(points[..|points| - 1], p);
    }
  }

  /** Every failure event has its point. */
  lemma FailureHasPoint(events: seq<Event>, k: nat) returns (i: nat)
    requires PointsOf(events).Success? && k < |events| && IsFailure(events[k].body)
    ensures i < |PointsOf(events).value| && PointOf(PointsOf(events).value[i], events[k])
  {
    var points := PointsOf(events).value;
    FailurePointsExact(events);
    FailureIsListed(events, k);
    var j :| 0 <= j < |FailuresOf(events)| && FailuresOf(events)[j] == events[k];
    var p := NotVerified(points)[j];
    NotVerifiedAmong(points, p);
    i :| 0 <= i < |points| && points[i] == p;
  }

  lemma QuarantineUnexplained(events: seq<Event>, start: int, end: int, k: nat)
    requires PointsOf(events).Success? && k < |events| && events[k].body.RawQuarantine?
    requires start <= events[k].observed < end
    ensures HasUnexplained(PointsOf(events).value, start, end)
  {
    var i := FailureHasPoint(events, k);
    assert UnexplainedAt(PointsOf(events).value, start, end, i);
  }

  /** A window whose points leave nothing unexplained holds no quarantined frame. */
  lemma NoQuarantine(events: seq<Event>, start: int, end: int)
    requires PointsOf(events).Success? && !HasUnexplained(PointsOf(events).value, start, end)
    ensures forall k :: 0 <= k < |events| && events[k].body.RawQuarantine? ==> !(start <= events[k].observed < end)
  {
    forall k | 0 <= k < |events| && events[k].body.RawQuarantine?
      ensures start <= events[k].observed < end ==> HasUnexplained(PointsOf(events).value, start, end)
    {
      if start <= events[k].observed < end {
        QuarantineUnexplained(events, start, end, k);
      }
    }
  }

  // ---------- which logs can be replayed ----------

  /** The event begins a gap: on a Bybit subscription without failure it leaves a book without continuity. */
  ghost predicate GapBegins(events: seq<Event>, e: Event) {
    && e.venue.Bybit? && e.body.BookBytes? && e.body.frame.Book?
    && !Failed(Episode(events, Bybit)) && Gapped(FramesOf(Episode(events, Bybit)) + [e.body.frame])
  }

  /** A gap record for the last event is still owed. */
  ghost predicate Owed(events: seq<Event>) {
    events != [] && GapBegins(events[..|events| - 1], events[|events| - 1])
  }

  predicate IsGapRecordFor(e: Event, gap: Event) {
    e.venue.Bybit? && e.body.SequenceGap? && e.observed == gap.observed && e.conn == gap.conn
  }

  /**
   * What may follow the events of a replayable log: the gap record, and nothing else, if one is owed; otherwise
   * anything but a gap record, on the venue's current connection where it needs one, with a session's reason for a
   * failure, and with a readable frame on a Bybit subscription without failure.
   */
  ghost predicate MayFollow(events: seq<Event>, e: Event) {
    if Owed(events) then IsGapRecordFor(e, events[|events| - 1])
    else
      && !e.body.SequenceGap?
      && (e.body.Heartbeat? || e.body.BookBytes? || e.body.RawQuarantine? || e.body.SubscriptionAck? ==>
            CurrentConnection(events, e.venue) == Some(e.conn))
      && (e.body.LivenessFailure? ==>
            e.body.reason.Some? && e.body.reason.value != FailureReason.VenueDown
            && e.body.reason.value != BybitSequenceGap)
      && (e.venue.Bybit? && e.body.BookBytes? && !Failed(Episode(events, Bybit)) ==>
            !Unreadable(FramesOf(Episode(events, Bybit)), e.body.frame))
  }

  /** The replay owes a gap record exactly when the log does; otherwise an unblocked barrier has no gap. */
  ghost predicate PendingReflects(s: State, events: seq<Event>) {
    && (s.pending.Some? <==> Owed(events))
    && (s.pending.Some? ==> s.pending.value == (events[|events| - 1].observed, events[|events| - 1].conn))
    && (s.pending.None? && !s.bybit.blocked && s.bybit.conn.Some? ==> !s.barrier.gap)
  }

  /** On an unblocked Bybit connection without a gap, a frame is accepted exactly when it can be read. */
  lemma FrameAccepted(s: State, events: seq<Event>, f: Frame)
    requires VenueReflects(s, events, Bybit) && !s.bybit.blocked && s.bybit.conn.Some? && !s.barrier.gap
    ensures var frames := FramesOf(Episode(events, Bybit));
            && (Observed(s.barrier, f).Failure? <==> Unreadable(frames, f))
            && (Observed(s.barrier, f).Success? ==>
                 (Observed(s.barrier, f).value.1 <==> f.Book? && Gapped(frames + [f])))
            && (Observed(s.barrier, f).Success? ==>
                 Observed(s.barrier, f).value.0.gap == Observed(s.barrier, f).value.1)
  {
    var conn, frames := s.bybit.conn.value, FramesOf(Episode(events, Bybit));
    RefusedIff(conn, frames, f);
    if Observed(s.barrier, f).Success? {
      AfterAppend(conn, frames, f);
      GapMeansGapped(conn, frames + [f]);
    }
  }

  lemma FailureAccepted(s: State, events: seq<Event>, e: Event)
    requires VenueReflects(s, events, e.venue) && PendingReflects(s, events) && IsFailure(e.body)
    ensures Step(s, e).Success? <==> MayFollow(events, e)
    ensures Step(s, e).Success? ==> Step(s, e).value.pending.None?
  {
  }

  lemma PlainAccepted(s: State, events: seq<Event>, e: Event)
    requires VenueReflects(s, events, e.venue) && PendingReflects(s, events) && !IsFailure(e.body)
    requires !(e.venue.Bybit? && e.body.BookBytes? && !s.bybit.blocked)
    ensures Step(s, e).Success? <==> MayFollow(events, e)
    ensures Step(s, e).Success? ==> Step(s, e).value.pending.None?
  {
  }

  lemma StepAcceptedOther(s: State, events: seq<Event>, e: Event)
    requires VenueReflects(s, events, e.venue) && PendingReflects(s, events)
    requires !(e.venue.Bybit? && e.body.BookBytes? && !s.bybit.blocked)
    ensures Step(s, e).Success? <==> MayFollow(events, e)
    ensures Step(s, e).Success? ==> Step(s, e).value.pending.None?
  {
    if IsFailure(e.body) {
      FailureAccepted(s, events, e);
    } else {
      PlainAccepted(s, events, e);
    }
  }

  lemma StepKeepsContinuity(s: State, events: seq<Event>, e: Event)
    requires VenueReflects(s, events, e.venue) && PendingReflects(s, events) && Step(s, e).Success?
    requires !(e.venue.Bybit? && e.body.BookBytes? && !s.bybit.blocked)
    ensures var t := Step(s, e).value; !t.bybit.blocked && t.bybit.conn.Some? ==> !t.barrier.gap
  {
  }

  lemma StepAcceptedFrame(s: State, events: seq<Event>, e: Event)
    requires VenueReflects(s, events, Bybit) && PendingReflects(s, events)
    requires e.venue.Bybit? && e.body.BookBytes? && !s.bybit.blocked
    ensures Step(s, e).Success? <==> MayFollow(events, e)
    ensures Step(s, e).Success? ==>
              && (Step(s, e).value.pending.Some? <==> GapBegins(events, e))
              && (Step(s, e).value.pending.Some? ==> Step(s, e).value.pending.value == (e.observed, e.conn))
              && (Step(s, e).value.barrier.gap <==> GapBegins(events, e))
  {
    if s.pending.None? && s.bybit.conn.Some? {
      FrameAccepted(s, events, e.body.frame);
    }
  }

  lemma StepPending(s: State, events: seq<Event>, e: Event)
    requires VenueReflects(s, events, Bybit) && VenueReflects(s, events, e.venue) && PendingReflects(s, events)
    ensures Step(s, e).Success? <==> MayFollow(events, e)
    ensures Step(s, e).Success? ==> PendingReflects(Step(s, e).value, events + [e])
  {
    Unrolled(events, e);
    if e.venue.Bybit? && e.body.BookBytes? && !s.bybit.blocked {
      StepAcceptedFrame(s, events, e);
    } else {
      StepAcceptedOther(s, events, e);
      if Step(s, e).Success? {
        StepKeepsContinuity(s, events, e);
        assert !GapBegins(events, e);
      }
    }
  }

  lemma {:induction false} PendingIsOwed(events: seq<Event>)
    requires Replayed(START, events).Success?
    ensures PendingReflects(Replayed(START, events).value, events)
  {
    if events != [] {
      var front, last := events[..|events| - 1], events[|events| - 1];
      assert events == front + [last];
      PendingIsOwed(front);
      ReplayReflects(front, Bybit);
      ReplayReflects(front, last.venue);
      StepPending(Replayed(START, front).value, front, last);
    }
  }

  /** Every event of the log may follow those before it, and no gap record is owed at the end. */
  ghost predicate WellFormed(events: seq<Event>) {
    FollowsAll(events) && !Owed(events)
  }

  ghost predicate FollowsAll(events: seq<Event>) {
    events == [] || (FollowsAll(events[..|events| - 1]) && MayFollow(events[..|events| - 1], events[|events| - 1]))
  }

  lemma {:induction false} ReplayedIffFollows(events: seq<Event>)
    ensures Replayed(START, events).Success? <==> FollowsAll(events)
  {
    if events != [] {
      var front, last := events[..|events| - 1], events[|events| - 1];
      ReplayedIffFollows(front);
      if Replayed(START, front).Success? {
        PendingIsOwed(front);
        ReplayReflects(front, Bybit);
        ReplayReflects(front, last.venue);
        StepPending(Replayed(START, front).value, front, last);
      }
    }
  }

  /** A log can be replayed if and only if it is well formed, a property of its events alone. */
  lemma ReplayableIff(events: seq<Event>)
    ensures PointsOf(events).Success? <==> WellFormed(events)
  {
    ReplayedIffFollows(events);
    if Replayed(START, events).Success? {
      PendingIsOwed(events);
    }
  }
}
