/** Turns the collector's log into coverage points: when each venue was verified and when it failed. */
module CoveragePoints {
  import opened Common
  import opened Pairing
  import opened Barrier

  /**
   * BookBytes stands for a raw or pre-acknowledgement frame; OtherOps for the log events that carry no coverage
   * meaning.
   */
  datatype Body =
    | SubscriptionSend
    | SubscriptionAck(ready: bool)
    | Heartbeat(pong: bool)
    | BookBytes(frame: Frame)
    | RawQuarantine
    | LivenessFailure(reason: Option<FailureReason>)
    | VenueDown
    | SequenceGap
    | OtherOps

  datatype Event = Event(venue: Venue, conn: string, observed: int, body: Body)

  datatype VenueState = VenueState(conn: Option<string>, ack: bool, pong: bool, active: bool, blocked: bool)

  type PendingGap = Option<(int, string)>

  datatype State = State(hl: VenueState, bybit: VenueState, barrier: BarrierState, pending: PendingGap,
      points: seq<CoveragePoint>)

  const UNCONNECTED := VenueState(None, false, false, false, false)
  const START := State(UNCONNECTED, UNCONNECTED, INITIAL, None, [])

  function Get(s: State, venue: Venue): VenueState {
    if venue.Bybit? then s.bybit else s.hl
  }

  function Put(s: State, venue: Venue, v: VenueState): State {
    if venue.Bybit? then s.(bybit := v) else s.(hl := v)
  }

  predicate NeedsConnection(body: Body) {
    body.Heartbeat? || body.BookBytes? || body.RawQuarantine? || body.SubscriptionAck?
  }

  predicate SessionReason(reason: Option<FailureReason>) {
    reason.Some? && !reason.value.VenueDown? && !reason.value.BybitSequenceGap?
  }

  function ReasonOf(body: Body): Option<FailureReason> {
    match body
    case LivenessFailure(reason) => reason
    case VenueDown => Some(FailureReason.VenueDown)
    case SequenceGap => Some(BybitSequenceGap)
    case _ => None
  }

  /** The failure point of an event, if it is a failure, and the gap that is still owed afterwards. */
  function FailurePoint(e: Event, pending: PendingGap): Result<(Option<CoveragePoint>, PendingGap)> {
    var matching := e.body.SequenceGap? && pending == Some((e.observed, e.conn));
    if pending.Some? && !matching then Failure("missing Bybit sequence gap event")
    else if e.body.LivenessFailure? && !SessionReason(e.body.reason) then Failure("invalid liveness failure reason")
    else if e.body.SequenceGap? && !(matching && e.venue.Bybit?) then Failure("orphan Bybit sequence gap")
    else
      var left := if e.body.SequenceGap? then None else pending;
      var reason := ReasonOf(e.body);
      if reason.None? && !e.body.RawQuarantine? then Success((None, left))
      else
        var kind := if reason.Some? then ExplainedFailure else UnexplainedFailure;
        Success((Some(CoveragePoint(e.venue, e.observed, kind, reason)), left))
  }

  /** A subscription on a connection that is not the venue's current one starts it afresh. */
  function Connected(s: State, e: Event): State {
    if e.body.SubscriptionSend? && Get(s, e.venue).conn != Some(e.conn) then
      var t := Put(s, e.venue, VenueState(Some(e.conn), false, false, false, false));
      if e.venue.Bybit? then t.(barrier := Started(t.barrier, e.conn)) else t
    else s
  }

  function BookObserved(s: State, e: Event, frame: Frame): Result<State> {
    match Observed(s.barrier, frame)
    case Failure(error) => Failure(error)
    case Success(after) =>
      var owed := if after.1 && !s.barrier.gap then Some((e.observed, e.conn)) else s.pending;
      Success(s.(barrier := after.0, pending := owed))
  }

  /** What an event that is no failure contributes to its venue. */
  function Contributed(s: State, e: Event): Result<State> {
    var v := Get(s, e.venue);
    match e.body
    case SubscriptionAck(ready) => Success(Put(s, e.venue, v.(ack := v.ack || ready)))
    case Heartbeat(pong) => Success(Put(s, e.venue, v.(pong := v.pong || pong)))
    case BookBytes(frame) =>
      if e.venue.Hyperliquid? then Success(s)
      else BookObserved(s, e, frame)
    case _ => Success(s)
  }

  predicate VenueReady(v: VenueState, venue: Venue, barrier: BarrierState) {
    v.conn.Some? && v.conn.value != "" && v.ack && v.pong && (venue.Bybit? ==> Ready(barrier))
  }

  /** A venue that becomes ready, and every pong while it is, adds a verified point. */
  function WithVerified(points: seq<CoveragePoint>, v: VenueState, e: Event, ready: bool): seq<CoveragePoint> {
    if ready && (!v.active || e.body == Heartbeat(true)) then
      points + [CoveragePoint(e.venue, e.observed, HardVerified, None)]
    else points
  }

  function Verified(s: State, e: Event): State {
    var v := Get(s, e.venue);
    var ready := VenueReady(v, e.venue, s.barrier);
    Put(s, e.venue, v.(active := ready)).(points := WithVerified(s.points, v, e, ready))
  }

  function Step(s: State, e: Event): Result<State> {
    var c := Connected(s, e);
    if NeedsConnection(e.body) && Get(c, e.venue).conn != Some(e.conn) then Failure("collector connection mismatch")
    else
      match FailurePoint(e, c.pending)
      case Failure(error) => Failure(error)
      case Success((failure, left)) =>
        var t := c.(pending := left);
        var v := Get(t, e.venue);
        if failure.Some? then
          Success(Put(t, e.venue, v.(active := false, blocked := true)).(points := t.points + [failure.value]))
        else if v.blocked then Success(t)
        else
          match Contributed(t, e)
          case Failure(error) => Failure(error)
          case Success(u) => Success(Verified(u, e))
  }

  function Replayed(s: State, events: seq<Event>): Result<State> {
    if events == [] then Success(s)
    else
      match Replayed(s, events[..|events| - 1])
      case Failure(error) => Failure(error)
      case Success(t) => Step(t, events[|events| - 1])
  }

  function PointsOf(events: seq<Event>): Result<seq<CoveragePoint>> {
    match Replayed(START, events)
    case Failure(error) => Failure(error)
    case Success(s) => if s.pending.Some? then Failure("missing Bybit sequence gap event") else Success(s.points)
  }

  // ---------- the loop ----------

  lemma ReplayedStep(events: seq<Event>, k: nat)
    requires k < |events|
    ensures Replayed(START, events[..k + 1])
         == match Replayed(START, events[..k])
            case Failure(error) => Failure(error)
            case Success(t) => Step(t, events[k])
  {
    assert events[..k + 1][..k] == events[..k];
  }

  lemma {:induction false} FailureStays(events: seq<Event>, k: nat)
    requires k <= |events| && Replayed(START, events[..k]).Failure?
    ensures Replayed(START, events) == Replayed(START, events[..k])
    decreases |events| - k
  {
    if k == |events| {
      assert events[..k] == events;
    } else {
      ReplayedStep(events, k);
      FailureStays(events, k + 1);
    }
  }

  /** What an event that is no failure does to its venue, the barrier and the owed gap. */
  method Contribute(ghost s: State, e: Event, venue: VenueState, barrier: BybitBarrier, pending: PendingGap)
    returns (r: Result<(VenueState, PendingGap)>)
    requires Get(s, e.venue) == venue && s.barrier == barrier.State() && s.pending == pending
    modifies barrier
    ensures match Contributed(s, e)
            case Failure(error) => r == Failure(error)
            case Success(u) =>
              && r == Success((Get(u, e.venue), u.pending)) && barrier.State() == u.barrier
              && u == Put(s, e.venue, r.value.0).(pending := r.value.1, barrier := barrier.State())
  {
    if e.body.SubscriptionAck? {
      return Success((venue.(ack := venue.ack || e.body.ready), pending));
    }
    if e.body.Heartbeat? {
      return Success((venue.(pong := venue.pong || e.body.pong), pending));
    }
    if e.venue.Bybit? && e.body.BookBytes? {
      var wasGap := barrier.gap;
      var gap := barrier.Observe(e.body.frame);
      if gap.Failure? {
        return Failure(gap.error);
      }
      return Success((venue, if gap.value && !wasGap then Some((e.observed, e.conn)) else pending));
    }
    return Success((venue, pending));
  }

  /** The states of both venues, the barrier and the points, kept in step by one pass over the log. */
  method CoveragePoints(events: seq<Event>) returns (r: Result<seq<CoveragePoint>>)
    ensures r == PointsOf(events)
  {
    var states: map<Venue, VenueState> := map[Hyperliquid := UNCONNECTED, Bybit := UNCONNECTED];
    var barrier := new BybitBarrier();
    var points: seq<CoveragePoint> := [];
    var pendingGap: PendingGap := None;
    for k := 0 to |events|
      invariant states.Keys == {Hyperliquid, Bybit} && fresh(barrier)
      invariant Replayed(START, events[..k])
             == Success(State(states[Hyperliquid], states[Bybit], barrier.State(), pendingGap, points))
    {
      var e := events[k];
      ReplayedStep(events, k);
      ghost var next := Replayed(START, events[..k + 1]);
      assert e.venue == Hyperliquid || e.venue == Bybit;
      var v := states[e.venue];
      if e.body.SubscriptionSend? && v.conn != Some(e.conn) {
        v := VenueState(Some(e.conn), false, false, false, false);
        if e.venue.Bybit? {
          barrier.Start(e.conn);
        }
      }
      if NeedsConnection(e.body) && v.conn != Some(e.conn) {
        FailureStays(events, k + 1);
        return Failure("collector connection mismatch");
      }
      var failure := FailurePoint(e, pendingGap);
      if failure.Failure? {
        FailureStays(events, k + 1);
        return Failure(failure.error);
      }
      pendingGap := failure.value.1;
      if failure.value.0.Some? {
        points := points + [failure.value.0.value];
        states := states[e.venue := v.(active := false, blocked := true)];
        continue;
      }
      if v.blocked {
        states := states[e.venue := v];
        continue;
      }
      ghost var s := State(if e.venue.Bybit? then states[Hyperliquid] else v,
                           if e.venue.Bybit? then v else states[Bybit],
                           barrier.State(), pendingGap, points);
      var contributed := Contribute(s, e, v, barrier, pendingGap);
      if contributed.Failure? {
        FailureStays(events, k + 1);
        return Failure(contributed.error);
      }
      v, pendingGap := contributed.value.0, contributed.value.1;
      var ready := VenueReady(v, e.venue, barrier.State());
      points := WithVerified(points, v, e, ready);
      states := states[e.venue := v.(active := ready)];
    }
    assert events[..|events|] == events;
    if pendingGap.Some? {
      return Failure("missing Bybit sequence gap event");
    }
    return Success(points);
  }

  // ---------- points are a valid stream ----------

  ghost predicate Timed(events: seq<Event>) {
    && (forall i :: 0 <= i < |events| ==> events[i].observed >= 0)
    && (forall i :: 0 < i < |events| ==> events[i - 1].observed <= events[i].observed)
  }

  /** Points so far are valid, in order, and none lies after the given time. */
  ghost predicate PointsUpTo(points: seq<CoveragePoint>, last: int) {
    ValidStream(points) && (points != [] ==> points[|points| - 1].observed <= last)
  }

  lemma ExtendPoints(points: seq<CoveragePoint>, last: int, p: CoveragePoint)
    requires PointsUpTo(points, last) && ValidPoint(p) && last <= p.observed
    ensures PointsUpTo(points + [p], p.observed)
  {
  }

  lemma StepPoints(s: State, e: Event)
    requires Step(s, e).Success? && e.observed >= 0
    ensures var points := Step(s, e).value.points;
            points == s.points || (|points| == |s.points| + 1 && points == s.points + [points[|s.points|]]
                                   && ValidPoint(points[|s.points|]) && points[|s.points|].observed == e.observed)
  {
  }

  lemma {:induction false} ReplayedPoints(events: seq<Event>)
    requires Timed(events) && Replayed(START, events).Success?
    ensures PointsUpTo(Replayed(START, events).value.points, LastTime(events))
  {
    if events != [] {
      var n := |events| - 1;
      var front := events[..n];
      TimedFront(events);
      ReplayedPoints(front);
      var s := Replayed(START, front).value;
      StepPoints(s, events[n]);
      var points := Step(s, events[n]).value.points;
      if points != s.points {
        ExtendPoints(s.points, LastTime(front), points[|s.points|]);
      }
    }
  }

  function LastTime(events: seq<Event>): int {
    if events == [] then 0 else events[|events| - 1].observed
  }

  lemma TimedFront(events: seq<Event>)
    requires Timed(events) && events != []
    ensures var front := events[..|events| - 1]; Timed(front) && 0 <= LastTime(front) <= LastTime(events)
  {
  }

  /** The points of a log whose times never move backwards are a stream that the pairing accepts. */
  lemma PointsAreValid(events: seq<Event>)
    requires Timed(events) && PointsOf(events).Success?
    ensures ValidStream(PointsOf(events).value)
  {
    ReplayedPoints(events);
  }

  // ---------- verified points are earned ----------

  /** The connection of the venue's last subscription. */
  function CurrentConnection(events: seq<Event>, venue: Venue): Option<string> {
    if events == [] then None
    else
      var last := events[|events| - 1];
      if last.venue == venue && last.body.SubscriptionSend? then Some(last.conn)
      else CurrentConnection(events[..|events| - 1], venue)
  }

  /** The venue's events since its current connection was first subscribed. */
  function Episode(events: seq<Event>, venue: Venue): seq<Event> {
    if events == [] then []
    else
      var front, last := events[..|events| - 1], events[|events| - 1];
      if last.venue != venue then Episode(front, venue)
      else if last.body.SubscriptionSend? && CurrentConnection(front, venue) != Some(last.conn) then [last]
      else Episode(front, venue) + [last]
  }

  predicate IsFailure(body: Body) {
    body.RawQuarantine? || body.LivenessFailure? || body.VenueDown? || body.SequenceGap?
  }

  predicate Saw(episode: seq<Event>, body: Body) {
    exists i :: 0 <= i < |episode| && episode[i].body == body
  }

  predicate Failed(episode: seq<Event>) {
    exists i :: 0 <= i < |episode| && IsFailure(episode[i].body)
  }

  function FramesOf(episode: seq<Event>): seq<Frame> {
    if episode == [] then []
    else
      var front, last := FramesOf(episode[..|episode| - 1]), episode[|episode| - 1];
      if last.body.BookBytes? then front + [last.body.frame] else front
  }

  /** The venue's state says what its episode shows. */
  ghost predicate Reflects(v: VenueState, episode: seq<Event>) {
    && (v.blocked <==> Failed(episode))
    && (!v.blocked ==> (v.ack <==> Saw(episode, SubscriptionAck(true))) && (v.pong <==> Saw(episode, Heartbeat(true))))
  }

  ghost predicate BarrierReflects(s: State, episode: seq<Event>) {
    !s.bybit.blocked && s.bybit.conn.Some? ==>
      ReadableFrames(s.bybit.conn.value, FramesOf(episode)) && s.barrier == After(s.bybit.conn.value, FramesOf(episode))
  }

  ghost predicate VenueReflects(s: State, events: seq<Event>, venue: Venue) {
    && Get(s, venue).conn == CurrentConnection(events, venue)
    && Reflects(Get(s, venue), Episode(events, venue))
    && (venue.Bybit? ==> BarrierReflects(s, Episode(events, venue)) && s.bybit.conn == s.barrier.conn)
  }

  lemma SawAppend(episode: seq<Event>, e: Event, body: Body)
    ensures Saw(episode + [e], body) <==> Saw(episode, body) || e.body == body
    ensures Failed(episode + [e]) <==> Failed(episode) || IsFailure(e.body)
  {
    var more := episode + [e];
    assert more[|episode|] == e && forall i :: 0 <= i < |episode| ==> more[i] == episode[i];
    if Saw(episode, body) {
      var i :| 0 <= i < |episode| && episode[i].body == body;
      assert more[i].body == body;
    }
    if Failed(episode) {
      var i :| 0 <= i < |episode| && IsFailure(episode[i].body);
      assert IsFailure(more[i].body);
    }
  }

  lemma FramesAppend(episode: seq<Event>, e: Event)
    ensures FramesOf(episode + [e])
         == if e.body.BookBytes? then FramesOf(episode) + [e.body.frame] else FramesOf(episode)
  {
    assert (episode + [e])[..|episode|] == episode;
  }

  lemma AfterAppend(conn: string, frames: seq<Frame>, f: Frame)
    requires ReadableFrames(conn, frames)
    ensures Observed(After(conn, frames), f).Success? ==>
              && ReadableFrames(conn, frames + [f])
              && After(conn, frames + [f]) == Observed(After(conn, frames), f).value.0
  {
    assert (frames + [f])[..|frames|] == frames;
  }

  /** The episode that the event joins: empty if the event starts a connection. */
  function Base(s: State, events: seq<Event>, e: Event): seq<Event> {
    if e.body.SubscriptionSend? && Get(s, e.venue).conn != Some(e.conn) then [] else Episode(events, e.venue)
  }

  /** The state of the event's venue reflects the episode so far. */
  ghost predicate StateReflects(s: State, episode: seq<Event>, venue: Venue) {
    && Reflects(Get(s, venue), episode)
    && (venue.Bybit? ==> BarrierReflects(s, episode) && s.bybit.conn == s.barrier.conn)
  }

  lemma ConnectedReflects(s: State, events: seq<Event>, e: Event)
    requires VenueReflects(s, events, e.venue)
    ensures var c, more := Connected(s, e), events + [e];
            && Get(c, e.venue).conn == CurrentConnection(more, e.venue)
            && Episode(more, e.venue) == Base(s, events, e) + [e]
            && StateReflects(c, Base(s, events, e), e.venue)
  {
    assert (events + [e])[..|events|] == events;
  }

  lemma ContributedReflects(c: State, episode: seq<Event>, e: Event)
    requires StateReflects(c, episode, e.venue) && !Get(c, e.venue).blocked && !IsFailure(e.body)
    requires Contributed(c, e).Success?
    ensures StateReflects(Contributed(c, e).value, episode + [e], e.venue)
    ensures Get(Contributed(c, e).value, e.venue).conn == Get(c, e.venue).conn
  {
    SawAppend(episode, e, SubscriptionAck(true));
    SawAppend(episode, e, Heartbeat(true));
    FramesAppend(episode, e);
    if e.body.BookBytes? && e.venue.Bybit? && c.bybit.conn.Some? {
      AfterAppend(c.bybit.conn.value, FramesOf(episode), e.body.frame);
    }
  }

  lemma FailedReflects(c: State, episode: seq<Event>, e: Event)
    requires StateReflects(c, episode, e.venue) && (IsFailure(e.body) || Get(c, e.venue).blocked)
    ensures StateReflects(Put(c, e.venue, Get(c, e.venue).(active := false, blocked := true)), episode + [e], e.venue)
    ensures Get(c, e.venue).blocked ==> StateReflects(c, episode + [e], e.venue)
  {
    SawAppend(episode, e, Heartbeat(true));
  }

  lemma OwnVenueReflects(s: State, events: seq<Event>, e: Event)
    requires VenueReflects(s, events, e.venue) && Step(s, e).Success?
    ensures VenueReflects(Step(s, e).value, events + [e], e.venue)
  {
    ConnectedReflects(s, events, e);
    var c, base := Connected(s, e), Base(s, events, e);
    var (failure, left) := FailurePoint(e, c.pending).value;
    var t := c.(pending := left);
    assert StateReflects(t, base, e.venue);
    assert failure.Some? <==> IsFailure(e.body);
    if failure.Some? || Get(t, e.venue).blocked {
      FailedReflects(t, base, e);
    } else {
      ContributedReflects(t, base, e);
    }
  }

  lemma OtherVenueUntouched(s: State, e: Event, venue: Venue)
    requires venue != e.venue && Step(s, e).Success?
    ensures Get(Step(s, e).value, venue) == Get(s, venue) && (venue.Bybit? ==> Step(s, e).value.barrier == s.barrier)
  {
  }

  lemma OtherVenueEpisode(events: seq<Event>, e: Event, venue: Venue)
    requires venue != e.venue
    ensures Episode(events + [e], venue) == Episode(events, venue)
    ensures CurrentConnection(events + [e], venue) == CurrentConnection(events, venue)
  {
    assert (events + [e])[..|events|] == events;
  }

  lemma OtherVenueReflects(s: State, events: seq<Event>, e: Event, venue: Venue)
    requires VenueReflects(s, events, venue) && venue != e.venue && Step(s, e).Success?
    ensures VenueReflects(Step(s, e).value, events + [e], venue)
  {
    OtherVenueUntouched(s, e, venue);
    OtherVenueEpisode(events, e, venue);
  }

  lemma {:induction false} ReplayReflects(events: seq<Event>, venue: Venue)
    requires Replayed(START, events).Success?
    ensures VenueReflects(Replayed(START, events).value, events, venue)
  {
    if events != [] {
      var n := |events| - 1;
      var front, last := events[..n], events[n];
      var s := Replayed(START, front).value;
      ReplayReflects(front, venue);
      assert events == front + [last];
      if last.venue == venue {
        OwnVenueReflects(s, front, last);
      } else {
        OtherVenueReflects(s, front, last, venue);
      }
    }
  }

  /** What the venue must have shown on its current connection to count as verified. */
  ghost predicate Earned(events: seq<Event>, venue: Venue) {
    var episode := Episode(events, venue);
    && CurrentConnection(events, venue).Some? && CurrentConnection(events, venue).value != ""
    && !Failed(episode) && Saw(episode, SubscriptionAck(true)) && Saw(episode, Heartbeat(true))
    && (venue.Bybit? ==> forall t: Topic :: Unbroken(FramesOf(episode), t))
  }

  predicate VerifiesAt(points: seq<CoveragePoint>, more: seq<CoveragePoint>, e: Event) {
    more == points + [CoveragePoint(e.venue, e.observed, HardVerified, None)]
  }

  lemma ReadyIsEarned(s: State, events: seq<Event>, venue: Venue)
    requires VenueReflects(s, events, venue)
    ensures !Get(s, venue).blocked && VenueReady(Get(s, venue), venue, s.barrier) <==> Earned(events, venue)
  {
    if venue.Bybit? && !s.bybit.blocked && s.bybit.conn.Some? {
      ReadyIffContinuous(s.bybit.conn.value, FramesOf(Episode(events, venue)));
    }
  }

  /**
   * A verified point is added only on a connection that has earned it: acknowledged, ponged, without failure, and on
   * Bybit with every required book continuous. And on a connection that has earned it every pong adds one.
   */
  lemma VerifiedIsEarned(events: seq<Event>, e: Event)
    requires Replayed(START, events + [e]).Success?
    ensures Replayed(START, events).Success?
    ensures var before, after := Replayed(START, events).value.points, Replayed(START, events + [e]).value.points;
            && (VerifiesAt(before, after, e) ==> Earned(events + [e], e.venue))
            && (Earned(events + [e], e.venue) && e.body == Heartbeat(true) ==> VerifiesAt(before, after, e))
  {
    assert (events + [e])[..|events|] == events;
    var s := Replayed(START, events).value;
    ReplayReflects(events + [e], e.venue);
    var t := Step(s, e).value;
    ReadyIsEarned(t, events + [e], e.venue);
    VerifiedByStep(s, e);
  }

  lemma VerifiedByStep(s: State, e: Event)
    requires Step(s, e).Success?
    ensures var t := Step(s, e).value;
            var ready := !Get(t, e.venue).blocked && VenueReady(Get(t, e.venue), e.venue, t.barrier);
            && (VerifiesAt(s.points, t.points, e) ==> ready)
            && (ready && e.body == Heartbeat(true) ==> VerifiesAt(s.points, t.points, e))
  {
    var t := Step(s, e).value;
    if VerifiesAt(s.points, t.points, e) {
      assert |t.points| == |s.points| + 1 && t.points[|s.points|].kind.HardVerified?;
    }
  }
}
