/** The live sink: it logs every record and adds the gap record that a replay of the log will demand. */
module Collector {
  import opened Common
  import opened Pairing
  import opened Barrier
  import opened CoveragePoints
  import Shard

  /** down: the venues whose failed sessions have not been followed by a ready acknowledgement. */
  datatype SinkState = SinkState(barrier: BarrierState, log: seq<Event>, down: set<Venue>)

  const NEW_SINK := SinkState(INITIAL, [], {})

  /** A record, and what the clock reads if the sink adds a recovery record to it. */
  datatype Input = Input(e: Event, recoveredNs: int)

  function GapRecord(e: Event): Event {
    Event(Bybit, e.conn, e.observed, SequenceGap)
  }

  function RecoveryRecord(venue: Venue, observed: int): Event {
    Event(venue, "collector", observed, OtherOps)
  }

  /** The shard writer takes a record unless its time has no hour or an earlier hour than the last one. */
  function Appended(log: seq<Event>, e: Event): Result<seq<Event>> {
    match Shard.HourOf(e.observed)
    case Failure(error) => Failure(error)
    case Success(hour) =>
      if log != [] && Shard.HourOf(log[|log| - 1].observed).Success?
         && hour < Shard.HourOf(log[|log| - 1].observed).value then
        Failure("UTC hour moved backwards")
      else Success(log + [e])
  }

  predicate Recovers(s: SinkState, e: Event) {
    e.body == SubscriptionAck(true) && e.venue in s.down
  }

  /** What the sink remembers of downtimes after a record that reached it. */
  function DownAfter(s: SinkState, e: Event): set<Venue> {
    if e.body.VenueDown? then s.down + {e.venue} else if Recovers(s, e) then s.down - {e.venue} else s.down
  }

  /** Following the Bybit sequence of a session record: the barrier after it, and whether a gap record is due. */
  function Followed(b: BarrierState, e: Event): Result<(BarrierState, bool)> {
    if e.venue.Hyperliquid? || e.body.VenueDown? then Success((b, false))
    else if e.body.BookBytes? then Observed(Started(b, e.conn), e.body.frame)
    else Success((Started(b, e.conn), false))
  }

  type Outcome = (SinkState, Option<string>)

  /** The rest of a record, once it is in the log: a frame that cannot be read leaves it there and ends the session. */
  function Tracked(s: SinkState, e: Event): Outcome {
    match Followed(s.barrier, e)
    case Failure(error) => (s.(barrier := Started(s.barrier, e.conn)), Some(error))
    case Success((b, gap)) => (s.(barrier := b, log := if gap then s.log + [GapRecord(e)] else s.log), None)
  }

  /**
   * One record, from its logging to the gap record that it may call for: the sink after it, and the error it raised.
   */
  function Recorded(s: SinkState, i: Input): Outcome {
    match Appended(s.log, i.e)
    case Failure(error) => (s.(down := if i.e.body.VenueDown? then s.down + {i.e.venue} else s.down), Some(error))
    case Success(log) =>
      var t := s.(log := log, down := DownAfter(s, i.e));
      if !Recovers(s, i.e) then Tracked(t, i.e)
      else
        match Appended(log, RecoveryRecord(i.e.venue, i.recoveredNs))
        case Failure(error) => (t, Some(error))
        case Success(more) => Tracked(t.(log := more), i.e)
  }

  class Sink {
    const barrier: BybitBarrier
    var log: seq<Event>
    var down: set<Venue>

    function State(): SinkState
      reads this, barrier
    {
      SinkState(barrier.State(), log, down)
    }

    constructor ()
      ensures State() == NEW_SINK && fresh(barrier)
    {
      barrier := new BybitBarrier();
      log, down := [], {};
    }

    method Append(e: Event) returns (error: Option<string>)
      modifies this`log
      ensures match Appended(old(log), e)
              case Failure(message) => error == Some(message) && log == old(log)
              case Success(more) => error == None && log == more
    {
      var hour := Shard.HourOf(e.observed);
      if hour.Failure? {
        return Some(hour.error);
      }
      if log != [] {
        var last := Shard.HourOf(log[|log| - 1].observed);
        if last.Success? && hour.value < last.value {
          return Some("UTC hour moved backwards");
        }
      }
      log := log + [e];
      return None;
    }

    /** Logs a session record; a frame that cannot be read stops the session after it was logged. */
    method Record(i: Input) returns (error: Option<string>)
      requires !i.e.body.VenueDown?
      modifies this, barrier
      ensures (State(), error) == Recorded(old(State()), i)
      ensures log == old(log) ==> error.Some? && State() == old(State())
    {
      var e := i.e;
      error := Append(e);
      if error.Some? {
        return;
      }
      if e.body == SubscriptionAck(true) && e.venue in down {
        down := down - {e.venue};
        error := Append(RecoveryRecord(e.venue, i.recoveredNs));
        if error.Some? {
          return;
        }
      }
      if e.venue.Bybit? {
        barrier.Start(e.conn);
        if e.body.BookBytes? {
          var gap := barrier.Observe(e.body.frame);
          if gap.Failure? {
            return Some(gap.error);
          }
          if gap.value {
            log := log + [GapRecord(e)];
          }
        }
      }
    }

    /** Logs that a venue's session ended without being asked to. */
    method MarkDown(venue: Venue, observed: int) returns (error: Option<string>)
      modifies this
      ensures (State(), error)
           == Recorded(old(State()), Input(Event(venue, "collector", observed, Body.VenueDown), observed))
      ensures down == old(down) + {venue} && barrier.State() == old(barrier.State())
    {
      down := down + {venue};
      error := Append(Event(venue, "collector", observed, Body.VenueDown));
    }
  }

  // ---------- runs, told by their inputs ----------

  /** ended: the venues whose session an error has ended. Nothing more arrives from them. */
  datatype Running = Running(sink: SinkState, ended: set<Venue>)

  function Heeded(r: Running, i: Input): Running {
    if i.e.venue in r.ended then r
    else
      var (sink, error) := Recorded(r.sink, i);
      Running(sink, if error.Some? then r.ended + {i.e.venue} else r.ended)
  }

  /** The sink after a run of inputs, whatever became of each. */
  function Live(inputs: seq<Input>): Running {
    if inputs == [] then Running(NEW_SINK, {}) else Heeded(Live(inputs[..|inputs| - 1]), inputs[|inputs| - 1])
  }

  /** The input reaches the log. */
  predicate Reaches(r: Running, i: Input) {
    i.e.venue !in r.ended && Appended(r.sink.log, i.e).Success?
  }

  /** The records that reached the log, in order; what the sink added to them is not among them. */
  function Heard(inputs: seq<Input>): seq<Event> {
    if inputs == [] then []
    else
      var front, last := inputs[..|inputs| - 1], inputs[|inputs| - 1];
      if Reaches(Live(front), last) then Heard(front) + [last.e] else Heard(front)
  }

  predicate FromSession(body: Body) {
    || body.SubscriptionSend? || body.SubscriptionAck? || body.Heartbeat? || body.BookBytes?
    || body.RawQuarantine? || body.LivenessFailure?
  }

  /**
   * The sessions deliver only what belongs to the venue's last subscription, and name a session's reason for a
   * failure.
   */
  predicate Delivers(events: seq<Event>, e: Event) {
    && (e.body.VenueDown? || FromSession(e.body))
    && (NeedsConnection(e.body) ==> CurrentConnection(events, e.venue) == Some(e.conn))
    && (e.body.LivenessFailure? ==> SessionReason(e.body.reason))
  }

  predicate OrderlyRun(events: seq<Event>) {
    events != [] ==>
      OrderlyRun(events[..|events| - 1]) && Delivers(events[..|events| - 1], events[|events| - 1])
  }

  predicate OfBybitSession(e: Event) {
    e.venue.Bybit? && FromSession(e.body)
  }

  /** The connection of the last Bybit session record. */
  function SinkConnection(events: seq<Event>): Option<string> {
    if events == [] then None
    else if OfBybitSession(events[|events| - 1]) then Some(events[|events| - 1].conn)
    else SinkConnection(events[..|events| - 1])
  }

  /** The Bybit session records since that connection's id last appeared anew. */
  function SinkEpisode(events: seq<Event>): seq<Event> {
    if events == [] then []
    else
      var front, last := events[..|events| - 1], events[|events| - 1];
      if !OfBybitSession(last) then SinkEpisode(front)
      else if SinkConnection(front) != Some(last.conn) then [last]
      else SinkEpisode(front) + [last]
  }

  /** The event is a readable Bybit book frame that leaves some book of its connection without continuity. */
  ghost predicate GapAt(events: seq<Event>, e: Event) {
    && e.venue.Bybit? && e.body.BookBytes? && e.body.frame.Book?
    && var frames := FramesOf(SinkEpisode(events + [e])); ReadableFrames(e.conn, frames) && Gapped(frames)
  }

  predicate StartsAnew(events: seq<Event>, e: Event) {
    e.venue.Bybit? && e.body.SubscriptionSend? && CurrentConnection(events, Bybit) != Some(e.conn)
  }

  /** On the current Bybit subscription there was a failure or a gap. */
  ghost predicate Troubled(events: seq<Event>) {
    events != [] &&
    var front, last := events[..|events| - 1], events[|events| - 1];
    if last.venue.Hyperliquid? then Troubled(front)
    else
      || (!StartsAnew(front, last) && Troubled(front))
      || IsFailure(last.body)
      || GapAt(front, last)
  }

  /** At some frame a book was without continuity although there had been a failure or a gap before. */
  ghost predicate EverGapAfterTrouble(events: seq<Event>) {
    events != [] &&
    var front, last := events[..|events| - 1], events[|events| - 1];
    EverGapAfterTrouble(front) || (Troubled(front) && GapAt(front, last))
  }

  /** The event is a Bybit frame that cannot be decoded, or whose update id cannot be compared where it has to be. */
  predicate UnreadableAt(events: seq<Event>, e: Event) {
    e.venue.Bybit? && e.body.BookBytes? && Unreadable(FramesOf(SinkEpisode(events)), e.body.frame)
  }

  /** Some frame could not be read although there had been no failure and no gap before. */
  ghost predicate EverUnreadable(events: seq<Event>) {
    events != [] &&
    var front, last := events[..|events| - 1], events[|events| - 1];
    EverUnreadable(front) || (!Troubled(front) && UnreadableAt(front, last))
  }

  // ---------- the clock ----------

  predicate RecoveryReaches(r: Running, i: Input) {
    && Recovers(r.sink, i.e)
    && Appended(r.sink.log + [i.e], RecoveryRecord(i.e.venue, i.recoveredNs)).Success?
  }

  /** The last clock reading that reached the log. */
  function LatestNs(inputs: seq<Input>): int {
    if inputs == [] then 0
    else
      var front, last := inputs[..|inputs| - 1], inputs[|inputs| - 1];
      if !Reaches(Live(front), last) then LatestNs(front)
      else if RecoveryReaches(Live(front), last) then last.recoveredNs
      else last.e.observed
  }

  /** The clock readings that reach the log never step back. */
  predicate ClockForward(inputs: seq<Input>) {
    inputs != [] ==>
      var front, last := inputs[..|inputs| - 1], inputs[|inputs| - 1];
      && ClockForward(front)
      && (Reaches(Live(front), last) ==> LatestNs(front) <= last.e.observed <= LatestNs(inputs))
  }

  lemma TimedAppend(events: seq<Event>, e: Event)
    ensures Timed(events + [e]) <==> Timed(events) && 0 <= LastTime(events) <= e.observed
    ensures LastTime(events + [e]) == e.observed
  {
    var more := events + [e];
    assert forall i :: 0 <= i < |events| ==> more[i] == events[i];
    assert more[|events|] == e;
    if Timed(more) {
      assert forall i :: 0 <= i < |events| ==> more[i].observed >= 0;
      assert forall i :: 0 < i < |events| ==> more[i - 1].observed <= more[i].observed;
      assert events != [] ==> more[|events| - 1].observed <= more[|events|].observed;
    }
  }

  predicate CallsForGap(b: BarrierState, e: Event) {
    Followed(b, e).Success? && Followed(b, e).value.1
  }

  /** What one input adds to the log: the record, and a recovery record or a gap record. */
  function Additions(r: Running, i: Input): seq<Event> {
    if !Reaches(r, i) then []
    else if RecoveryReaches(r, i) then [i.e, RecoveryRecord(i.e.venue, i.recoveredNs)]
    else if !Recovers(r.sink, i.e) && CallsForGap(r.sink.barrier, i.e) then [i.e, GapRecord(i.e)]
    else [i.e]
  }

  lemma HeededAdds(r: Running, i: Input)
    ensures Heeded(r, i).sink.log == r.sink.log + Additions(r, i)
  {
  }

  lemma AdditionsTimed(r: Running, i: Input, log: seq<Event>, latest: int)
    requires Reaches(r, i) && log == r.sink.log + Additions(r, i)
    requires latest == if RecoveryReaches(r, i) then i.recoveredNs else i.e.observed
    ensures LastTime(log) == latest
    ensures Timed(log) <==> Timed(r.sink.log) && 0 <= LastTime(r.sink.log) <= i.e.observed <= latest
  {
    var one := r.sink.log + [i.e];
    TimedAppend(r.sink.log, i.e);
    var added := Additions(r, i);
    if |added| == 2 {
      assert log == one + [added[1]];
      TimedAppend(one, added[1]);
    }
  }

  lemma {:induction false} TimedIff(inputs: seq<Input>)
    ensures LastTime(Live(inputs).sink.log) == LatestNs(inputs)
    ensures Timed(Live(inputs).sink.log) <==> ClockForward(inputs)
    ensures ClockForward(inputs) ==> LatestNs(inputs) >= 0
  {
    if inputs != [] {
      var front, last := inputs[..|inputs| - 1], inputs[|inputs| - 1];
      TimedIff(front);
      HeededAdds(Live(front), last);
      if Reaches(Live(front), last) {
        AdditionsTimed(Live(front), last, Live(inputs).sink.log, LatestNs(inputs));
      } else {
        assert Live(inputs).sink.log == Live(front).sink.log;
      }
    }
  }

  // ---------- what the sink's barrier has seen ----------

  /** The barrier is what the frames of the connection make of a fresh one. */
  predicate Shown(b: BarrierState, conn: Option<string>, frames: seq<Frame>) {
    match conn
    case None => b == INITIAL && frames == []
    case Some(id) => ReadableFrames(id, frames) && b == After(id, frames)
  }

  predicate SinkTracks(events: seq<Event>, b: BarrierState) {
    Shown(b, SinkConnection(events), FramesOf(SinkEpisode(events)))
  }

  lemma Unrolled(events: seq<Event>, e: Event)
    ensures (events + [e])[..|events + [e]| - 1] == events && (events + [e])[|events + [e]| - 1] == e
  {
  }

  lemma FrameFollows(conn: string, frames: seq<Frame>, f: Frame)
    requires ReadableFrames(conn, frames) && Observed(After(conn, frames), f).Success?
    ensures var after := Observed(After(conn, frames), f).value;
            && ReadableFrames(conn, frames + [f]) && After(conn, frames + [f]) == after.0
            && (after.1 <==> f.Book? && Gapped(frames + [f]))
  {
    AfterAppend(conn, frames, f);
    GapMeansGapped(conn, frames + [f]);
  }

  /** The frames that the barrier has been shown on a connection after a record of it. */
  function FramesAfter(conn: Option<string>, frames: seq<Frame>, e: Event): seq<Frame> {
    (if conn != Some(e.conn) then [] else frames) + if e.body.BookBytes? then [e.body.frame] else []
  }

  lemma EpisodeFrames(events: seq<Event>, e: Event)
    requires OfBybitSession(e)
    ensures SinkConnection(events + [e]) == Some(e.conn)
    ensures FramesOf(SinkEpisode(events + [e])) == FramesAfter(SinkConnection(events), FramesOf(SinkEpisode(events)), e)
  {
    Unrolled(events, e);
    FramesAppend(if SinkConnection(events) != Some(e.conn) then [] else SinkEpisode(events), e);
  }

  lemma {:induction false} AfterKeepsConnection(conn: string, frames: seq<Frame>)
    ensures After(conn, frames).conn == Some(conn)
  {
    if frames != [] {
      AfterKeepsConnection(conn, frames[..|frames| - 1]);
    }
  }

  lemma ShownConnection(b: BarrierState, conn: Option<string>, frames: seq<Frame>)
    requires Shown(b, conn, frames)
    ensures b.conn == conn
  {
    if conn.Some? {
      AfterKeepsConnection(conn.value, frames);
    }
  }

  lemma StartShown(b: BarrierState, conn: Option<string>, frames: seq<Frame>, id: string)
    requires Shown(b, conn, frames)
    ensures Shown(Started(b, id), Some(id), if conn != Some(id) then [] else frames)
  {
    ShownConnection(b, conn, frames);
  }

  lemma FollowShown(b: BarrierState, conn: Option<string>, frames: seq<Frame>, e: Event)
    requires Shown(b, conn, frames) && OfBybitSession(e) && Followed(b, e).Success?
    ensures var after, more := Followed(b, e).value, FramesAfter(conn, frames, e);
            && Shown(after.0, Some(e.conn), more)
            && (after.1 <==> e.body.BookBytes? && e.body.frame.Book? && Gapped(more))
  {
    StartShown(b, conn, frames, e.conn);
    var base := if conn != Some(e.conn) then [] else frames;
    if e.body.BookBytes? {
      FrameFollows(e.conn, base, e.body.frame);
    } else {
      assert base + [] == base;
    }
  }

  lemma FollowTracks(events: seq<Event>, b: BarrierState, e: Event)
    requires SinkTracks(events, b) && (e.body.VenueDown? || FromSession(e.body)) && Followed(b, e).Success?
    ensures SinkTracks(events + [e], Followed(b, e).value.0)
    ensures Followed(b, e).value.1 <==> GapAt(events, e)
  {
    if OfBybitSession(e) {
      FollowShown(b, SinkConnection(events), FramesOf(SinkEpisode(events)), e);
      EpisodeFrames(events, e);
    } else {
      Unrolled(events, e);
    }
  }

  // ---------- live and replay in step ----------

  predicate Pristine(b: BarrierState) {
    b.conn.Some? && b == Started(INITIAL, b.conn.value)
  }

  /** No gap record is owed, both sides follow the same connections, and Bybit is blocked exactly after trouble. */
  ghost predicate Lockstep(events: seq<Event>, s: State) {
    && s.pending.None?
    && s.hl.conn == CurrentConnection(events, Hyperliquid)
    && s.bybit.conn == CurrentConnection(events, Bybit) == s.barrier.conn
    && (s.bybit.blocked <==> Troubled(events))
  }

  /**
   * While there has been no trouble on the Bybit subscription both sides hold the same barrier, and a connection that
   * only the sink knows has shown it nothing.
   */
  predicate Alike(b: BarrierState, s: State) {
    && (!s.bybit.blocked ==> s.barrier == b && !b.gap)
    && (b.conn != s.bybit.conn ==> Pristine(b))
  }

  /** After a record and before the gap record that it may call for. */
  ghost predicate Halfway(events: seq<Event>, e: Event, gap: bool, t: State) {
    && t.pending == (if gap && !Troubled(events) then Some((e.observed, e.conn)) else None)
    && t.hl.conn == CurrentConnection(events + [e], Hyperliquid)
    && t.bybit.conn == CurrentConnection(events + [e], Bybit) == t.barrier.conn
    && (t.bybit.blocked || gap <==> Troubled(events + [e]))
    && (gap ==> (t.bybit.blocked <==> Troubled(events)))
  }

  /** The barriers after a record and before the gap record. */
  predicate HalfAlike(b: BarrierState, gap: bool, t: State) {
    && (!t.bybit.blocked ==> t.barrier == b && (b.gap <==> gap))
    && (b.conn != t.bybit.conn ==> Pristine(b))
  }

  /** A record of the other venue leaves Bybit and the barrier alone. */
  lemma HyperliquidStep(events: seq<Event>, s: State, e: Event)
    requires e.venue.Hyperliquid? && Lockstep(events, s) && Delivers(events, e)
    ensures Step(s, e).Success?
    ensures var t := Step(s, e).value; Halfway(events, e, false, t) && t.bybit == s.bybit && t.barrier == s.barrier
  {
    Unrolled(events, e);
  }

  lemma BybitStep(events: seq<Event>, b: BarrierState, s: State, e: Event, gap: bool)
    requires e.venue.Bybit? && Lockstep(events, s) && Alike(b, s) && Delivers(events, e)
    requires Followed(b, e).Success? && gap == Followed(b, e).value.1 && (gap <==> GapAt(events, e))
    ensures Step(s, e).Success?
    ensures Halfway(events, e, gap, Step(s, e).value) && HalfAlike(Followed(b, e).value.0, gap, Step(s, e).value)
  {
    Unrolled(events, e);
  }

  /** Before any trouble the barrier refuses exactly the unreadable frames. */
  lemma RefusedIffUnreadable(events: seq<Event>, b: BarrierState, s: State, e: Event)
    requires e.venue.Bybit? && Lockstep(events, s) && Alike(b, s) && SinkTracks(events, b) && Delivers(events, e)
    requires !Troubled(events)
    ensures Followed(b, e).Failure? <==> UnreadableAt(events, e)
  {
    if e.body.BookBytes? {
      ShownConnection(b, SinkConnection(events), FramesOf(SinkEpisode(events)));
      RefusedIff(e.conn, FramesOf(SinkEpisode(events)), e.body.frame);
    }
  }

  /** A frame that the sink's barrier refuses is skipped by the replay after trouble and stops it otherwise. */
  lemma RefusedStep(events: seq<Event>, b: BarrierState, s: State, e: Event)
    requires Lockstep(events, s) && Alike(b, s) && SinkTracks(events, b)
    requires Delivers(events, e) && Followed(b, e).Failure?
    ensures !GapAt(events, e)
    ensures Step(s, e).Success? <==> Troubled(events)
    ensures Step(s, e).Success? ==> Lockstep(events + [e], Step(s, e).value)
  {
    Unrolled(events, e);
    RefusedNoGap(events, b, e);
  }

  lemma RefusedNoGap(events: seq<Event>, b: BarrierState, e: Event)
    requires SinkTracks(events, b) && OfBybitSession(e) && Followed(b, e).Failure?
    ensures !GapAt(events, e)
  {
    StartShown(b, SinkConnection(events), FramesOf(SinkEpisode(events)), e.conn);
    EpisodeFrames(events, e);
    var base := if SinkConnection(events) != Some(e.conn) then [] else FramesOf(SinkEpisode(events));
    assert (base + [e.body.frame])[..|base|] == base;
  }

  lemma RecoveryStep(t: State, e: Event)
    requires t.pending.None? && e.body.OtherOps?
    ensures Step(t, e).Success?
    ensures var u := Step(t, e).value;
            && u.pending.None? && u.barrier == t.barrier && u.hl.conn == t.hl.conn
            && u.bybit.conn == t.bybit.conn && u.bybit.blocked == t.bybit.blocked
  {
  }

  lemma GapStep(t: State, e: Event)
    requires t.pending.None? || t.pending == Some((e.observed, e.conn))
    ensures Step(t, GapRecord(e)).Success? <==> t.pending.Some?
    ensures t.pending.Some? ==>
              Step(t, GapRecord(e)).value == t.(pending := None, bybit := t.bybit.(active := false, blocked := true),
                  points := Step(t, GapRecord(e)).value.points)
  {
  }

  lemma OneMoreEvent(s: State, e: Event, f: Event)
    ensures Replayed(s, [e]) == Step(s, e)
    ensures Step(s, e).Success? ==> Replayed(s, [e, f]) == Step(Step(s, e).value, f)
  {
    assert [e][..0] == [] && [e, f][..1] == [e];
  }

  lemma ReplayWithGap(events: seq<Event>, b: BarrierState, s: State, e: Event)
    requires Step(s, e).Success? && Halfway(events, e, true, Step(s, e).value) && HalfAlike(b, true, Step(s, e).value)
    ensures var r := Replayed(s, [e, GapRecord(e)]);
            (r.Success? <==> !Troubled(events)) && (r.Success? ==> Lockstep(events + [e], r.value) && Alike(b, r.value))
  {
    OneMoreEvent(s, e, GapRecord(e));
    GapStep(Step(s, e).value, e);
  }

  lemma ReplayWithoutGap(events: seq<Event>, s: State, e: Event, recovery: Event)
    requires Step(s, e).Success? && Halfway(events, e, false, Step(s, e).value) && recovery.body.OtherOps?
    ensures var r := Replayed(s, [e]); r.Success? && Lockstep(events + [e], r.value) && r.value == Step(s, e).value
    ensures var r := Replayed(s, [e, recovery]);
            && r.Success? && Lockstep(events + [e], r.value)
            && r.value.barrier == Step(s, e).value.barrier
            && r.value.bybit.conn == Step(s, e).value.bybit.conn
            && r.value.bybit.blocked == Step(s, e).value.bybit.blocked
  {
    OneMoreEvent(s, e, recovery);
    RecoveryStep(Step(s, e).value, recovery);
  }

  lemma {:induction false} ReplayedConcat(s: State, a: seq<Event>, b: seq<Event>)
    ensures Replayed(s, a + b) == match Replayed(s, a)
                                  case Failure(error) => Failure(error)
                                  case Success(t) => Replayed(t, b)
  {
    if b == [] {
      assert a + b == a;
    } else {
      var front := b[..|b| - 1];
      assert (a + b)[..|a + b| - 1] == a + front;
      ReplayedConcat(s, a, front);
    }
  }

  // ---------- one input ----------

  /** As long as the Bybit session goes on, the sink's barrier tracks its frames. */
  ghost predicate Tracking(events: seq<Event>, r: Running) {
    Bybit !in r.ended ==> SinkTracks(events, r.sink.barrier)
  }

  /** The replay is in step with the log, and its barrier with the sink's as long as the Bybit session goes on. */
  ghost predicate InStep(events: seq<Event>, r: Running, s: State) {
    Lockstep(events, s) && (Bybit !in r.ended ==> Alike(r.sink.barrier, s))
  }

  lemma TrackingStep(events: seq<Event>, r: Running, i: Input)
    requires Tracking(events, r) && (Reaches(r, i) ==> Delivers(events, i.e))
    ensures Reaches(r, i) ==> Tracking(events + [i.e], Heeded(r, i))
    ensures !Reaches(r, i) ==> Tracking(events, Heeded(r, i))
  {
    if Reaches(r, i) && Bybit !in Heeded(r, i).ended {
      FollowTracks(events, r.sink.barrier, i.e);
    }
  }

  /**
   * What one input adds can be replayed unless a book lacks continuity after trouble or a frame is unreadable before.
   */
  ghost predicate Replayable(events: seq<Event>, e: Event) {
    if Troubled(events) then !GapAt(events, e) else !UnreadableAt(events, e)
  }

  lemma HyperliquidInStep(events: seq<Event>, r: Running, s: State, i: Input)
    requires InStep(events, r, s) && Delivers(events, i.e) && Reaches(r, i) && i.e.venue.Hyperliquid?
    ensures Replayable(events, i.e)
    ensures var v := Replayed(s, Additions(r, i)); v.Success? && InStep(events + [i.e], Heeded(r, i), v.value)
  {
    HyperliquidStep(events, s, i.e);
    ReplayWithoutGap(events, s, i.e, RecoveryRecord(i.e.venue, i.recoveredNs));
  }

  lemma RefusedInStep(events: seq<Event>, r: Running, s: State, i: Input)
    requires InStep(events, r, s) && Tracking(events, r) && Delivers(events, i.e) && Reaches(r, i)
    requires i.e.venue.Bybit? && Followed(r.sink.barrier, i.e).Failure?
    ensures var v := Replayed(s, Additions(r, i));
            (v.Success? <==> Replayable(events, i.e)) && (v.Success? ==> InStep(events + [i.e], Heeded(r, i), v.value))
  {
    RefusedStep(events, r.sink.barrier, s, i.e);
    if !Troubled(events) {
      RefusedIffUnreadable(events, r.sink.barrier, s, i.e);
    }
    OneMoreEvent(s, i.e, i.e);
  }

  lemma BybitHeeded(r: Running, i: Input)
    requires Reaches(r, i) && i.e.venue.Bybit? && Followed(r.sink.barrier, i.e).Success?
    ensures var gap := Followed(r.sink.barrier, i.e).value.1;
            Additions(r, i) == if gap then [i.e, GapRecord(i.e)]
                               else if RecoveryReaches(r, i) then [i.e, RecoveryRecord(i.e.venue, i.recoveredNs)]
                               else [i.e]
    ensures Bybit !in Heeded(r, i).ended ==> Heeded(r, i).sink.barrier == Followed(r.sink.barrier, i.e).value.0
  {
  }

  /** What the replay of a Bybit record and of what it called for comes to. */
  lemma BybitReplay(events: seq<Event>, b: BarrierState, s: State, i: Input, added: seq<Event>)
    requires Lockstep(events, s) && Alike(b, s) && SinkTracks(events, b) && Delivers(events, i.e)
    requires i.e.venue.Bybit? && Followed(b, i.e).Success?
    requires var recovery := RecoveryRecord(i.e.venue, i.recoveredNs);
             if Followed(b, i.e).value.1 then added == [i.e, GapRecord(i.e)]
             else added == [i.e] || added == [i.e, recovery]
    ensures var v := Replayed(s, added);
            && (v.Success? <==> !(Troubled(events) && GapAt(events, i.e)))
            && (v.Success? ==> Lockstep(events + [i.e], v.value) && Alike(Followed(b, i.e).value.0, v.value))
  {
    var after, gap := Followed(b, i.e).value.0, Followed(b, i.e).value.1;
    FollowTracks(events, b, i.e);
    BybitStep(events, b, s, i.e, gap);
    if gap {
      ReplayWithGap(events, after, s, i.e);
    } else {
      ReplayWithoutGap(events, s, i.e, RecoveryRecord(i.e.venue, i.recoveredNs));
    }
  }

  lemma BybitInStep(events: seq<Event>, r: Running, s: State, i: Input)
    requires InStep(events, r, s) && Tracking(events, r) && Delivers(events, i.e) && Reaches(r, i)
    requires i.e.venue.Bybit? && Followed(r.sink.barrier, i.e).Success?
    ensures var v := Replayed(s, Additions(r, i));
            (v.Success? <==> Replayable(events, i.e)) && (v.Success? ==> InStep(events + [i.e], Heeded(r, i), v.value))
  {
    BybitHeeded(r, i);
    BybitReplay(events, r.sink.barrier, s, i, Additions(r, i));
    if !Troubled(events) {
      RefusedIffUnreadable(events, r.sink.barrier, s, i.e);
    }
  }

  /** One input: the replay of what the sink adds for it succeeds, in step, exactly when the input is replayable. */
  lemma StepLockstep(events: seq<Event>, r: Running, s: State, i: Input)
    requires InStep(events, r, s) && Tracking(events, r) && Delivers(events, i.e) && Reaches(r, i)
    ensures var v := Replayed(s, Additions(r, i));
            (v.Success? <==> Replayable(events, i.e)) && (v.Success? ==> InStep(events + [i.e], Heeded(r, i), v.value))
  {
    if i.e.venue.Hyperliquid? {
      HyperliquidInStep(events, r, s, i);
    } else if Followed(r.sink.barrier, i.e).Failure? {
      RefusedInStep(events, r, s, i);
    } else {
      BybitInStep(events, r, s, i);
    }
  }

  // ---------- whole runs ----------

  /** The log is accepted by the reader of formal events and by the pass over them. */
  ghost predicate Accepted(log: seq<Event>) {
    Timed(log) && PointsOf(log).Success?
  }

  lemma {:induction false} LiveTracks(inputs: seq<Input>)
    requires OrderlyRun(Heard(inputs))
    ensures Tracking(Heard(inputs), Live(inputs))
  {
    if inputs != [] {
      var front, last := inputs[..|inputs| - 1], inputs[|inputs| - 1];
      Unrolled(Heard(front), last.e);
      LiveTracks(front);
      TrackingStep(Heard(front), Live(front), last);
    }
  }

  lemma Verdict(events: seq<Event>, e: Event)
    ensures !EverGapAfterTrouble(events + [e]) && !EverUnreadable(events + [e]) <==>
            !EverGapAfterTrouble(events) && !EverUnreadable(events) && Replayable(events, e)
  {
    Unrolled(events, e);
  }

  lemma {:induction false} ReplayIffReplayable(inputs: seq<Input>)
    requires OrderlyRun(Heard(inputs))
    ensures var v, events := Replayed(START, Live(inputs).sink.log), Heard(inputs);
            && (v.Success? <==> !EverGapAfterTrouble(events) && !EverUnreadable(events))
            && (v.Success? ==> InStep(events, Live(inputs), v.value))
  {
    if inputs != [] {
      var front, last := inputs[..|inputs| - 1], inputs[|inputs| - 1];
      var events, r := Heard(front), Live(front);
      Unrolled(events, last.e);
      ReplayIffReplayable(front);
      LiveTracks(front);
      HeededAdds(r, last);
      if Reaches(r, last) {
        ReplayedConcat(START, r.sink.log, Additions(r, last));
        Verdict(events, last.e);
        var before := Replayed(START, r.sink.log);
        if before.Success? {
          StepLockstep(events, r, before.value, last);
        }
      } else {
        UnreachedChangesNothing(events, r, last);
      }
    }
  }

  lemma UnreachedChangesNothing(events: seq<Event>, r: Running, i: Input)
    requires !Reaches(r, i)
    ensures Heeded(r, i).sink.log == r.sink.log && Heeded(r, i).sink.barrier == r.sink.barrier
    ensures r.ended <= Heeded(r, i).ended
    ensures forall s :: InStep(events, r, s) ==> InStep(events, Heeded(r, i), s)
  {
  }

  /**
   * Whatever the sessions deliver, and whatever stops them, the log that the live sink has written is accepted by its
   * own replay if and only if the clock never stepped back between two records, no book was found without continuity
   * after earlier trouble on its subscription, and no frame was unreadable before such trouble. Then no gap record is
   * owed, and both sides hold the same barrier wherever there was no trouble, as long as the Bybit session goes on.
   */
  lemma LiveLogReplays(inputs: seq<Input>)
    requires OrderlyRun(Heard(inputs))
    ensures var log, events := Live(inputs).sink.log, Heard(inputs);
            && (Accepted(log) <==> ClockForward(inputs) && !EverGapAfterTrouble(events) && !EverUnreadable(events))
            && (Accepted(log) ==> InStep(events, Live(inputs), Replayed(START, log).value))
  {
    TimedIff(inputs);
    ReplayIffReplayable(inputs);
  }

  // ---------- three inputs that fail ----------

  /** One more input of a venue whose session goes on, taken by the writer and followed by no recovery. */
  lemma PushInput(inputs: seq<Input>, i: Input)
    requires var r := Live(inputs); i.e.venue !in r.ended && Appended(r.sink.log, i.e).Success? && r.sink.down == {}
    ensures Heard(inputs + [i]) == Heard(inputs) + [i.e]
    ensures Live(inputs + [i]) == Heeded(Live(inputs), i)
    ensures ClockForward(inputs + [i]) <==> ClockForward(inputs) && LatestNs(inputs) <= i.e.observed
    ensures LatestNs(inputs + [i]) == i.e.observed
  {
    assert (inputs + [i])[..|inputs|] == inputs;
  }

  lemma PushOrderly(events: seq<Event>, e: Event)
    ensures OrderlyRun(events + [e]) <==> OrderlyRun(events) && Delivers(events, e)
    ensures EverGapAfterTrouble(events + [e]) <==> EverGapAfterTrouble(events) || (Troubled(events) && GapAt(events, e))
    ensures CurrentConnection(events + [e], Bybit)
         == if e.venue.Bybit? && e.body.SubscriptionSend? then Some(e.conn) else CurrentConnection(events, Bybit)
  {
    Unrolled(events, e);
  }

  function At(conn: string, ns: int, body: Body): Input {
    Input(Event(Bybit, conn, ns, body), ns)
  }

  lemma FirstHour(ns: int)
    requires 0 <= ns < 10
    ensures Shard.HourOf(ns) == Success(0)
  {
  }

  lemma SendHeeded(send: Input)
    requires send.e.venue.Bybit? && send.e.body.SubscriptionSend? && 0 <= send.e.observed < 10
    ensures Appended([], send.e) == Success([send.e])
    ensures Heeded(Running(NEW_SINK, {}), send) == Running(SinkState(Started(INITIAL, send.e.conn), [send.e], {}), {})
  {
    FirstHour(send.e.observed);
    assert [] + [send.e] == [send.e];
  }

  lemma SendEvents(e: Event)
    requires e.venue.Bybit? && e.body.SubscriptionSend?
    ensures OrderlyRun([e]) && !Troubled([e]) && !EverGapAfterTrouble([e])
    ensures CurrentConnection([e], Bybit) == Some(e.conn)
  {
    assert [e][..0] == [];
  }

  /** A run of one subscription, observed in the first hour. */
  lemma SendRun(conn: string, ns: int)
    requires 0 <= ns < 10
    ensures var send := At(conn, ns, SubscriptionSend);
            && Heard([send]) == [send.e]
            && Live([send]) == Running(SinkState(Started(INITIAL, conn), [send.e], {}), {})
            && ClockForward([send]) && LatestNs([send]) == ns
  {
    var send := At(conn, ns, SubscriptionSend);
    SendHeeded(send);
    assert [send][..0] == [];
  }

  lemma TroubleStays(events: seq<Event>, e: Event)
    requires e.venue.Bybit? && IsFailure(e.body)
    ensures Troubled(events + [e])
  {
    Unrolled(events, e);
  }

  lemma QuarantinedRun(conn: string)
    ensures var inputs := [At(conn, 1, SubscriptionSend), At(conn, 2, RawQuarantine)];
            && OrderlyRun(Heard(inputs)) && Troubled(Heard(inputs))
            && CurrentConnection(Heard(inputs), Bybit) == Some(conn)
            && ClockForward(inputs) && LatestNs(inputs) == 2
            && Live(inputs).ended == {} && Live(inputs).sink.down == {}
            && Live(inputs).sink.barrier == Started(INITIAL, conn)
            && LastTime(Live(inputs).sink.log) == 2 && Live(inputs).sink.log != []
  {
    var send, bad := At(conn, 1, SubscriptionSend), At(conn, 2, RawQuarantine);
    SendRun(conn, 1);
    SendEvents(send.e);
    FirstHour(1);
    FirstHour(2);
    assert [send, bad] == [send] + [bad];
    PushInput([send], bad);
    PushOrderly([send.e], bad.e);
    TroubleStays([send.e], bad.e);
    assert Heeded(Live([send]), bad) == Running(SinkState(Started(INITIAL, conn), [send.e] + [bad.e], {}), {});
  }

  /** First, a quarantined frame and then a sequence gap on one connection. */
  lemma QuarantineThenGap(conn: string)
    ensures var inputs := [At(conn, 1, SubscriptionSend), At(conn, 2, RawQuarantine),
                           At(conn, 3, BookBytes(Book(BookBTC, Id(7), false)))];
            && OrderlyRun(Heard(inputs)) && ClockForward(inputs)
            && !Accepted(Live(inputs).sink.log)
  {
    var front := [At(conn, 1, SubscriptionSend), At(conn, 2, RawQuarantine)];
    var delta := At(conn, 3, BookBytes(Book(BookBTC, Id(7), false)));
    QuarantinedRun(conn);
    assert front + [delta] == [front[0], front[1], delta];
    FirstHour(2);
    FirstHour(3);
    PushInput(front, delta);
    PushOrderly(Heard(front), delta.e);
    LiveTracks(front);
    FollowTracks(Heard(front), Live(front).sink.barrier, delta.e);
    LiveLogReplays(front + [delta]);
  }

  /** Second, a clock that steps back inside one hour. */
  lemma ClockStepsBack(conn: string)
    ensures var inputs := [At(conn, 2, SubscriptionSend), At(conn, 1, SubscriptionSend)];
            && OrderlyRun(Heard(inputs)) && !EverGapAfterTrouble(Heard(inputs)) && Live(inputs).ended == {}
            && !Accepted(Live(inputs).sink.log)
  {
    var first, second := At(conn, 2, SubscriptionSend), At(conn, 1, SubscriptionSend);
    assert [first, second] == [first] + [second];
    SendRun(conn, 2);
    SendEvents(first.e);
    FirstHour(1);
    FirstHour(2);
    PushInput([first], second);
    PushOrderly([first.e], second.e);
    LiveLogReplays([first, second]);
  }

  /** Third, a frame that cannot be read: it is logged, ends its session, and makes the whole log unusable. */
  lemma UnreadableFrameIsFatal(conn: string)
    ensures var inputs := [At(conn, 1, SubscriptionSend), At(conn, 2, BookBytes(Malformed))];
            && OrderlyRun(Heard(inputs)) && ClockForward(inputs) && !EverGapAfterTrouble(Heard(inputs))
            && Live(inputs).sink.log == Heard(inputs) && Live(inputs).ended == {Bybit}
            && !Accepted(Live(inputs).sink.log)
  {
    var send, bad := At(conn, 1, SubscriptionSend), At(conn, 2, BookBytes(Malformed));
    assert [send, bad] == [send] + [bad];
    SendRun(conn, 1);
    SendEvents(send.e);
    FirstHour(1);
    FirstHour(2);
    PushInput([send], bad);
    PushOrderly([send.e], bad.e);
    assert UnreadableAt([send.e], bad.e) && !Replayable([send.e], bad.e);
    Verdict([send.e], bad.e);
    LiveLogReplays([send, bad]);
  }
}
