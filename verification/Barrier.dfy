/** The Bybit sequence barrier: one pass over book frames that decides when every required topic is continuous. */
module Barrier {
  import opened Common

  datatype Topic = BookBTC | BookETH

  const REQUIRED_TOPICS: set<Topic> := {BookBTC, BookETH}

  /** The update id that a frame carries: a number, a null, or a value that no update id may have. */
  datatype UpdateId = Id(n: nat) | Null | Invalid

  /** A frame's bytes as the barrier reads them. */
  datatype Frame = NotBook | Book(topic: Topic, updateId: UpdateId, snapshot: bool) | Malformed

  datatype BarrierState = BarrierState(conn: Option<string>, previous: map<Topic, UpdateId>, topics: set<Topic>,
      gap: bool)

  const INITIAL := BarrierState(None, map[], {}, false)

  function Started(b: BarrierState, conn: string): BarrierState {
    if b.conn == Some(conn) then b else BarrierState(Some(conn), map[], {}, false)
  }

  predicate Ready(b: BarrierState) {
    !b.gap && REQUIRED_TOPICS <= b.topics
  }

  /** Whether an update does not continue its predecessor; ids that cannot be compared are refused. */
  function UpdateGap(previous: UpdateId, current: UpdateId, snapshot: bool): Result<bool> {
    if previous.Invalid? then Failure("invalid previous_u")
    else if !current.Id? then Failure("invalid current_u")
    else Success(!snapshot && previous.Id? && current.n != previous.n + 1)
  }

  /** A topic without a previous update reads like one whose previous update id is null. */
  function PreviousOf(b: BarrierState, topic: Topic): UpdateId {
    if topic in b.previous then b.previous[topic] else Null
  }

  /** A delta of a topic that has shown no snapshot is a gap whatever its update id is. */
  function FrameGap(b: BarrierState, topic: Topic, current: UpdateId, snapshot: bool): Result<bool> {
    if !snapshot && topic !in b.topics then Success(true) else UpdateGap(PreviousOf(b, topic), current, snapshot)
  }

  /** The state after a frame and whether the connection has a gap. */
  function Observed(b: BarrierState, f: Frame): Result<(BarrierState, bool)> {
    match f
    case Malformed => Failure("invalid Bybit sequence frame")
    case NotBook => Success((b, false))
    case Book(topic, current, snapshot) =>
      match FrameGap(b, topic, current, snapshot)
      case Failure(_) => Failure("invalid Bybit sequence frame")
      case Success(broken) =>
        var gap := b.gap || broken;
        var topics := if snapshot && !gap then b.topics + {topic} else b.topics;
        Success((BarrierState(b.conn, b.previous[topic := current], topics, gap), gap))
  }

  class BybitBarrier {
    var conn: Option<string>
    var previous: map<Topic, UpdateId>
    var topics: set<Topic>
    var gap: bool

    function State(): BarrierState
      reads this
    {
      BarrierState(conn, previous, topics, gap)
    }

    constructor ()
      ensures State() == INITIAL
    {
      conn, previous, topics, gap := None, map[], {}, false;
    }

    method Start(id: string)
      modifies this
      ensures State() == Started(old(State()), id)
    {
      if conn != Some(id) {
        conn, previous, topics, gap := Some(id), map[], {}, false;
      }
    }

    method Observe(f: Frame) returns (r: Result<bool>)
      modifies this
      ensures match Observed(old(State()), f)
              case Failure(error) => State() == old(State()) && r == Failure(error)
              case Success(after) => State() == after.0 && r == Success(after.1)
    {
      if f.Malformed? {
        return Failure("invalid Bybit sequence frame");
      }
      if f.NotBook? {
        return Success(false);
      }
      var missing := !f.snapshot && f.topic !in topics;
      if !missing {
        var known := if f.topic in previous then previous[f.topic] else Null;
        if known.Invalid? || !f.updateId.Id? {
          return Failure("invalid Bybit sequence frame");
        }
        gap := gap || (!f.snapshot && known.Id? && f.updateId.n != known.n + 1);
      }
      gap := gap || missing;
      if f.snapshot && !gap {
        topics := topics + {f.topic};
      }
      previous := previous[f.topic := f.updateId];
      return Success(gap);
    }
  }

  // ---------- what readiness means ----------

  /** Everything one connection has shown the barrier since it started. */
  function After(conn: string, frames: seq<Frame>): BarrierState {
    if frames == [] then BarrierState(Some(conn), map[], {}, false)
    else
      var before := After(conn, frames[..|frames| - 1]);
      match Observed(before, frames[|frames| - 1])
      case Failure(_) => before
      case Success(after) => after.0
  }

  /** The barrier refuses none of the frames. */
  predicate ReadableFrames(conn: string, frames: seq<Frame>) {
    frames != [] ==>
      var front := frames[..|frames| - 1];
      ReadableFrames(conn, front) && Observed(After(conn, front), frames[|frames| - 1]).Success?
  }

  type Update = (UpdateId, bool)

  /** The update ids and kinds of one topic, in order of arrival. */
  function History(frames: seq<Frame>, topic: Topic): seq<Update> {
    if frames == [] then []
    else
      var front, last := History(frames[..|frames| - 1], topic), frames[|frames| - 1];
      if last.Book? && last.topic == topic then front + [(last.updateId, last.snapshot)] else front
  }

  /** The history starts with a snapshot and every delta carries the preceding id plus one. */
  ghost predicate Continuous(h: seq<Update>) {
    && (h != [] ==> h[0].1)
    && forall k :: 0 < k < |h| && !h[k].1 ==> Follows(h[k - 1].0, h[k].0)
  }

  predicate Follows(previous: UpdateId, current: UpdateId) {
    previous.Id? && current.Id? && current.n == previous.n + 1
  }

  lemma ContinuousStep(h: seq<Update>, x: Update)
    ensures Continuous(h + [x]) <==>
            Continuous(h) && (x.1 || (h != [] && Follows(h[|h| - 1].0, x.0)))
  {
    var more := h + [x];
    assert forall k :: 0 <= k < |h| ==> more[k] == h[k];
    assert more[|h|] == x;
    if Continuous(more) {
      forall k | 0 < k < |h| && !h[k].1
        ensures Follows(h[k - 1].0, h[k].0)
      {
        assert !more[k].1;
      }
    }
  }

  /** The barrier's view of one topic agrees with the topic's history h. */
  ghost predicate Tracks(b: BarrierState, h: seq<Update>, topic: Topic) {
    && PreviousOf(b, topic) == (if h == [] then Null else h[|h| - 1].0)
    && (!b.gap ==> Continuous(h) && (topic in b.topics <==> h != []) && (h != [] ==> h[|h| - 1].0.Id?))
  }

  lemma OwnTopicStep(b: BarrierState, h: seq<Update>, f: Frame)
    requires f.Book? && Tracks(b, h, f.topic) && Observed(b, f).Success?
    ensures var after, more := Observed(b, f).value.0, h + [(f.updateId, f.snapshot)];
            && Tracks(after, more, f.topic)
            && (!Continuous(h) ==> !Continuous(more))
            && (after.gap <==> b.gap || !Continuous(more))
  {
    ContinuousStep(h, (f.updateId, f.snapshot));
  }

  lemma OtherTopicStep(b: BarrierState, h: seq<Update>, f: Frame, topic: Topic)
    requires f.Book? && f.topic != topic && Tracks(b, h, topic) && Observed(b, f).Success?
    ensures Tracks(Observed(b, f).value.0, h, topic)
  {
  }

  function OtherTopic(topic: Topic): Topic {
    if topic.BookBTC? then BookETH else BookBTC
  }

  ghost predicate TracksAll(b: BarrierState, frames: seq<Frame>) {
    var btc, eth := History(frames, BookBTC), History(frames, BookETH);
    && Tracks(b, btc, BookBTC) && Tracks(b, eth, BookETH)
    && (b.gap <==> !Continuous(btc) || !Continuous(eth))
  }

  lemma {:induction false} BarrierTracks(conn: string, frames: seq<Frame>)
    requires ReadableFrames(conn, frames)
    ensures TracksAll(After(conn, frames), frames)
  {
    if frames != [] {
      var front, last := frames[..|frames| - 1], frames[|frames| - 1];
      BarrierTracks(conn, front);
      if last.Book? {
        var b, other := After(conn, front), OtherTopic(last.topic);
        assert last.topic == BookBTC || last.topic == BookETH;
        OwnTopicStep(b, History(front, last.topic), last);
        OtherTopicStep(b, History(front, other), last, other);
      }
    }
  }

  /** The book was seen, and without a break from its snapshot on. */
  ghost predicate Unbroken(frames: seq<Frame>, t: Topic) {
    History(frames, t) != [] && Continuous(History(frames, t))
  }

  /**
   * The barrier is ready exactly when, on the current connection, every required topic has been seen, its first frame
   * is a snapshot, and each of its deltas carries the preceding update id plus one.
   */
  lemma ReadyIffContinuous(conn: string, frames: seq<Frame>)
    requires ReadableFrames(conn, frames)
    ensures Ready(After(conn, frames)) <==>
            forall t: Topic :: Unbroken(frames, t)
  {
    BarrierTracks(conn, frames);
    var b := After(conn, frames);
    assert REQUIRED_TOPICS <= b.topics <==> BookBTC in b.topics && BookETH in b.topics;
    assert (forall t: Topic :: Unbroken(frames, t)) ==> Unbroken(frames, BookBTC) && Unbroken(frames, BookETH);
    forall t: Topic | Unbroken(frames, BookBTC) && Unbroken(frames, BookETH)
      ensures Unbroken(frames, t)
    {
      assert t == BookBTC || t == BookETH;
    }
  }

  /** Some book of the connection is without continuity. */
  ghost predicate Gapped(frames: seq<Frame>) {
    exists topic :: !Continuous(History(frames, topic))
  }

  lemma GapMeansGapped(conn: string, frames: seq<Frame>)
    requires ReadableFrames(conn, frames)
    ensures After(conn, frames).gap <==> Gapped(frames)
  {
    BarrierTracks(conn, frames);
    if topic :| !Continuous(History(frames, topic)) {
      assert topic == BookBTC || topic == BookETH;
    }
  }

  /** The frame cannot be decoded, or its update id cannot be compared where it has to be. */
  predicate Unreadable(frames: seq<Frame>, f: Frame) {
    || f.Malformed?
    || (f.Book? && !f.updateId.Id? && (f.snapshot || History(frames, f.topic) != []))
  }

  /**
   * While every book is continuous, a frame is refused exactly when it cannot be decoded, or carries no number as
   * update id although it is a snapshot or its topic has been seen.
   */
  lemma {:induction false} RefusedIff(conn: string, frames: seq<Frame>, f: Frame)
    requires ReadableFrames(conn, frames) && !After(conn, frames).gap
    ensures Observed(After(conn, frames), f).Failure? <==> Unreadable(frames, f)
  {
    BarrierTracks(conn, frames);
    if f.Book? {
      assert f.topic == BookBTC || f.topic == BookETH;
    }
  }

  // ---------- what is refused at any time ----------

  /** A snapshot of the book that no break precedes or accompanies. */
  ghost predicate AdmittedAt(frames: seq<Frame>, i: nat, t: Topic)
    requires i < |frames|
  {
    frames[i].Book? && frames[i].topic == t && frames[i].snapshot && !Gapped(frames[..i + 1])
  }

  /** The book has shown a snapshot before any break, so that the ids of its deltas are compared. */
  ghost predicate Admitted(frames: seq<Frame>, t: Topic) {
    exists i :: 0 <= i < |frames| && AdmittedAt(frames, i, t)
  }

  lemma AdmittedInPrefix(front: seq<Frame>, last: Frame, i: nat, t: Topic)
    requires i <= |front|
    ensures AdmittedAt(front + [last], i, t) <==>
              if i < |front| then AdmittedAt(front, i, t)
              else last.Book? && last.topic == t && last.snapshot && !Gapped(front + [last])
  {
    var frames := front + [last];
    if i < |front| {
      assert frames[..i + 1] == front[..i + 1];
    } else {
      assert frames[..i + 1] == frames;
    }
  }

  lemma AdmittedStep(front: seq<Frame>, last: Frame, t: Topic)
    ensures Admitted(front + [last], t) <==>
            || Admitted(front, t)
            || (last.Book? && last.topic == t && last.snapshot && !Gapped(front + [last]))
  {
    var frames := front + [last];
    forall i | 0 <= i <= |front|
      ensures AdmittedAt(frames, i, t) <==>
                if i < |front| then AdmittedAt(front, i, t)
                else last.Book? && last.topic == t && last.snapshot && !Gapped(frames)
    {
      AdmittedInPrefix(front, last, i, t);
    }
    AdmittedInPrefix(front, last, |front|, t);
  }

  lemma {:induction false} TopicsAreAdmitted(conn: string, frames: seq<Frame>, t: Topic)
    requires ReadableFrames(conn, frames)
    ensures t in After(conn, frames).topics <==> Admitted(frames, t)
  {
    if frames != [] {
      var front, last := frames[..|frames| - 1], frames[|frames| - 1];
      assert frames == front + [last];
      TopicsAreAdmitted(conn, front, t);
      AdmittedStep(front, last, t);
      GapMeansGapped(conn, frames);
    }
  }

  /** The book's last update id cannot be compared with any other. */
  ghost predicate SpoiltId(frames: seq<Frame>, t: Topic) {
    var h := History(frames, t);
    h != [] && h[|h| - 1].0.Invalid?
  }

  /**
   * At any time, gaps included, a frame is refused exactly when it cannot be decoded, or is a snapshot or a delta of an
   * admitted book whose own id, or whose book's last id, is no number.
   */
  lemma RefusedAtAnyTime(conn: string, frames: seq<Frame>, f: Frame)
    requires ReadableFrames(conn, frames)
    ensures Observed(After(conn, frames), f).Failure? <==>
            || f.Malformed?
            || (f.Book? && (f.snapshot || Admitted(frames, f.topic))
                && (!f.updateId.Id? || SpoiltId(frames, f.topic)))
  {
    BarrierTracks(conn, frames);
    if f.Book? {
      TopicsAreAdmitted(conn, frames, f.topic);
      assert f.topic == BookBTC || f.topic == BookETH;
    }
  }
}
