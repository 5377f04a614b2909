/** A log written one event at a time: what a writer that only appends events leaves for a replay. */
module EventLog {
  import opened Common
  import opened Events
  import opened Framing
  import opened Shard
  import EventReplay

  /** What a stored record reads back as. */
  datatype Line = Bad(error: string) | Skipped | Durable(event: Event)

  /** The durable events of a record stream, and the error that ends it. */
  function EventsOf(records: seq<Record>, error: Option<string>, parse: Record -> Line): (seq<Event>, Option<string>) {
    if records == [] then ([], error)
    else
      var (events, stop) := EventsOf(records[1..], error, parse);
      match parse(records[0])
      case Bad(bad) => ([], Some(bad))
      case Skipped => (events, stop)
      case Durable(e) => ([e] + events, stop)
  }

  /** The canonical encoding of each event fits a frame and reads back as the event. */
  ghost predicate Faithful(events: seq<Event>, encode: Event -> Record, parse: Record -> Line) {
    forall e :: e in events ==> Storable(encode(e)) && parse(encode(e)) == Durable(e)
  }

  function Encoded(events: seq<Event>, encode: Event -> Record): seq<Record> {
    if events == [] then [] else Encoded(events[..|events| - 1], encode) + [encode(events[|events| - 1])]
  }

  lemma {:induction false} EventsOfAppend(records: seq<Record>, events: seq<Event>, record: Record, e: Event,
                                          parse: Record -> Line)
    requires EventsOf(records, None, parse) == (events, None) && parse(record) == Durable(e)
    ensures EventsOf(records + [record], None, parse) == (events + [e], None)
  {
    if records == [] {
      assert records + [record] == [record] && [record][1..] == [];
      assert [e] + [] == events + [e];
    } else {
      assert (records + [record])[1..] == records[1..] + [record];
      var rest := EventsOf(records[1..], None, parse).0;
      EventsOfAppend(records[1..], rest, record, e, parse);
      if parse(records[0]).Durable? {
        assert [events[0]] + (rest + [e]) == events + [e];
      }
    }
  }

  lemma {:induction false} EncodedReadsBack(events: seq<Event>, encode: Event -> Record, parse: Record -> Line)
    requires Faithful(events, encode, parse)
    ensures EventsOf(Encoded(events, encode), None, parse) == (events, None)
  {
    if events != [] {
      var front, last := events[..|events| - 1], events[|events| - 1];
      EncodedReadsBack(front, encode, parse);
      EventsOfAppend(Encoded(front, encode), front, encode(last), last, parse);
      assert events == front + [last];
    }
  }

  // ---------- runs of appends ----------

  function After(s: WriterState, e: Event, encode: Event -> Record): WriterState {
    AppendEvent(s, e, encode(e)).0
  }

  function KeptOne(s: WriterState, e: Event, encode: Event -> Record): seq<Event> {
    if AppendEvent(s, e, encode(e)).1.Success? then [e] else []
  }

  function RunEvents(s: WriterState, events: seq<Event>, encode: Event -> Record): WriterState
    decreases |events|
  {
    if events == [] then s else RunEvents(After(s, events[0], encode), events[1..], encode)
  }

  /** The events that a run of appends accepts. */
  function Kept(s: WriterState, events: seq<Event>, encode: Event -> Record): seq<Event>
    decreases |events|
  {
    if events == [] then [] else KeptOne(s, events[0], encode) + Kept(After(s, events[0], encode), events[1..], encode)
  }

  ghost predicate Increasing(events: seq<Event>) {
    forall i :: 0 < i < |events| ==> KeyBefore(KeyOf(events[i - 1]), KeyOf(events[i]))
  }

  /** The writer's last hour is the hour of its last event. */
  predicate HourFollowsKey(s: WriterState) {
    s.hour.Some? ==> s.lastKey.Some? && HourOf(s.lastKey.value.recvNs) == Success(s.hour.value)
  }

  /** The state has logged exactly these events. */
  ghost predicate HasLogged(s: WriterState, kept: seq<Event>, encode: Event -> Record) {
    && Truthful(s)
    && HourFollowsKey(s)
    && Logged(s) == Encoded(kept, encode)
    && Increasing(kept)
    && s.lastKey == (if kept == [] then None else Some(KeyOf(kept[|kept| - 1])))
  }

  /** An event that passes the key check is never turned away for its hour. */
  lemma HourCheckNeverFires(s: WriterState, e: Event, encoded: Record)
    requires HourFollowsKey(s)
    ensures AppendEvent(s, e, encoded).1 != Failure("UTC hour moved backwards")
    ensures HourFollowsKey(AppendEvent(s, e, encoded).0)
  {
    if s.lastKey.Some? && KeyBefore(s.lastKey.value, KeyOf(e)) {
      assert s.lastKey.value.recvNs <= e.recvNs;
    }
  }

  lemma KeyIsNotLogged(s: WriterState, key: Option<Key>)
    requires Truthful(s)
    ensures Truthful(s.(lastKey := key)) && Logged(s.(lastKey := key)) == Logged(s)
  {
  }

  lemma AppendEventTruthful(s: WriterState, e: Event, encoded: Record)
    requires Truthful(s) && Storable(encoded)
    ensures var (t, r) := AppendEvent(s, e, encoded);
            Truthful(t) && Logged(t) == Logged(s) + if r.Success? then [encoded] else []
  {
    AppendLogs(s, encoded, e.recvNs);
    KeyIsNotLogged(Append(s, encoded, e.recvNs).0, Some(KeyOf(e)));
    assert Logged(s) + [] == Logged(s);
  }

  lemma AppendEventKey(s: WriterState, e: Event, encoded: Record)
    ensures var (t, r) := AppendEvent(s, e, encoded);
            if r.Success? then t.lastKey == Some(KeyOf(e)) && (s.lastKey.Some? ==> KeyBefore(s.lastKey.value, KeyOf(e)))
            else t.lastKey == s.lastKey
  {
  }

  lemma IncreasingAppend(kept: seq<Event>, e: Event)
    requires Increasing(kept) && (kept != [] ==> KeyBefore(KeyOf(kept[|kept| - 1]), KeyOf(e)))
    ensures Increasing(kept + [e])
  {
  }

  lemma EncodedAppend(kept: seq<Event>, e: Event, encode: Event -> Record)
    ensures Encoded(kept + [e], encode) == Encoded(kept, encode) + [encode(e)]
  {
    assert (kept + [e])[..|kept|] == kept;
  }

  lemma AppendEventLogs(s: WriterState, kept: seq<Event>, e: Event, encode: Event -> Record)
    requires HasLogged(s, kept, encode) && Storable(encode(e))
    ensures HasLogged(After(s, e, encode), kept + KeptOne(s, e, encode), encode)
  {
    HourCheckNeverFires(s, e, encode(e));
    AppendEventTruthful(s, e, encode(e));
    AppendEventKey(s, e, encode(e));
    if AppendEvent(s, e, encode(e)).1.Success? {
      IncreasingAppend(kept, e);
      EncodedAppend(kept, e, encode);
    } else {
      assert kept + [] == kept;
    }
  }

  lemma {:induction false} RunEventsLogs(s: WriterState, kept: seq<Event>, events: seq<Event>, encode: Event -> Record)
    requires HasLogged(s, kept, encode) && forall e :: e in events ==> Storable(encode(e))
    ensures HasLogged(RunEvents(s, events, encode), kept + Kept(s, events, encode), encode)
    decreases |events|
  {
    if events == [] {
      assert kept + [] == kept;
    } else {
      var t, one := After(s, events[0], encode), KeptOne(s, events[0], encode);
      AppendEventLogs(s, kept, events[0], encode);
      RunEventsLogs(t, kept + one, events[1..], encode);
      Assoc(kept, one, Kept(t, events[1..], encode));
    }
  }

  lemma {:induction false} KeptMembers(s: WriterState, events: seq<Event>, encode: Event -> Record)
    ensures forall e :: e in Kept(s, events, encode) ==> e in events
    decreases |events|
  {
    if events != [] {
      KeptMembers(After(s, events[0], encode), events[1..], encode);
    }
  }

  lemma Assoc(a: seq<Event>, b: seq<Event>, c: seq<Event>)
    ensures a + (b + c) == a + b + c
  {
  }

  // ---------- replaying them ----------

  lemma {:induction false} IncreasingPairs(events: seq<Event>, i: nat, j: nat)
    requires Increasing(events) && i < j < |events|
    ensures KeyBefore(KeyOf(events[i]), KeyOf(events[j]))
  {
    if i < j - 1 {
      IncreasingPairs(events, i, j - 1);
      KeyTransitive(KeyOf(events[i]), KeyOf(events[j - 1]), KeyOf(events[j]));
    }
  }

  lemma {:induction false} IncreasingIsDistinct(events: seq<Event>)
    requires Increasing(events)
    ensures EventReplay.Distinct(events) == events && EventReplay.Repeated(events) == []
  {
    if events != [] {
      var n := |events| - 1;
      var front, last := events[..n], events[n];
      IncreasingIsDistinct(front);
      if last in front {
        var i :| 0 <= i < n && front[i] == last;
        IncreasingPairs(events, i, n);
        KeyTotal(KeyOf(events[i]), KeyOf(last));
        assert false;
      }
      assert events == front + [last];
    }
  }

  lemma IncreasingReplay(events: seq<Event>, start: int, end: int, r: Result<EventReplay.Replay>)
    requires Increasing(events) && 0 <= start <= end && EventReplay.Replays(events, None, start, end, r)
    ensures r.Success?
    ensures r.value.events == EventReplay.Within(events, start, end) && r.value.duplicates == []
    ensures OrderKeyConflict !in r.value.reasons
  {
    IncreasingIsDistinct(events);
    forall i | 0 < i < |events|
      ensures !KeyBefore(KeyOf(events[i]), KeyOf(events[i - 1])) && KeyOf(events[i]) != KeyOf(events[i - 1])
    {
      KeyTotal(KeyOf(events[i]), KeyOf(events[i - 1]));
    }
    assert EventReplay.Ordered(events);
    assert forall i :: !EventReplay.TiedAt(events, i);
  }

  /**
   * A log that starts empty and is written only by event appends replays, for any window, to precisely the accepted
   * events of that window in append order, without duplicates and without an order-key conflict.
   */
  lemma AppendedLogReplays(bootId: string, taken: Disk, events: seq<Event>, encode: Event -> Record,
                           parse: Record -> Line,
                           start: int, end: int, r: Result<EventReplay.Replay>)
    requires taken.manifest == [] && Faithful(events, encode, parse) && 0 <= start <= end
    requires var kept := Kept(Fresh(bootId, taken), events, encode);
             var disk := Close(RunEvents(Fresh(bootId, taken), events, encode)).disk;
             && kept != []
             && var (log, stop) := EventsOf(Replay(disk).records, Replay(disk).error, parse);
             EventReplay.Replays(log, stop, start, end, r)
    ensures var kept := Kept(Fresh(bootId, taken), events, encode);
            && r.Success?
            && r.value.events == EventReplay.Within(kept, start, end)
            && r.value.duplicates == []
            && OrderKeyConflict !in r.value.reasons
  {
    var s := Fresh(bootId, taken);
    var kept, t := Kept(s, events, encode), RunEvents(s, events, encode);
    assert HasLogged(s, [], encode);
    RunEventsLogs(s, [], events, encode);
    KeptMembers(s, events, encode);
    assert [] + kept == kept;
    CloseThenReplay(t);
    LoggedThenManifest(t);
    EncodedReadsBack(kept, encode, parse);
    IncreasingReplay(kept, start, end, r);
  }
}
