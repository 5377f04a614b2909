/** The append-only hourly shard writer and the replay that reads its records back. */
module Shard {
  import opened Common
  import opened Framing
  import opened Events

  const NS_PER_SECOND := 1_000_000_000
  const SECONDS_PER_HOUR := 3600

  /** First second after the last year that an hour label can name. */
  const LABEL_END := 253_402_300_800

  type Name = (nat, string)

  datatype Entry = Entry(hour: nat, bootId: string, payload: seq<Byte>, records: nat, first: int, last: int)

  /**
   * The evidence directory: finished shards, partial files and the manifest. A digest stands for the bytes it was
   * taken of.
   */
  datatype Disk = Disk(shards: map<Name, seq<Byte>>, partials: set<Name>, manifest: seq<Entry>)

  datatype Open = Open(content: seq<Byte>, records: nat, first: int, last: int)

  /** hour is the last hour a shard was opened for; it outlives a shard that was finished without a successor. */
  datatype WriterState = WriterState(
    bootId: string, hour: Option<nat>, shard: Option<Open>, closed: bool, lastKey: Option<Key>, disk: Disk)

  function HourOf(ns: int): Result<nat> {
    if ns < 0 then Failure("invalid recv_wall_ns")
    else if ns / NS_PER_SECOND >= LABEL_END then Failure("year out of range")
    else Success(ns / NS_PER_SECOND / SECONDS_PER_HOUR)
  }

  function Finalized(s: WriterState): WriterState {
    match (s.hour, s.shard)
    case (Some(hour), Some(open)) =>
      var name := (hour, s.bootId);
      var entry := Entry(hour, s.bootId, open.content, open.records, open.first, open.last);
      s.(shard := None,
         disk := Disk(s.disk.shards[name := open.content], s.disk.partials - {name}, s.disk.manifest + [entry]))
    case _ => s
  }

  predicate PathTaken(s: WriterState, hour: nat) {
    (hour, s.bootId) in s.disk.shards || (hour, s.bootId) in s.disk.partials
  }

  function Opened(s: WriterState, hour: nat): WriterState {
    s.(hour := Some(hour), shard := Some(Open([], 0, 0, 0)),
       disk := s.disk.(partials := s.disk.partials + {(hour, s.bootId)}))
  }

  function Written(s: WriterState, record: Record, ns: int): (WriterState, Result<bool>) {
    match s.shard
    case None => (s, Failure("no open shard"))
    case Some(open) =>
      var first := if open.records == 0 then ns else open.first;
      (s.(shard := Some(Open(open.content + Frame(record), open.records + 1, first, ns))), Success(true))
  }

  function Append(s: WriterState, record: Record, ns: int): (WriterState, Result<bool>) {
    if s.closed then (s, Failure("writer is closed"))
    else
      match HourOf(ns)
      case Failure(e) => (s, Failure(e))
      case Success(hour) =>
        if s.hour.Some? && hour < s.hour.value then (s, Failure("UTC hour moved backwards"))
        else if s.hour == Some(hour) then
          var w := Written(s, record, ns);
          (w.0, if w.1.Success? then Success(false) else w.1)
        else
          var f := Finalized(s);
          if PathTaken(f, hour) then (f, Failure("shard path already exists"))
          else
            var w := Written(Opened(f, hour), record, ns);
            (w.0, if w.1.Success? then Success(s.hour.Some?) else w.1)
  }

  /** encoded is the canonical encoding of the event. */
  function AppendEvent(s: WriterState, e: Event, encoded: Record): (WriterState, Result<bool>) {
    if e.bootId != s.bootId then (s, Failure("event boot differs from writer"))
    else if s.lastKey.Some? && !KeyBefore(s.lastKey.value, KeyOf(e)) then
      (s, Failure("event order key did not advance"))
    else
      var (t, r) := Append(s, encoded, e.recvNs);
      (if r.Success? then t.(lastKey := Some(KeyOf(e))) else t, r)
  }

  function Close(s: WriterState): WriterState {
    if s.closed then s else Finalized(s).(closed := true)
  }

  // ---------- replay ----------

  function ReplayEntries(entries: seq<Entry>, shards: map<Name, seq<Byte>>): Decoded {
    if entries == [] then Decoded([], None)
    else
      var e := entries[0];
      var name := (e.hour, e.bootId);
      if name !in shards then Decoded([], Some("missing shard evidence"))
      else if shards[name] != e.payload then Decoded([], Some("shard checksum mismatch"))
      else Joined(Decode(e.payload), ReplayEntries(entries[1..], shards))
  }

  function Joined(d: Decoded, rest: Decoded): Decoded {
    if d.error.Some? then d else Decoded(d.records + rest.records, rest.error)
  }

  function Replay(disk: Disk): Decoded {
    if disk.manifest == [] then Decoded([], Some("manifest files")) else ReplayEntries(disk.manifest, disk.shards)
  }

  lemma JoinedAssoc(a: Decoded, b: Decoded, c: Decoded)
    ensures Joined(Joined(a, b), c) == Joined(a, Joined(b, c))
  {
    assert a.records + b.records + c.records == a.records + (b.records + c.records);
  }

  lemma JoinedUnit(d: Decoded)
    ensures Joined(d, Decoded([], None)) == d && Joined(Decoded([], None), d) == d
  {
    assert d.records + [] == d.records && [] + d.records == d.records;
  }

  method ReplayRecords(disk: Disk) returns (d: Decoded)
    ensures d == Replay(disk)
  {
    if disk.manifest == [] {
      return Decoded([], Some("manifest files"));
    }
    d := Decoded([], None);
    JoinedUnit(Replay(disk));
    var i := 0;
    while i < |disk.manifest|
      invariant 0 <= i <= |disk.manifest| && d.error.None?
      invariant Replay(disk) == Joined(d, ReplayEntries(disk.manifest[i..], disk.shards))
    {
      var e := disk.manifest[i];
      var name := (e.hour, e.bootId);
      ghost var rest := ReplayEntries(disk.manifest[i + 1..], disk.shards);
      assert disk.manifest[i..][1..] == disk.manifest[i + 1..];
      if name !in disk.shards {
        return Decoded(d.records + [], Some("missing shard evidence"));
      }
      if disk.shards[name] != e.payload {
        return Decoded(d.records + [], Some("shard checksum mismatch"));
      }
      var next := ReadFrames(e.payload);
      JoinedAssoc(d, next, rest);
      d := Joined(d, next);
      if d.error.Some? {
        return;
      }
      i := i + 1;
    }
    JoinedUnit(d);
  }

  // ---------- what a state has logged ----------

  function ManifestRecords(entries: seq<Entry>): seq<Record> {
    if entries == [] then [] else Decode(entries[0].payload).records + ManifestRecords(entries[1..])
  }

  lemma {:induction false} ManifestRecordsAppend(entries: seq<Entry>, e: Entry)
    ensures ManifestRecords(entries + [e]) == ManifestRecords(entries) + Decode(e.payload).records
  {
    if entries == [] {
      assert ([] + [e])[1..] == [];
    } else {
      assert (entries + [e])[1..] == entries[1..] + [e];
      ManifestRecordsAppend(entries[1..], e);
    }
  }

  /** Every record accepted so far, finished or not. */
  function Logged(s: WriterState): seq<Record> {
    ManifestRecords(s.disk.manifest) + if s.shard.Some? then Decode(s.shard.value.content).records else []
  }

  predicate InHour(ns: int, hour: nat) {
    HourOf(ns) == Success(hour)
  }

  /** The entry names a shard that holds its bytes, counts its records and dates them within its hour. */
  predicate TruthfulEntry(e: Entry, shards: map<Name, seq<Byte>>) {
    && (e.hour, e.bootId) in shards
    && shards[(e.hour, e.bootId)] == e.payload
    && Decode(e.payload).error.None?
    && |Decode(e.payload).records| == e.records
    && InHour(e.first, e.hour)
    && InHour(e.last, e.hour)
  }

  ghost predicate TruthfulManifest(disk: Disk) {
    forall i :: 0 <= i < |disk.manifest| ==> TruthfulEntry(disk.manifest[i], disk.shards)
  }

  predicate TruthfulShard(s: WriterState, hour: nat, open: Open) {
    && !s.closed
    && (hour, s.bootId) in s.disk.partials
    && (hour, s.bootId) !in s.disk.shards
    && Decode(open.content).error.None?
    && |Decode(open.content).records| == open.records
    && InHour(open.last, hour)
    && InHour(open.first, hour)
  }

  ghost predicate Truthful(s: WriterState) {
    && TruthfulManifest(s.disk)
    && (s.shard.Some? ==> s.hour.Some? && TruthfulShard(s, s.hour.value, s.shard.value))
  }

  /** Finished evidence is never rewritten: the manifest only grows and every shard keeps its bytes. */
  ghost predicate OnlyAdds(before: Disk, after: Disk) {
    && before.manifest <= after.manifest
    && forall n :: n in before.shards ==> n in after.shards && after.shards[n] == before.shards[n]
  }

  lemma FinalizeKeeps(s: WriterState)
    requires Truthful(s)
    ensures var f := Finalized(s); Truthful(f) && f.shard.None? && Logged(f) == Logged(s) && OnlyAdds(s.disk, f.disk)
  {
    var f := Finalized(s);
    if s.shard.Some? {
      var e := f.disk.manifest[|s.disk.manifest|];
      ManifestRecordsAppend(s.disk.manifest, e);
      forall i | 0 <= i < |f.disk.manifest|
        ensures TruthfulEntry(f.disk.manifest[i], f.disk.shards)
      {
        assert i < |s.disk.manifest| ==> TruthfulEntry(s.disk.manifest[i], s.disk.shards);
      }
    }
  }

  lemma DecodeAppend(content: seq<Byte>, record: Record)
    requires Decode(content).error.None? && Storable(record)
    ensures Decode(content + Frame(record)) == Decoded(Decode(content).records + [record], None)
  {
    DecodedRoundTrip(content);
    assert Frame(record) == Frame(record) + [];
    DecodeFrame(record, []);
    DecodeFrames(Decode(content).records, Frame(record));
  }

  lemma WrittenKeeps(s: WriterState, hour: nat, record: Record, ns: int)
    requires TruthfulManifest(s.disk) && s.hour == Some(hour) && s.shard.Some? && Storable(record) && InHour(ns, hour)
    requires || TruthfulShard(s, hour, s.shard.value)
             || (&& TruthfulShard(s, hour, Open([], 0, ns, ns))
                 && s.shard.value.content == [] && s.shard.value.records == 0)
    ensures var t := Written(s, record, ns).0; Truthful(t) && Logged(t) == Logged(s) + [record] && t.disk == s.disk
  {
    DecodeAppend(s.shard.value.content, record);
  }

  /** The same append into the open shard, or into a new one after the old is finished. */
  lemma AppendOpen(s: WriterState, record: Record, ns: int, hour: nat)
    requires Truthful(s) && Storable(record) && InHour(ns, hour) && s.hour == Some(hour)
    ensures var (t, r) := Written(s, record, ns);
            Truthful(t) && Logged(t) == Logged(s) + (if r.Success? then [record] else []) && t.disk == s.disk
  {
    assert Logged(s) + [] == Logged(s);
    if s.shard.Some? {
      WrittenKeeps(s, hour, record, ns);
    }
  }

  lemma AppendNew(f: WriterState, record: Record, ns: int, hour: nat)
    requires Truthful(f) && f.shard.None? && !f.closed && Storable(record) && InHour(ns, hour) && !PathTaken(f, hour)
    ensures var t := Written(Opened(f, hour), record, ns).0;
            Truthful(t) && Logged(t) == Logged(f) + [record] && OnlyAdds(f.disk, t.disk)
  {
    WrittenKeeps(Opened(f, hour), hour, record, ns);
    assert ManifestRecords(f.disk.manifest) + [] == ManifestRecords(f.disk.manifest);
  }

  /** Every append keeps the evidence truthful; it logs the record if it succeeds and logs nothing if it fails. */
  lemma AppendLogs(s: WriterState, record: Record, ns: int)
    requires Truthful(s) && Storable(record)
    ensures var (t, r) := Append(s, record, ns);
            && Truthful(t)
            && Logged(t) == Logged(s) + (if r.Success? then [record] else [])
            && OnlyAdds(s.disk, t.disk)
  {
    var f := Finalized(s);
    FinalizeKeeps(s);
    assert Logged(s) + [] == Logged(s);
    if !s.closed && HourOf(ns).Success? {
      var hour := HourOf(ns).value;
      if s.hour == Some(hour) {
        AppendOpen(s, record, ns, hour);
      } else if !PathTaken(f, hour) {
        AppendNew(f, record, ns, hour);
      }
    }
  }

  // ---------- closing and replaying ----------

  lemma {:induction false} TruthfulEntriesReplay(entries: seq<Entry>, shards: map<Name, seq<Byte>>)
    requires forall i :: 0 <= i < |entries| ==> TruthfulEntry(entries[i], shards)
    ensures ReplayEntries(entries, shards) == Decoded(ManifestRecords(entries), None)
  {
    if entries != [] {
      assert TruthfulEntry(entries[0], shards);
      forall i | 0 <= i < |entries[1..]|
        ensures TruthfulEntry(entries[1..][i], shards)
      {
        assert entries[1..][i] == entries[i + 1];
      }
      TruthfulEntriesReplay(entries[1..], shards);
    }
  }

  /** A closed log replays exactly what was accepted; a log with no record has no manifest and does not replay. */
  lemma CloseThenReplay(s: WriterState)
    requires Truthful(s)
    ensures var disk := Close(s).disk;
            && OnlyAdds(s.disk, disk)
            && Replay(disk)
            == (if disk.manifest == [] then Decoded([], Some("manifest files")) else Decoded(Logged(s), None))
  {
    FinalizeKeeps(s);
    var disk := Close(s).disk;
    TruthfulEntriesReplay(disk.manifest, disk.shards);
    assert s.shard.None? ==> Logged(s) == ManifestRecords(s.disk.manifest);
  }

  datatype Item = Item(record: Record, ns: int)

  ghost predicate StorableItems(items: seq<Item>) {
    forall i :: 0 <= i < |items| ==> Storable(items[i].record)
  }

  function After(s: WriterState, item: Item): WriterState {
    Append(s, item.record, item.ns).0
  }

  function AcceptedOne(s: WriterState, item: Item): seq<Record> {
    if Append(s, item.record, item.ns).1.Success? then [item.record] else []
  }

  function Run(s: WriterState, items: seq<Item>): WriterState
    decreases |items|
  {
    if items == [] then s else Run(After(s, items[0]), items[1..])
  }

  /** The records that a run of appends accepts. */
  function Accepted(s: WriterState, items: seq<Item>): seq<Record>
    decreases |items|
  {
    if items == [] then [] else AcceptedOne(s, items[0]) + Accepted(After(s, items[0]), items[1..])
  }

  lemma {:induction false} RunLogs(s: WriterState, items: seq<Item>)
    requires Truthful(s) && StorableItems(items)
    ensures Truthful(Run(s, items)) && Logged(Run(s, items)) == Logged(s) + Accepted(s, items)
    ensures OnlyAdds(s.disk, Run(s, items).disk)
    decreases |items|
  {
    if items == [] {
      assert Logged(s) + [] == Logged(s);
    } else {
      var t := After(s, items[0]);
      OneLogs(s, items[0]);
      RunLogs(t, items[1..]);
      Assoc(Logged(s), AcceptedOne(s, items[0]), Accepted(t, items[1..]));
    }
  }

  lemma OneLogs(s: WriterState, item: Item)
    requires Truthful(s) && Storable(item.record)
    ensures Truthful(After(s, item)) && Logged(After(s, item)) == Logged(s) + AcceptedOne(s, item)
    ensures OnlyAdds(s.disk, After(s, item).disk)
  {
    AppendLogs(s, item.record, item.ns);
  }

  lemma Assoc(a: seq<Record>, b: seq<Record>, c: seq<Record>)
    ensures a + (b + c) == a + b + c
  {
  }

  // ---------- runs that lose nothing ----------

  function Records(items: seq<Item>): seq<Record> {
    if items == [] then [] else [items[0].record] + Records(items[1..])
  }

  predicate HourFree(s: WriterState, ns: int) {
    HourOf(ns).Success? && !PathTaken(s, HourOf(ns).value)
  }

  /** Times that can be labelled, with hours that never move backwards. */
  ghost predicate Forward(items: seq<Item>) {
    && (forall i :: 0 <= i < |items| ==> HourOf(items[i].ns).Success?)
    && (forall i :: 0 < i < |items| ==> HourOf(items[i - 1].ns).value <= HourOf(items[i].ns).value)
  }

  /** Every hour still to come is the open one or has no shard of this boot yet. */
  ghost predicate Ready(s: WriterState, items: seq<Item>)
    requires Forward(items)
  {
    && !s.closed
    && (s.shard.None? ==> s.hour.None?)
    && (items != [] && s.hour.Some? ==> s.hour.value <= HourOf(items[0].ns).value)
    && forall i :: 0 <= i < |items| ==> HourFree(s, items[i].ns) || s.hour == Some(HourOf(items[i].ns).value)
  }

  lemma {:induction false} ForwardFromFirst(items: seq<Item>, i: nat)
    requires Forward(items) && i < |items|
    ensures HourOf(items[0].ns).value <= HourOf(items[i].ns).value
  {
    if i > 0 {
      ForwardFromFirst(items, i - 1);
    }
  }

  lemma ForwardTail(items: seq<Item>)
    requires Forward(items) && items != []
    ensures Forward(items[1..])
  {
    var rest := items[1..];
    assert forall i :: 0 <= i < |rest| ==> rest[i] == items[i + 1];
    forall i | 0 < i < |rest|
      ensures HourOf(rest[i - 1].ns).value <= HourOf(rest[i].ns).value
    {
      var j := i + 1;
      assert rest[i] == items[j] && rest[i - 1] == items[j - 1];
    }
  }

  lemma ReadyStep(s: WriterState, items: seq<Item>)
    requires Truthful(s) && StorableItems(items) && Forward(items) && Ready(s, items) && items != []
    ensures Forward(items[1..])
    ensures AcceptedOne(s, items[0]) == [items[0].record] && Ready(After(s, items[0]), items[1..])
  {
    ForwardTail(items);
    assert HourFree(s, items[0].ns) || s.hour == Some(HourOf(items[0].ns).value);
    var hour := HourOf(items[0].ns).value;
    var (t, r) := Append(s, items[0].record, items[0].ns);
    assert t.hour == Some(hour);
    forall i | 0 <= i < |items[1..]|
      ensures HourFree(t, items[1..][i].ns) || t.hour == Some(HourOf(items[1..][i].ns).value)
    {
      var j := i + 1;
      assert items[1..][i] == items[j];
      assert HourFree(s, items[j].ns) || s.hour == Some(HourOf(items[j].ns).value);
      ForwardFromFirst(items, j);
    }
    assert items[1..] != [] ==> items[1..][0] == items[1];
  }

  lemma {:induction false} ForwardAcceptsAll(s: WriterState, items: seq<Item>)
    requires Truthful(s) && StorableItems(items) && Forward(items) && Ready(s, items)
    ensures Accepted(s, items) == Records(items)
    decreases |items|
  {
    if items != [] {
      ReadyStep(s, items);
      OneLogs(s, items[0]);
      ForwardAcceptsAll(After(s, items[0]), items[1..]);
    }
  }

  function Fresh(bootId: string, disk: Disk): WriterState {
    WriterState(bootId, None, None, false, None, disk)
  }

  lemma FreshLogs(bootId: string, disk: Disk)
    ensures Logged(Fresh(bootId, disk)) == ManifestRecords(disk.manifest)
  {
  }

  lemma LoggedThenManifest(s: WriterState)
    requires Truthful(s) && Logged(s) != []
    ensures Close(s).disk.manifest != []
  {
  }

  /**
   * Writing any records with hours that never move backwards, closing and replaying returns the earlier records of the
   * log and then exactly these, in order, across all the hourly shards.
   */
  lemma WriteThenReplay(bootId: string, disk: Disk, items: seq<Item>)
    requires TruthfulManifest(disk) && StorableItems(items) && Forward(items) && items != []
    requires forall i :: 0 <= i < |items| ==> HourFree(Fresh(bootId, disk), items[i].ns)
    ensures var after := Close(Run(Fresh(bootId, disk), items)).disk;
            OnlyAdds(disk, after) && Replay(after) == Decoded(ManifestRecords(disk.manifest) + Records(items), None)
  {
    var s := Fresh(bootId, disk);
    RunLogs(s, items);
    ForwardAcceptsAll(s, items);
    CloseThenReplay(Run(s, items));
    FreshLogs(bootId, disk);
    LoggedThenManifest(Run(s, items));
    assert Records(items) != [];
  }

  // ---------- damage ----------

  /**
   * Whatever happens to the shard files afterwards, a replay yields only a leading part of what the manifest promises,
   * and one that finishes yields all of it.
   */
  lemma {:induction false} DamageNeverMisreads(entries: seq<Entry>, shards: map<Name, seq<Byte>>)
    requires forall i :: 0 <= i < |entries| ==> Decode(entries[i].payload).error.None?
    ensures var d := ReplayEntries(entries, shards);
            d.records <= ManifestRecords(entries) && (d.error.None? ==> d.records == ManifestRecords(entries))
    ensures ReplayEntries(entries, shards).error.None? <==>
            forall i :: 0 <= i < |entries| ==>
              (entries[i].hour, entries[i].bootId) in shards
              && shards[(entries[i].hour, entries[i].bootId)] == entries[i].payload
  {
    if entries != [] {
      var rest := entries[1..];
      forall i | 0 <= i < |rest|
        ensures Decode(rest[i].payload).error.None?
      {
        var j := i + 1;
        assert rest[i] == entries[j];
      }
      DamageNeverMisreads(rest, shards);
      assert forall i :: 0 < i < |entries| ==> entries[i] == rest[i - 1];
    }
  }

  // ---------- the writer ----------

  class ShardWriter {
    const bootId: string
    var hour: Option<nat>
    var shard: Option<Open>
    var closed: bool
    var lastKey: Option<Key>
    var shards: map<Name, seq<Byte>>
    var partials: set<Name>
    var manifest: seq<Entry>

    function State(): WriterState
      reads this
    {
      WriterState(bootId, hour, shard, closed, lastKey, Disk(shards, partials, manifest))
    }

    constructor (bootId: string, disk: Disk)
      ensures State() == Fresh(bootId, disk)
    {
      this.bootId := bootId;
      hour, shard, closed, lastKey := None, None, false, None;
      shards, partials, manifest := disk.shards, disk.partials, disk.manifest;
    }

    method Finalize()
      modifies this
      ensures State() == Finalized(old(State()))
    {
      if hour.Some? && shard.Some? {
        var name, open := (hour.value, bootId), shard.value;
        shards := shards[name := open.content];
        partials := partials - {name};
        manifest := manifest + [Entry(hour.value, bootId, open.content, open.records, open.first, open.last)];
        shard := None;
      }
    }

    method AppendRecord(record: Record, ns: int) returns (r: Result<bool>)
      requires Storable(record)
      modifies this
      ensures (State(), r) == Append(old(State()), record, ns)
    {
      if closed {
        return Failure("writer is closed");
      }
      var hourLabel := HourOf(ns);
      if hourLabel.Failure? {
        return Failure(hourLabel.error);
      }
      var finalized := hour.Some? && hour.value != hourLabel.value;
      if hour.Some? && hourLabel.value < hour.value {
        return Failure("UTC hour moved backwards");
      }
      if hour != Some(hourLabel.value) {
        Finalize();
        var name := (hourLabel.value, bootId);
        if name in shards || name in partials {
          return Failure("shard path already exists");
        }
        partials := partials + {name};
        hour, shard := Some(hourLabel.value), Some(Open([], 0, 0, 0));
      }
      if shard.None? {
        return Failure("no open shard");
      }
      var open := shard.value;
      shard := Some(Open(open.content + Frame(record), open.records + 1,
          if open.records == 0 then ns else open.first, ns));
      return Success(finalized);
    }

    method AppendDurable(e: Event, encoded: Record) returns (r: Result<bool>)
      requires Storable(encoded)
      modifies this
      ensures (State(), r) == AppendEvent(old(State()), e, encoded)
    {
      if e.bootId != bootId {
        return Failure("event boot differs from writer");
      }
      var key := KeyOf(e);
      if lastKey.Some? && !KeyBefore(lastKey.value, key) {
        return Failure("event order key did not advance");
      }
      r := AppendRecord(encoded, e.recvNs);
      if r.Success? {
        lastKey := Some(key);
      }
    }

    method CloseWriter()
      modifies this
      ensures State() == Close(old(State()))
    {
      if !closed {
        Finalize();
        closed := true;
      }
    }
  }
}
