/** What each operation of the shard writer answers, and how the manifest dates what was accepted. */
module ShardOperations {
  import opened Common
  import opened Framing
  import opened Events
  import opened Shard

  // ---------- answers ----------

  const HOUR_NS := 3_600_000_000_000

  /** No finished shard and no partial file of this writer has the hour. */
  predicate NameFree(s: WriterState, hour: nat) {
    (hour, s.bootId) !in s.disk.shards.Keys + s.disk.partials
  }

  /** The writer can store a record of the hour: in its open shard, or in a new one that takes a free name. */
  predicate HasRoom(s: WriterState, hour: nat) {
    if s.hour == Some(hour) then s.shard.Some? else NameFree(s, hour)
  }

  predicate MayAppend(s: WriterState, ns: int) {
    && !s.closed && 0 <= ns < 253_402_300_800_000_000_000
    && (s.hour.Some? ==> s.hour.value <= ns / HOUR_NS)
    && HasRoom(s, ns / HOUR_NS)
  }

  lemma HourIs(ns: int)
    ensures HourOf(ns).Success? <==> 0 <= ns < 253_402_300_800_000_000_000
    ensures HourOf(ns).Success? ==> HourOf(ns).value == ns / HOUR_NS
  {
  }

  /**
   * A record is stored exactly when the writer is open, its hour can be named, is not behind the writer's and has
   * room; the answer says whether it started a new hour after an earlier one.
   */
  lemma AppendIff(s: WriterState, record: Record, ns: int)
    requires s.shard.Some? ==> s.hour.Some?
    ensures var (t, r) := Append(s, record, ns);
            && (r.Success? <==> MayAppend(s, ns))
            && (r.Success? ==> (r.value <==> s.hour.Some? && s.hour.value < ns / HOUR_NS))
            && (r.Success? ==> t.hour == Some(ns / HOUR_NS) && t.shard.Some?)
            && t.closed == s.closed && t.lastKey == s.lastKey && t.bootId == s.bootId
  {
    HourIs(ns);
  }

  /** A later order key: by time, then by boot, then by sequence within the boot. */
  predicate Advances(last: Option<Key>, e: Event) {
    last.Some? ==>
      || last.value.recvNs < e.recvNs
      || (last.value.recvNs == e.recvNs && TextBefore(last.value.bootId, e.bootId))
      || (last.value.recvNs == e.recvNs && last.value.bootId == e.bootId
          && last.value.seqWithinBoot < e.seqWithinBoot)
  }

  /** An event is stored exactly when it is of the writer's boot, its key advances and its record can be stored. */
  lemma AppendEventIff(s: WriterState, e: Event, encoded: Record)
    requires s.shard.Some? ==> s.hour.Some?
    ensures var (t, r) := AppendEvent(s, e, encoded);
            && (r.Success? <==> e.bootId == s.bootId && Advances(s.lastKey, e) && MayAppend(s, e.recvNs))
            && (r.Success? ==> t == Append(s, encoded, e.recvNs).0.(lastKey := Some(KeyOf(e))))
            && t.lastKey == (if r.Success? then Some(Key(e.recvNs, e.bootId, e.seqWithinBoot)) else s.lastKey)
  {
    AppendIff(s, encoded, e.recvNs);
  }

  /** A closed writer takes nothing and changes nothing any more. */
  lemma CloseIsFinal(s: WriterState, record: Record, ns: int, e: Event)
    requires (s.shard.Some? ==> s.hour.Some?) && (s.closed ==> s.shard.None?)
    ensures var t := Close(s);
            && t.closed && t.shard.None?
            && Append(t, record, ns).0 == t && Append(t, record, ns).1.Failure?
            && AppendEvent(t, e, record).0 == t && AppendEvent(t, e, record).1.Failure?
            && Close(t) == t
  {
  }

  // ---------- how the manifest dates the records ----------

  /** The records of the entries before entry n, counted from entry m on. */
  function CountBefore(entries: seq<Entry>, m: nat, n: nat): nat
    requires m <= n <= |entries|
  {
    if n == m then 0 else CountBefore(entries, m, n - 1) + entries[n - 1].records
  }

  /** A shard of so many records after the first ones, dated by the first and the last of them. */
  predicate DatedBy(times: seq<int>, before: nat, records: nat, first: int, last: int) {
    && records >= 1 && before + records <= |times|
    && first == times[before] && last == times[before + records - 1]
  }

  predicate EntryDated(entries: seq<Entry>, m: nat, i: nat, times: seq<int>)
    requires m <= i < |entries|
  {
    DatedBy(times, CountBefore(entries, m, i), entries[i].records, entries[i].first, entries[i].last)
  }

  predicate OpenDated(s: WriterState, before: nat, times: seq<int>) {
    match s.shard
    case None => |times| == before
    case Some(open) =>
      && s.hour.Some? && DatedBy(times, before, open.records, open.first, open.last)
      && |times| == before + open.records
  }

  /** From entry m on, manifest and open shard divide the accepted times among them, in order. */
  predicate Dated(s: WriterState, m: nat, times: seq<int>) {
    && m <= |s.disk.manifest|
    && (forall i :: m <= i < |s.disk.manifest| ==> EntryDated(s.disk.manifest, m, i, times))
    && OpenDated(s, CountBefore(s.disk.manifest, m, |s.disk.manifest|), times)
  }

  lemma {:induction false} CountAgrees(entries: seq<Entry>, e: Entry, m: nat, n: nat)
    requires m <= n <= |entries|
    ensures CountBefore(entries + [e], m, n) == CountBefore(entries, m, n)
  {
    if n > m {
      CountAgrees(entries, e, m, n - 1);
    }
  }

  lemma DatedFinalized(s: WriterState, m: nat, times: seq<int>)
    requires Dated(s, m, times)
    ensures Dated(Finalized(s), m, times) && Finalized(s).shard.None?
  {
    if s.shard.Some? {
      var entries, f := s.disk.manifest, Finalized(s);
      var e := f.disk.manifest[|entries|];
      CountAgrees(entries, e, m, |entries|);
      forall i | m <= i < |entries|
        ensures EntryDated(f.disk.manifest, m, i, times)
      {
        assert EntryDated(entries, m, i, times);
        CountAgrees(entries, e, m, i);
      }
    }
  }

  lemma MoreTimes(s: WriterState, m: nat, times: seq<int>, ns: int)
    requires Dated(s, m, times)
    ensures forall i :: m <= i < |s.disk.manifest| ==> EntryDated(s.disk.manifest, m, i, times + [ns])
  {
    forall i | m <= i < |s.disk.manifest|
      ensures EntryDated(s.disk.manifest, m, i, times + [ns])
    {
      assert EntryDated(s.disk.manifest, m, i, times);
    }
  }

  lemma AppendDated(s: WriterState, m: nat, times: seq<int>, item: Item)
    requires Dated(s, m, times)
    ensures Dated(After(s, item), m, times + if MayAppend(s, item.ns) then [item.ns] else [])
  {
    AppendIff(s, item.record, item.ns);
    HourIs(item.ns);
    assert times + [] == times;
    DatedFinalized(s, m, times);
    MoreTimes(s, m, times, item.ns);
    MoreTimes(Finalized(s), m, times, item.ns);
  }

  /** The times at which a run of appends stores a record. */
  function StoredAt(s: WriterState, items: seq<Item>): seq<int>
    decreases |items|
  {
    if items == [] then []
    else (if MayAppend(s, items[0].ns) then [items[0].ns] else []) + StoredAt(After(s, items[0]), items[1..])
  }

  lemma {:induction false} RunDated(s: WriterState, m: nat, times: seq<int>, items: seq<Item>)
    requires Dated(s, m, times)
    ensures Dated(Run(s, items), m, times + StoredAt(s, items))
    decreases |items|
  {
    if items == [] {
      assert times + [] == times;
    } else {
      var now := if MayAppend(s, items[0].ns) then [items[0].ns] else [];
      AppendDated(s, m, times, items[0]);
      RunDated(After(s, items[0]), m, times + now, items[1..]);
      assert times + now + StoredAt(After(s, items[0]), items[1..]) == times + StoredAt(s, items);
    }
  }

  /**
   * However a new writer is used, once it is closed its entries divide the stored records among them in order, and
   * each entry is dated by the first and the last record of its shard.
   */
  lemma EntriesDateTheirRecords(bootId: string, disk: Disk, items: seq<Item>)
    ensures var t, m := Close(Run(Fresh(bootId, disk), items)), |disk.manifest|;
            && Dated(t, m, StoredAt(Fresh(bootId, disk), items))
            && CountBefore(t.disk.manifest, m, |t.disk.manifest|) == |StoredAt(Fresh(bootId, disk), items)|
  {
    var s := Fresh(bootId, disk);
    assert [] + StoredAt(s, items) == StoredAt(s, items);
    RunDated(s, |disk.manifest|, [], items);
    DatedFinalized(Run(s, items), |disk.manifest|, StoredAt(s, items));
    StaysOpen(s, items);
  }

  lemma {:induction false} StaysOpen(s: WriterState, items: seq<Item>)
    requires s.shard.Some? ==> s.hour.Some?
    ensures Run(s, items).closed == s.closed
    decreases |items|
  {
    if items != [] {
      AppendIff(s, items[0].record, items[0].ns);
      StaysOpen(After(s, items[0]), items[1..]);
    }
  }
}
