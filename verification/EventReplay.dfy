/**
 * Ordered replay of durable events in a wall-time window: exact redelivery is ignored, conflicts become freeze
 * reasons.
 */
module EventReplay {
  import opened Common
  import opened Events
  import OrderBindings
  import ReplayOrder

  datatype Replay = Replay(
    events: seq<Event>, duplicates: seq<Event>, bindings: set<OrderBinding>, reasons: set<Reason>)

  // ---------- what a replay means ----------

  /** The first occurrence of every event, in order. */
  function Distinct(log: seq<Event>): (d: seq<Event>) {
    if log == [] then []
    else
      var front, last := log[..|log| - 1], log[|log| - 1];
      if last in front then Distinct(front) else Distinct(front) + [last]
  }

  /** Every later occurrence, in order. */
  function Repeated(log: seq<Event>): seq<Event> {
    if log == [] then []
    else
      var front, last := log[..|log| - 1], log[|log| - 1];
      if last in front then Repeated(front) + [last] else Repeated(front)
  }

  predicate InWindow(e: Event, start: int, end: int) {
    start <= e.recvNs <= end
  }

  function Within(log: seq<Event>, start: int, end: int): seq<Event> {
    if log == [] then []
    else
      var front, last := log[..|log| - 1], log[|log| - 1];
      Within(front, start, end) + if InWindow(last, start, end) then [last] else []
  }

  ghost predicate Ordered(log: seq<Event>) {
    forall i :: 0 < i < |log| ==> !KeyBefore(KeyOf(log[i]), KeyOf(log[i - 1]))
  }

  ghost predicate TiedAt(log: seq<Event>, i: int) {
    0 < i < |log| && KeyOf(log[i - 1]) == KeyOf(log[i])
  }

  predicate LedgerOf(e: Event, entryId: string) {
    e.payload.LedgerEntry? && e.payload.entryId == entryId
  }

  predicate LeaseOf(e: Event, account: string, epoch: int) {
    e.payload.LeaseAcquired? && e.payload.account == account && e.payload.epoch == epoch
  }

  predicate SameSubject(a: Event, b: Event, r: Reason) {
    match r
    case EntryIdConflict(id) => LedgerOf(a, id) && LedgerOf(b, id)
    case LeaseEpochConflict(account, epoch) => LeaseOf(a, account, epoch) && LeaseOf(b, account, epoch)
    case _ => false
  }

  /** Two different events of the window claim the same ledger entry or the same lease epoch. */
  ghost predicate SemanticConflict(events: seq<Event>, r: Reason) {
    exists a, b :: a in events && b in events && a != b && SameSubject(a, b, r)
  }

  ghost predicate FreezeReason(log: seq<Event>, events: seq<Event>, bindings: set<OrderBinding>, r: Reason) {
    || (r == OrderKeyConflict && exists i :: TiedAt(Distinct(log), i))
    || SemanticConflict(events, r)
    || OrderBindings.Conflict(events, r)
    || ReplayOrder.Reported(events, bindings, r)
  }

  /** v is the replay of the window. */
  ghost predicate IsReplay(log: seq<Event>, start: int, end: int, v: Replay) {
    && v.events == Within(Distinct(log), start, end)
    && v.duplicates == Within(Repeated(log), start, end)
    && (forall b :: b in v.bindings <==> exists i :: ReplayOrder.ObservesAt(v.events, i, b))
    && (forall r :: r in v.reasons <==> FreezeReason(log, v.events, v.bindings, r))
  }

  /** stop is the error, if any, that ends the stream of decoded events. */
  ghost predicate Replays(log: seq<Event>, stop: Option<string>, start: int, end: int, r: Result<Replay>) {
    if !(0 <= start <= end) then r == Failure("invalid replay window")
    else if !Ordered(Distinct(log)) then r == Failure("event order key moved backwards")
    else if stop.Some? then r == Failure(stop.value)
    else r.Success? && IsReplay(log, start, end, r.value)
  }

  // ---------- semantic conflicts, one event at a time ----------

  type EntryTable = map<string, Event>
  type EpochTable = map<(string, int), Event>

  ghost predicate EntriesIndexed(entries: EntryTable, events: seq<Event>) {
    && (forall id :: id in entries ==> entries[id] in events && LedgerOf(entries[id], id))
    && (forall e :: e in events && e.payload.LedgerEntry? ==> e.payload.entryId in entries)
  }

  ghost predicate EpochsIndexed(leases: EpochTable, events: seq<Event>) {
    && (forall k :: k in leases ==> leases[k] in events && LeaseOf(leases[k], k.0, k.1))
    && (forall e :: e in events && e.payload.LeaseAcquired? ==> (e.payload.account, e.payload.epoch) in leases)
  }

  function EntriesWith(entries: EntryTable, e: Event): EntryTable {
    if e.payload.LedgerEntry? then OrderBindings.SetDefault(entries, e.payload.entryId, e) else entries
  }

  function EpochsWith(leases: EpochTable, e: Event): EpochTable {
    if e.payload.LeaseAcquired? then OrderBindings.SetDefault(leases, (e.payload.account, e.payload.epoch), e)
    else leases
  }

  function ConflictOf(e: Event, entries: EntryTable, leases: EpochTable): Option<Reason> {
    match e.payload
    case LedgerEntry(id) => if id in entries && entries[id] != e then Some(EntryIdConflict(id)) else None
    case LeaseAcquired(account, epoch, _, _) =>
      if (account, epoch) in leases && leases[(account, epoch)] != e then Some(LeaseEpochConflict(account, epoch))
      else None
    case _ => None
  }

  lemma IndexedStep(events: seq<Event>, e: Event, entries: EntryTable, leases: EpochTable)
    requires EntriesIndexed(entries, events) && EpochsIndexed(leases, events)
    ensures EntriesIndexed(EntriesWith(entries, e), events + [e]) && EpochsIndexed(EpochsWith(leases, e), events + [e])
  {
    assert forall x :: x in events + [e] <==> x in events || x == e;
  }

  lemma ConflictStep(events: seq<Event>, e: Event, entries: EntryTable, leases: EpochTable, r: Reason)
    requires EntriesIndexed(entries, events) && EpochsIndexed(leases, events) && e !in events
    ensures SemanticConflict(events + [e], r) <==>
              SemanticConflict(events, r) || ConflictOf(e, entries, leases) == Some(r)
  {
    var more := events + [e];
    assert forall x :: x in more <==> x in events || x == e;
    if ConflictOf(e, entries, leases) == Some(r) {
      var first := if e.payload.LedgerEntry? then entries[e.payload.entryId] else leases[(e.payload.account,
          e.payload.epoch)];
      assert first in events && SameSubject(first, e, r);
    }
    if a, b :| a in more && b in more && a != b && SameSubject(a, b, r) {
      assert SameSubject(b, a, r);
      if a == e {
        assert b in events;
      } else if b == e {
        assert a in events;
      }
    }
  }

  // ---------- what a replay holds ----------

  /** Position i is the first of its event. */
  predicate FirstAt(log: seq<Event>, i: nat)
    requires i < |log|
  {
    log[i] !in log[..i]
  }

  /** The first occurrences of a and b stand in the log in this order. */
  predicate InOrderOf(log: seq<Event>, a: Event, b: Event) {
    exists i, k :: 0 <= i < k < |log| && log[i] == a && log[k] == b && FirstAt(log, i) && FirstAt(log, k)
  }

  /** How often an event occurs in the window's part of a log. */
  lemma {:induction false} WithinCounts(log: seq<Event>, start: int, end: int, e: Event)
    ensures multiset(Within(log, start, end))[e] == if start <= e.recvNs <= end then multiset(log)[e] else 0
  {
    if log != [] {
      var front, last := log[..|log| - 1], log[|log| - 1];
      WithinCounts(front, start, end, e);
      assert log == front + [last];
    }
  }

  lemma {:induction false} DistinctCounts(log: seq<Event>, e: Event)
    ensures multiset(Distinct(log))[e] == if e in log then 1 else 0
    ensures multiset(Repeated(log))[e] == if e in log then multiset(log)[e] - 1 else 0
  {
    if log != [] {
      var front, last := log[..|log| - 1], log[|log| - 1];
      DistinctCounts(front, e);
      assert log == front + [last];
      assert e in front <==> multiset(front)[e] > 0;
    }
  }

  lemma FirstInPrefix(log: seq<Event>, last: Event, a: Event, b: Event)
    requires InOrderOf(log, a, b)
    ensures InOrderOf(log + [last], a, b)
  {
    var i, k :| 0 <= i < k < |log| && log[i] == a && log[k] == b && FirstAt(log, i) && FirstAt(log, k);
    var more := log + [last];
    assert more[..i] == log[..i] && more[..k] == log[..k];
    assert FirstAt(more, i) && FirstAt(more, k);
  }

  lemma {:induction false} FirstOf(log: seq<Event>, e: Event) returns (i: nat)
    requires e in log
    ensures i < |log| && log[i] == e && FirstAt(log, i)
  {
    var front, last := log[..|log| - 1], log[|log| - 1];
    assert log == front + [last];
    if e in front {
      i := FirstOf(front, e);
      assert log[..i] == front[..i];
    } else {
      i := |log| - 1;
      assert log[..i] == front;
    }
  }

  lemma {:induction false} DistinctInOrder(log: seq<Event>, i: nat, k: nat)
    requires i < k < |Distinct(log)|
    ensures InOrderOf(log, Distinct(log)[i], Distinct(log)[k])
  {
    var front, last := log[..|log| - 1], log[|log| - 1];
    assert log == front + [last];
    if k < |Distinct(front)| {
      DistinctInOrder(front, i, k);
      FirstInPrefix(front, last, Distinct(front)[i], Distinct(front)[k]);
    } else {
      DistinctMembers(front, Distinct(front)[i]);
      var a := FirstOf(front, Distinct(front)[i]);
      assert log[..a] == front[..a] && log[..|front|] == front;
      assert FirstAt(log, a) && FirstAt(log, |front|);
    }
  }

  /** Two elements of the window stand there as they stand among all events. */
  lemma {:induction false} WithinInOrder(log: seq<Event>, start: int, end: int, i: nat, k: nat) returns (a: nat, b: nat)
    requires i < k < |Within(log, start, end)|
    ensures a < b < |log| && log[a] == Within(log, start, end)[i] && log[b] == Within(log, start, end)[k]
  {
    var front, last := log[..|log| - 1], log[|log| - 1];
    assert log == front + [last];
    if k < |Within(front, start, end)| {
      a, b := WithinInOrder(front, start, end, i, k);
    } else {
      var e := Within(front, start, end)[i];
      WithinCounts(front, start, end, e);
      assert e in multiset(Within(front, start, end));
      a :| 0 <= a < |front| && front[a] == e;
      b := |front|;
    }
  }

  /**
   * A replay returns every event received in the window, both ends included, exactly once and in the order of first
   * delivery; every further delivery of such an event is among the duplicates.
   */
  lemma ReplayHolds(log: seq<Event>, start: int, end: int, v: Replay)
    requires IsReplay(log, start, end, v)
    ensures forall e: Event :: multiset(v.events)[e] == if e in log && start <= e.recvNs <= end then 1 else 0
    ensures forall e: Event ::
              multiset(v.duplicates)[e] == if e in log && start <= e.recvNs <= end then multiset(log)[e] - 1 else 0
    ensures forall i, k :: 0 <= i < k < |v.events| ==> InOrderOf(log, v.events[i], v.events[k])
  {
    forall e: Event | true
      ensures multiset(v.events)[e] == if e in log && start <= e.recvNs <= end then 1 else 0
      ensures multiset(v.duplicates)[e] == if e in log && start <= e.recvNs <= end then multiset(log)[e] - 1 else 0
    {
      WithinCounts(Distinct(log), start, end, e);
      WithinCounts(Repeated(log), start, end, e);
      DistinctCounts(log, e);
    }
    forall i, k | 0 <= i < k < |v.events|
      ensures InOrderOf(log, v.events[i], v.events[k])
    {
      var a, b := WithinInOrder(Distinct(log), start, end, i, k);
      DistinctInOrder(log, a, b);
    }
  }

  // ---------- the replay loop ----------

  ghost predicate KeysAgree(distinct: seq<Event>, previous: Option<Key>) {
    if distinct == [] then previous.None? else previous == Some(KeyOf(distinct[|distinct| - 1]))
  }

  ghost predicate ReasonsAgree(distinct: seq<Event>, events: seq<Event>, reasons: set<Reason>) {
    forall r :: r in reasons <==>
      (r == OrderKeyConflict && exists i :: TiedAt(distinct, i)) || SemanticConflict(events, r)
  }

  lemma {:induction false} DistinctMembers(log: seq<Event>, e: Event)
    ensures e in Distinct(log) <==> e in log
  {
    if log != [] {
      var front, last := log[..|log| - 1], log[|log| - 1];
      DistinctMembers(front, e);
      assert log == front + [last];
    }
  }

  lemma {:induction false} WithinMembers(log: seq<Event>, start: int, end: int, e: Event)
    ensures e in Within(log, start, end) <==> e in log && InWindow(e, start, end)
  {
    if log != [] {
      var front, last := log[..|log| - 1], log[|log| - 1];
      WithinMembers(front, start, end, e);
      assert log == front + [last];
    }
  }

  lemma PushStep(front: seq<Event>, e: Event)
    ensures Distinct(front + [e]) == (if e in front then Distinct(front) else Distinct(front) + [e])
    ensures Repeated(front + [e]) == (if e in front then Repeated(front) + [e] else Repeated(front))
  {
    assert (front + [e])[..|front|] == front;
  }

  lemma PrefixStep(log: seq<Event>, i: nat)
    requires i < |log|
    ensures var front, more, e := log[..i], log[..i + 1], log[i];
            && Distinct(more) == (if e in front then Distinct(front) else Distinct(front) + [e])
            && Repeated(more) == (if e in front then Repeated(front) + [e] else Repeated(front))
            && (forall x :: x in more <==> x in front || x == e)
  {
    assert log[..i + 1] == log[..i] + [log[i]];
    PushStep(log[..i], log[i]);
  }

  lemma WithinStep(log: seq<Event>, e: Event, start: int, end: int)
    ensures Within(log + [e], start, end) == Within(log, start, end) + if InWindow(e, start, end) then [e] else []
  {
    assert (log + [e])[..|log|] == log;
  }

  lemma OrderedStep(distinct: seq<Event>, e: Event, previous: Option<Key>)
    requires Ordered(distinct) && KeysAgree(distinct, previous)
    ensures Ordered(distinct + [e]) <==> !(previous.Some? && KeyBefore(KeyOf(e), previous.value))
    ensures (exists i :: TiedAt(distinct + [e], i)) <==> (exists i :: TiedAt(distinct, i)) || previous == Some(KeyOf(e))
  {
    var more := distinct + [e];
    var n := |distinct|;
    assert more[n] == e && forall i :: 0 <= i < n ==> more[i] == distinct[i];
    if previous.Some? && KeyBefore(KeyOf(e), previous.value) {
      assert KeyBefore(KeyOf(more[n]), KeyOf(more[n - 1]));
    }
    if i :| TiedAt(distinct, i) {
      assert TiedAt(more, i);
    }
    if previous == Some(KeyOf(e)) {
      assert TiedAt(more, n);
    }
    if i :| TiedAt(more, i) {
      assert i < n ==> TiedAt(distinct, i);
    }
  }

  lemma DisorderGrows(events: seq<Event>, more: seq<Event>)
    requires events <= more && !Ordered(events)
    ensures !Ordered(more)
  {
    var j :| 0 < j < |events| && KeyBefore(KeyOf(events[j]), KeyOf(events[j - 1]));
    assert more[j] == events[j] && more[j - 1] == events[j - 1];
  }

  lemma {:induction false} DisorderStays(log: seq<Event>, i: nat)
    requires i <= |log| && !Ordered(Distinct(log[..i]))
    ensures !Ordered(Distinct(log))
    decreases |log| - i
  {
    if i == |log| {
      assert log[..i] == log;
    } else {
      PrefixStep(log, i);
      DisorderGrows(Distinct(log[..i]), Distinct(log[..i + 1]));
      DisorderStays(log, i + 1);
    }
  }

  lemma ReasonsStep(distinct: seq<Event>, events: seq<Event>, reasons: set<Reason>, e: Event, previous: Option<Key>,
                    entries: EntryTable, leases: EpochTable, start: int, end: int)
    requires Ordered(distinct) && KeysAgree(distinct, previous) && ReasonsAgree(distinct, events, reasons)
    requires EntriesIndexed(entries, events) && EpochsIndexed(leases, events) && e !in events
    ensures var conflict := ConflictOf(e, entries, leases);
            var keyed := reasons + (if previous == Some(KeyOf(e)) then {OrderKeyConflict} else {});
            if !InWindow(e, start, end) then ReasonsAgree(distinct + [e], events, keyed)
            else ReasonsAgree(distinct + [e], events + [e], keyed + if conflict.Some? then {conflict.value} else {})
  {
    OrderedStep(distinct, e, previous);
    forall r: Reason | true
      ensures SemanticConflict(events + [e], r) <==>
                SemanticConflict(events, r) || ConflictOf(e, entries, leases) == Some(r)
    {
      ConflictStep(events, e, entries, leases, r);
    }
  }

  datatype Scanner = Scanner(
    seen: set<Event>, events: seq<Event>, duplicates: seq<Event>, reasons: set<Reason>,
    entries: EntryTable, leases: EpochTable, previous: Option<Key>)

  /** The variables of the pass agree with the first i events. */
  ghost predicate Scanned(log: seq<Event>, i: nat, start: int, end: int, s: Scanner)
    requires i <= |log|
  {
    var prefix := log[..i];
    var distinct := Distinct(prefix);
    && Ordered(distinct)
    && KeysAgree(distinct, s.previous)
    && (forall e :: e in s.seen <==> e in prefix)
    && s.events == Within(distinct, start, end)
    && s.duplicates == Within(Repeated(prefix), start, end)
    && EntriesIndexed(s.entries, s.events)
    && EpochsIndexed(s.leases, s.events)
    && ReasonsAgree(distinct, s.events, s.reasons)
  }

  function WithDuplicate(s: Scanner, e: Event, start: int, end: int): Scanner {
    if InWindow(e, start, end) then s.(duplicates := s.duplicates + [e]) else s
  }

  function Keyed(s: Scanner, e: Event): Scanner {
    s.(seen := s.seen + {e}, previous := Some(KeyOf(e)),
       reasons := s.reasons + if s.previous == Some(KeyOf(e)) then {OrderKeyConflict} else {})
  }

  function WithEvent(s: Scanner, e: Event): Scanner {
    var reason := ConflictOf(e, s.entries, s.leases);
    s.(reasons := s.reasons + (if reason.Some? then {reason.value} else {}), events := s.events + [e],
       entries := EntriesWith(s.entries, e), leases := EpochsWith(s.leases, e))
  }

  lemma DuplicateScanned(log: seq<Event>, i: nat, start: int, end: int, s: Scanner)
    requires i < |log| && Scanned(log, i, start, end, s) && log[i] in s.seen
    ensures Scanned(log, i + 1, start, end, WithDuplicate(s, log[i], start, end))
  {
    PrefixStep(log, i);
    WithinStep(Repeated(log[..i]), log[i], start, end);
  }

  /** The state after an event that was not seen before. */
  function WithFresh(s: Scanner, e: Event, start: int, end: int): Scanner {
    if InWindow(e, start, end) then WithEvent(Keyed(s, e), e) else Keyed(s, e)
  }

  lemma FreshOrder(distinct: seq<Event>, e: Event, previous: Option<Key>)
    requires Ordered(distinct) && KeysAgree(distinct, previous)
    requires !(previous.Some? && KeyBefore(KeyOf(e), previous.value))
    ensures Ordered(distinct + [e]) && KeysAgree(distinct + [e], Some(KeyOf(e)))
  {
    OrderedStep(distinct, e, previous);
  }

  lemma FreshTables(s: Scanner, e: Event, start: int, end: int)
    requires EntriesIndexed(s.entries, s.events) && EpochsIndexed(s.leases, s.events)
    ensures var v := WithFresh(s, e, start, end);
            EntriesIndexed(v.entries, v.events) && EpochsIndexed(v.leases, v.events)
  {
    IndexedStep(s.events, e, s.entries, s.leases);
  }

  lemma FreshReasons(s: Scanner, distinct: seq<Event>, e: Event, start: int, end: int)
    requires Ordered(distinct) && KeysAgree(distinct, s.previous) && ReasonsAgree(distinct, s.events, s.reasons)
    requires EntriesIndexed(s.entries, s.events) && EpochsIndexed(s.leases, s.events) && e !in s.events
    ensures var v := WithFresh(s, e, start, end); ReasonsAgree(distinct + [e], v.events, v.reasons)
  {
    ReasonsStep(distinct, s.events, s.reasons, e, s.previous, s.entries, s.leases, start, end);
  }

  lemma FreshScanned(log: seq<Event>, i: nat, start: int, end: int, s: Scanner)
    requires i < |log| && Scanned(log, i, start, end, s) && log[i] !in s.seen
    requires !(s.previous.Some? && KeyBefore(KeyOf(log[i]), s.previous.value))
    ensures Scanned(log, i + 1, start, end, WithFresh(s, log[i], start, end))
  {
    var e, distinct := log[i], Distinct(log[..i]);
    PrefixStep(log, i);
    WithinStep(distinct, e, start, end);
    WithinMembers(distinct, start, end, e);
    DistinctMembers(log[..i], e);
    FreshOrder(distinct, e, s.previous);
    FreshTables(s, e, start, end);
    FreshReasons(s, distinct, e, start, end);
  }

  /** The pass over the events, up to the reasons that need the whole window. */
  method Scan(log: seq<Event>, start: int, end: int) returns (r: Option<Scanner>)
    ensures r.Some? <==> Ordered(Distinct(log))
    ensures r.Some? ==> Scanned(log, |log|, start, end, r.value)
  {
    var s := Scanner({}, [], [], {}, map[], map[], None);
    var i := 0;
    while i < |log|
      invariant 0 <= i <= |log| && Scanned(log, i, start, end, s)
    {
      var e := log[i];
      if e in s.seen {
        DuplicateScanned(log, i, start, end, s);
        if InWindow(e, start, end) {
          s := s.(duplicates := s.duplicates + [e]);
        }
      } else {
        var key := KeyOf(e);
        if s.previous.Some? && KeyBefore(key, s.previous.value) {
          PrefixStep(log, i);
          OrderedStep(Distinct(log[..i]), e, s.previous);
          DisorderStays(log, i + 1);
          return None;
        }
        FreshScanned(log, i, start, end, s);
        s := Keyed(s, e);
        if InWindow(e, start, end) {
          s := WithEvent(s, e);
        }
      }
      i := i + 1;
    }
    assert log[..i] == log;
    return Some(s);
  }

  /** The replay of a window, or the error that stops it. */
  method ReplayEventWindow(log: seq<Event>, stop: Option<string>, start: int, end: int) returns (r: Result<Replay>)
    ensures Replays(log, stop, start, end, r)
  {
    if !(0 <= start <= end) {
      return Failure("invalid replay window");
    }
    var scanned := Scan(log, start, end);
    assert log[..|log|] == log;
    if scanned.None? {
      return Failure("event order key moved backwards");
    }
    if stop.Some? {
      return Failure(stop.value);
    }
    var events := scanned.value.events;
    var conflicts := OrderBindings.OrderBindingConflicts(events);
    var bindings, observed := ReplayOrder.ObservationBindingEvidence(events);
    return Success(Replay(events, scanned.value.duplicates, bindings, scanned.value.reasons + conflicts + observed));
  }

  // ---------- redelivery ----------

  function Inserted(log: seq<Event>, p: nat, e: Event): seq<Event>
    requires p <= |log|
  {
    log[..p] + [e] + log[p..]
  }

  datatype Copy = Copy(at: nat, event: Event)

  /** The log after each copy has been inserted in turn. */
  function Redelivered(log: seq<Event>, copies: seq<Copy>): seq<Event>
    decreases |copies|
  {
    if copies == [] then log
    else if copies[0].at <= |log| then Redelivered(Inserted(log, copies[0].at, copies[0].event), copies[1..])
    else log
  }

  /** Every copy lands after an occurrence of the event that it repeats. */
  predicate ValidCopies(log: seq<Event>, copies: seq<Copy>)
    decreases |copies|
  {
    copies == [] ||
    (copies[0].at <= |log| && copies[0].event in log[..copies[0].at]
     && ValidCopies(Inserted(log, copies[0].at, copies[0].event), copies[1..]))
  }

  lemma InsertedBeforeLast(front: seq<Event>, last: Event, p: nat, e: Event)
    requires p <= |front|
    ensures Inserted(front + [last], p, e) == Inserted(front, p, e) + [last]
  {
    assert (front + [last])[..p] == front[..p] && (front + [last])[p..] == front[p..] + [last];
  }

  lemma InsertedMembers(log: seq<Event>, p: nat, e: Event, x: Event)
    requires p <= |log| && e in log
    ensures x in Inserted(log, p, e) <==> x in log
  {
    assert log == log[..p] + log[p..];
  }

  /** The copied log holds the same first occurrences, and the copy as one more repetition. */
  ghost predicate OneCopyMore(log: seq<Event>, copied: seq<Event>, e: Event) {
    Distinct(copied) == Distinct(log) && multiset(Repeated(copied)) == multiset(Repeated(log)) + multiset{e}
  }

  lemma OneCopyMoreStep(log: seq<Event>, copied: seq<Event>, e: Event, last: Event)
    requires OneCopyMore(log, copied, e) && (last in copied <==> last in log)
    ensures OneCopyMore(log + [last], copied + [last], e)
  {
    PushStep(log, last);
    PushStep(copied, last);
  }

  lemma OneCopyAtEnd(log: seq<Event>, e: Event)
    requires e in log
    ensures OneCopyMore(log, log + [e], e)
  {
    PushStep(log, e);
  }

  lemma {:induction false} CopyChangesNoFirst(log: seq<Event>, p: nat, e: Event)
    requires p <= |log| && e in log[..p]
    ensures OneCopyMore(log, Inserted(log, p, e), e)
    decreases |log| - p
  {
    if p == |log| {
      assert log[..p] == log && Inserted(log, p, e) == log + [e];
      OneCopyAtEnd(log, e);
    } else {
      var front, last := log[..|log| - 1], log[|log| - 1];
      assert front[..p] == log[..p] && log == front + [last];
      CopyChangesNoFirst(front, p, e);
      InsertedBeforeLast(front, last, p, e);
      InsertedMembers(front, p, e, last);
      OneCopyMoreStep(front, Inserted(front, p, e), e, last);
    }
  }

  function CopiesWithin(copies: seq<Copy>, start: int, end: int): multiset<Event> {
    if copies == [] then multiset{}
    else
      (if InWindow(copies[0].event, start, end) then multiset{copies[0].event} else multiset{})
      + CopiesWithin(copies[1..], start, end)
  }

  lemma SameCounts(a: multiset<Event>, b: multiset<Event>)
    requires forall x :: a[x] == b[x]
    ensures a == b
  {
  }

  lemma WithinOneMore(more: seq<Event>, log: seq<Event>, e: Event, start: int, end: int)
    requires multiset(more) == multiset(log) + multiset{e}
    ensures multiset(Within(more, start, end))
         == multiset(Within(log, start, end)) + if InWindow(e, start, end) then multiset{e} else multiset{}
  {
    var one := if InWindow(e, start, end) then multiset{e} else multiset{};
    var a, b := multiset(Within(more, start, end)), multiset(Within(log, start, end)) + one;
    forall x: Event | true
      ensures a[x] == b[x]
    {
      WithinCounts(more, start, end, x);
      WithinCounts(log, start, end, x);
    }
    SameCounts(a, b);
  }

  lemma {:induction false} CopiesChangeNoFirst(log: seq<Event>, copies: seq<Copy>, start: int, end: int)
    requires ValidCopies(log, copies)
    ensures var more := Redelivered(log, copies);
            && Distinct(more) == Distinct(log)
            && multiset(Within(Repeated(more), start, end))
            == multiset(Within(Repeated(log), start, end)) + CopiesWithin(copies, start, end)
    decreases |copies|
  {
    if copies != [] {
      var p, e := copies[0].at, copies[0].event;
      var next := Inserted(log, p, e);
      CopyChangesNoFirst(log, p, e);
      CopiesChangeNoFirst(next, copies[1..], start, end);
      WithinOneMore(Repeated(next), Repeated(log), e, start, end);
    }
  }

  lemma SameFreezeReasons(log: seq<Event>, more: seq<Event>, events: seq<Event>, bindings: set<OrderBinding>,
                          a: set<Reason>, b: set<Reason>)
    requires Distinct(more) == Distinct(log)
    requires forall r :: r in a <==> FreezeReason(log, events, bindings, r)
    requires forall r :: r in b <==> FreezeReason(more, events, bindings, r)
    ensures a == b
  {
    forall r: Reason | true
      ensures FreezeReason(log, events, bindings, r) <==> FreezeReason(more, events, bindings, r)
    {
    }
  }

  lemma SameBindings(events: seq<Event>, a: set<OrderBinding>, b: set<OrderBinding>)
    requires forall x :: x in a <==> exists i :: ReplayOrder.ObservesAt(events, i, x)
    requires forall x :: x in b <==> exists i :: ReplayOrder.ObservesAt(events, i, x)
    ensures a == b
  {
  }

  /** Everything but the duplicates of a replay is decided by the first occurrences. */
  lemma DecidedByFirsts(log: seq<Event>, more: seq<Event>, start: int, end: int, u: Replay, v: Replay)
    requires Distinct(more) == Distinct(log) && IsReplay(log, start, end, u) && IsReplay(more, start, end, v)
    ensures v == u.(duplicates := v.duplicates)
  {
    SameBindings(u.events, u.bindings, v.bindings);
    SameFreezeReasons(log, more, u.events, u.bindings, u.reasons, v.reasons);
  }

  /**
   * Delivering events again, any number of times and anywhere after their first occurrence, changes nothing in a replay
   * but its list of duplicates, which gains exactly the copies that lie in the window.
   */
  lemma RedeliveryIgnored(log: seq<Event>, copies: seq<Copy>, stop: Option<string>, start: int, end: int,
                          r: Result<Replay>, s: Result<Replay>)
    requires ValidCopies(log, copies)
    requires Replays(log, stop, start, end, r) && Replays(Redelivered(log, copies), stop, start, end, s)
    ensures if r.Failure? then s == r
            else
              && s.Success?
              && s.value == r.value.(duplicates := s.value.duplicates)
              && multiset(s.value.duplicates) == multiset(r.value.duplicates) + CopiesWithin(copies, start, end)
  {
    CopiesChangeNoFirst(log, copies, start, end);
    if r.Success? {
      DecidedByFirsts(log, Redelivered(log, copies), start, end, r.value, s.value);
    }
  }
}
