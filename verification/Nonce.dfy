/** Signer nonces: the allocator, the rows that it records, and the replays that rebuild its state from them. */
module Nonce {
  import opened Common
  import opened OrderIdentity

  const DAY_MS := 86_400_000

  datatype NonceReason = NonceAllocated | ClockBackward | FenceInvalidated

  datatype Outcome = Allocated | Frozen

  datatype Row = Row(
    wallet: string, account: string, instance: string,
    nonce: Option<int>, previous: int, nowMs: int, outcome: Outcome, reason: NonceReason, decidedNs: int)

  datatype LogEvent = OtherEvent | NonceEvent(row: Row)

  // ---------- the schema check ----------

  predicate LowerOk(nonce: int, nowMs: int) {
    nonce > nowMs - 2 * DAY_MS
  }

  predicate UpperOk(nonce: int, nowMs: int) {
    nonce < nowMs + DAY_MS
  }

  type Check = (bool, string)

  /** The messages of the checks that do not hold, in order. */
  function Failing(checks: seq<Check>): seq<string> {
    if checks == [] then [] else (if checks[0].0 then [] else [checks[0].1]) + Failing(checks[1..])
  }

  lemma {:induction false} NothingFails(checks: seq<Check>)
    ensures Failing(checks) == [] <==> forall i :: 0 <= i < |checks| ==> checks[i].0
  {
    if checks != [] {
      NothingFails(checks[1..]);
      assert forall i :: 0 < i < |checks| ==> checks[i] == checks[1..][i - 1];
      if forall i :: 0 <= i < |checks[1..]| ==> checks[1..][i].0 {
        assert forall i :: 0 < i < |checks| ==> checks[i].0;
      } else {
        var i :| 0 <= i < |checks[1..]| && !checks[1..][i].0;
        assert !checks[i + 1].0;
      }
    }
  }

  function FormatChecks(row: Row): seq<Check> {
    [(HexDigest(row.wallet), "invalid wallet_fingerprint"),
     (HexDigest(row.account), "invalid account_digest"),
     (row.instance != "", "invalid instance_id"),
     (row.nonce.None? || row.nonce.value > 0, "invalid allocated_nonce"),
     (row.previous >= 0, "invalid previous_nonce"),
     (row.nowMs > 0, "invalid now_ms"),
     (row.decidedNs > 0, "invalid decided_ns")]
  }

  function RelationChecks(row: Row): seq<Check> {
    [(!row.outcome.Frozen? || row.nonce.None?, "allocated_nonce must be null when outcome is frozen"),
     (!row.outcome.Allocated? || row.nonce.Some?,
         "allocated_nonce must be a positive integer when outcome is allocated"),
     (!row.outcome.Allocated? || row.reason.NonceAllocated?, "outcome allocated requires reason nonce_allocated"),
     (!row.reason.NonceAllocated? || row.outcome.Allocated?, "reason nonce_allocated requires outcome allocated")]
  }

  function BoundChecks(row: Row): seq<Check> {
    if row.outcome.Allocated? && row.nonce.Some? then
      [(row.nonce.value > row.previous, "allocated_nonce must exceed previous_nonce"),
       (LowerOk(row.nonce.value, row.nowMs), "allocated_nonce must be strictly within now_ms minus two days"),
       (UpperOk(row.nonce.value, row.nowMs), "allocated_nonce must be strictly within now_ms plus one day")]
    else []
  }

  function SchemaErrors(row: Row): seq<string> {
    var format := Failing(FormatChecks(row));
    if format != [] then format else Failing(RelationChecks(row)) + Failing(BoundChecks(row))
  }

  predicate GrantRow(row: Row) {
    && row.reason.NonceAllocated?
    && row.nonce.Some?
    && 0 <= row.previous < row.nonce.value
    && row.nowMs - 172_800_000 < row.nonce.value < row.nowMs + 86_400_000
  }

  predicate FreezeReasonOk(reason: NonceReason) {
    reason.ClockBackward? || reason.FenceInvalidated?
  }

  predicate FreezeRow(row: Row) {
    FreezeReasonOk(row.reason) && row.nonce.None? && row.previous >= 0
  }

  predicate SchemaOk(row: Row) {
    && HexDigest(row.wallet)
    && HexDigest(row.account)
    && row.instance != ""
    && row.nowMs > 0
    && row.decidedNs > 0
    && if row.outcome.Allocated? then GrantRow(row) else FreezeRow(row)
  }

  predicate WellFormatted(row: Row) {
    && HexDigest(row.wallet) && HexDigest(row.account) && row.instance != ""
    && (row.nonce.Some? ==> row.nonce.value > 0) && row.previous >= 0 && row.nowMs > 0 && row.decidedNs > 0
  }

  lemma FormatMeaning(row: Row)
    ensures Failing(FormatChecks(row)) == [] <==> WellFormatted(row)
  {
    var checks := FormatChecks(row);
    NothingFails(checks);
    if WellFormatted(row) {
      assert forall i :: 0 <= i < |checks| ==> checks[i].0;
    } else {
      assert || !checks[0].0 || !checks[1].0 || !checks[2].0 || !checks[3].0
             || !checks[4].0 || !checks[5].0 || !checks[6].0;
    }
  }

  predicate WellRelated(row: Row) {
    if row.outcome.Allocated? then row.nonce.Some? && row.reason.NonceAllocated?
    else row.nonce.None? && FreezeReasonOk(row.reason)
  }

  lemma RelationMeaning(row: Row)
    ensures Failing(RelationChecks(row)) == [] <==> WellRelated(row)
  {
    var checks := RelationChecks(row);
    NothingFails(checks);
    assert row.reason.NonceAllocated? || FreezeReasonOk(row.reason);
    if WellRelated(row) {
      assert forall i :: 0 <= i < |checks| ==> checks[i].0;
    } else {
      assert !checks[0].0 || !checks[1].0 || !checks[2].0 || !checks[3].0;
    }
  }

  lemma BoundMeaning(row: Row)
    requires WellRelated(row)
    ensures Failing(BoundChecks(row)) == [] <==>
            (row.outcome.Allocated? ==>
               && row.previous < row.nonce.value
               && LowerOk(row.nonce.value, row.nowMs) && UpperOk(row.nonce.value, row.nowMs))
  {
    var checks := BoundChecks(row);
    NothingFails(checks);
    if row.outcome.Allocated? {
      assert (forall i :: 0 <= i < |checks| ==> checks[i].0) <==> checks[0].0 && checks[1].0 && checks[2].0;
    }
  }

  /** The check reports nothing exactly for a well-formed grant or freeze. */
  lemma SchemaErrorsIff(row: Row)
    ensures SchemaErrors(row) == [] <==> SchemaOk(row)
  {
    FormatMeaning(row);
    RelationMeaning(row);
    if WellFormatted(row) && WellRelated(row) {
      BoundMeaning(row);
    }
  }

  // ---------- rows of one signer ----------

  predicate RowAt(log: seq<LogEvent>, wallet: string, i: int) {
    0 <= i < |log| && log[i].NonceEvent? && log[i].row.wallet == wallet
  }

  predicate AllocationAt(log: seq<LogEvent>, wallet: string, i: int) {
    RowAt(log, wallet, i) && log[i].row.outcome.Allocated? && log[i].row.nonce.Some?
  }

  predicate FreezeAt(log: seq<LogEvent>, wallet: string, i: int) {
    RowAt(log, wallet, i) && log[i].row.outcome.Frozen?
  }

  /** The nonce that row i allocates. */
  function NonceAt(log: seq<LogEvent>, wallet: string, i: int): int
    requires AllocationAt(log, wallet, i)
  {
    log[i].row.nonce.value
  }

  /** Position of the last allocation before i, or -1. */
  function PreviousAllocation(log: seq<LogEvent>, wallet: string, i: nat): (p: int)
    requires i <= |log|
    ensures -1 <= p < i
    ensures p >= 0 ==> AllocationAt(log, wallet, p)
    ensures forall k :: p < k < i ==> !AllocationAt(log, wallet, k)
  {
    if i == 0 then -1 else if AllocationAt(log, wallet, i - 1) then i - 1 else PreviousAllocation(log, wallet, i - 1)
  }

  /** The nonce of the last allocation before i, or zero. */
  function LastBefore(log: seq<LogEvent>, wallet: string, i: nat): int
    requires i <= |log|
  {
    var p := PreviousAllocation(log, wallet, i);
    if p < 0 then 0 else NonceAt(log, wallet, p)
  }

  // ---------- the replays ----------

  /** The replayed maximum bounds every allocation of the signer and is zero or one of them. */
  ghost predicate IsReplayedLast(log: seq<LogEvent>, wallet: string, n: nat, last: int)
    requires n <= |log|
  {
    && last >= 0
    && (forall i :: 0 <= i < n && AllocationAt(log, wallet, i) ==> NonceAt(log, wallet, i) <= last)
    && (last == 0 || exists i :: 0 <= i < n && AllocationAt(log, wallet, i) && NonceAt(log, wallet, i) == last)
  }

  ghost predicate TypedRows(log: seq<LogEvent>, wallet: string) {
    forall i :: RowAt(log, wallet, i) && log[i].row.outcome.Allocated? ==> log[i].row.nonce.Some?
  }

  method ReplayLastAllocatedNonce(log: seq<LogEvent>, wallet: string) returns (r: Result<int>)
    ensures r.Success? <==> HexDigest(wallet) && TypedRows(log, wallet)
    ensures r.Success? ==> IsReplayedLast(log, wallet, |log|, r.value)
  {
    if !HexDigest(wallet) {
      return Failure("wallet_fingerprint must be 64 lowercase hex");
    }
    var last := 0;
    for i := 0 to |log|
      invariant IsReplayedLast(log, wallet, i, last)
      invariant forall k :: 0 <= k < i && RowAt(log, wallet, k) && log[k].row.outcome.Allocated? ==>
                  log[k].row.nonce.Some?
    {
      if log[i].NonceEvent? && log[i].row.wallet == wallet && log[i].row.outcome.Allocated? {
        if log[i].row.nonce.None? {
          assert RowAt(log, wallet, i);
          return Failure("allocated_nonce must be int");
        }
        assert AllocationAt(log, wallet, i);
        last := if last < log[i].row.nonce.value then log[i].row.nonce.value else last;
      }
    }
    return Success(last);
  }

  /** What the log says about a freeze of the signer: none, exactly one, or rows that the replay refuses. */
  ghost predicate IsReplayedFreeze(log: seq<LogEvent>, wallet: string, n: nat, reason: Option<NonceReason>)
    requires n <= |log|
  {
    match reason
    case None => forall i :: 0 <= i < n ==> !FreezeAt(log, wallet, i)
    case Some(found) =>
      exists i :: 0 <= i < n && FreezeAt(log, wallet, i) && log[i].row.reason == found && FreezeReasonOk(found)
        && forall k :: 0 <= k < n && FreezeAt(log, wallet, k) ==> k == i
  }

  /** The freeze replay has an answer: every freeze row of the log is valid, and there is at most one. */
  ghost predicate FreezeReplays(log: seq<LogEvent>, wallet: string) {
    exists reason :: IsReplayedFreeze(log, wallet, |log|, reason)
  }

  method ReplayFreezeReason(log: seq<LogEvent>, wallet: string) returns (r: Result<Option<NonceReason>>)
    ensures r.Success? <==> HexDigest(wallet) && FreezeReplays(log, wallet)
    ensures match r
            case Success(reason) => IsReplayedFreeze(log, wallet, |log|, reason)
            case Failure(_) =>
              || !HexDigest(wallet)
              || (exists i :: FreezeAt(log, wallet, i) && !FreezeReasonOk(log[i].row.reason))
              || (exists i, k :: i < k && FreezeAt(log, wallet, i) && FreezeAt(log, wallet, k))
  {
    if !HexDigest(wallet) {
      return Failure("wallet_fingerprint must be 64 lowercase hex");
    }
    var reason: Option<NonceReason> := None;
    ghost var at := -1;
    for i := 0 to |log|
      invariant IsReplayedFreeze(log, wallet, i, reason)
      invariant reason.Some? ==> 0 <= at < i && FreezeAt(log, wallet, at)
    {
      if log[i].NonceEvent? && log[i].row.wallet == wallet && log[i].row.outcome.Frozen? {
        assert FreezeAt(log, wallet, i);
        var found := log[i].row.reason;
        if !FreezeReasonOk(found) {
          return Failure("invalid freeze reason");
        }
        if reason.Some? {
          return Failure("multiple signer nonce freeze rows");
        }
        reason := Some(found);
        at := i;
      }
    }
    return Success(reason);
  }

  datatype ChainConflict = AllocationAfterFreeze(reason: NonceReason) | ChainBreak(last: int, previous: int)

  predicate ValidatedRow(row: Row) {
    if row.outcome.Allocated? then row.reason.NonceAllocated? && row.nonce.Some?
    else FreezeReasonOk(row.reason) && row.nonce.None?
  }

  /** The conflict replay accepts a row's outcome, reason and nonce exactly when the schema check does. */
  lemma ValidatedIff(row: Row)
    ensures ValidatedRow(row) <==> Failing(RelationChecks(row)) == []
  {
    RelationMeaning(row);
  }

  ghost predicate ValidatedRows(log: seq<LogEvent>, wallet: string) {
    forall i :: RowAt(log, wallet, i) ==> ValidatedRow(log[i].row)
  }

  /** f is the position of the signer's first freeze row. */
  ghost predicate FirstFreeze(log: seq<LogEvent>, wallet: string, f: int) {
    FreezeAt(log, wallet, f) && forall k :: 0 <= k < f ==> !FreezeAt(log, wallet, k)
  }

  ghost predicate AfterFreeze(log: seq<LogEvent>, wallet: string, i: int) {
    exists f :: f < i && FreezeAt(log, wallet, f)
  }

  /** Allocation i follows a freeze, or does not name the allocation before it. */
  ghost predicate Broken(log: seq<LogEvent>, wallet: string, i: int) {
    && AllocationAt(log, wallet, i)
    && (AfterFreeze(log, wallet, i)
        || (PreviousAllocation(log, wallet, i) >= 0 && log[i].row.previous != LastBefore(log, wallet, i)))
  }

  ghost predicate DescribesBreak(log: seq<LogEvent>, wallet: string, i: int, c: ChainConflict) {
    && Broken(log, wallet, i)
    && match c
       case AllocationAfterFreeze(reason) =>
         exists f :: f < i && FirstFreeze(log, wallet, f) && log[f].row.reason == reason
       case ChainBreak(last, previous) =>
         && !AfterFreeze(log, wallet, i)
         && last == LastBefore(log, wallet, i) && previous == log[i].row.previous && last != previous
  }

  /** Among the first n events: no broken allocation, or the first one and what is wrong with it. */
  ghost predicate IsConflict(log: seq<LogEvent>, wallet: string, n: nat, c: Option<ChainConflict>)
    requires n <= |log|
  {
    match c
    case None => forall i :: 0 <= i < n ==> !Broken(log, wallet, i)
    case Some(found) =>
      exists i ::
        && 0 <= i < n && DescribesBreak(log, wallet, i, found)
        && forall k :: 0 <= k < i ==> !Broken(log, wallet, k)
  }

  ghost predicate FreezeTracked(log: seq<LogEvent>, wallet: string, n: nat, frozen: Option<NonceReason>)
    requires n <= |log|
  {
    match frozen
    case None => forall i :: 0 <= i < n ==> !FreezeAt(log, wallet, i)
    case Some(reason) => exists f :: 0 <= f < n && FirstFreeze(log, wallet, f) && log[f].row.reason == reason
  }

  method ReplaySignerNonceConflict(log: seq<LogEvent>, wallet: string) returns (r: Result<Option<ChainConflict>>)
    ensures r.Success? <==> HexDigest(wallet) && ValidatedRows(log, wallet)
    ensures r.Success? ==> IsConflict(log, wallet, |log|, r.value)
  {
    if !HexDigest(wallet) {
      return Failure("wallet_fingerprint must be 64 lowercase hex");
    }
    var last: Option<int> := None;
    var frozen: Option<NonceReason> := None;
    var conflict: Option<ChainConflict> := None;
    for i := 0 to |log|
      invariant forall k :: 0 <= k < i && RowAt(log, wallet, k) ==> ValidatedRow(log[k].row)
      invariant last == if PreviousAllocation(log, wallet, i) < 0 then None else Some(LastBefore(log, wallet, i))
      invariant FreezeTracked(log, wallet, i, frozen)
      invariant IsConflict(log, wallet, i, conflict)
    {
      if log[i].NonceEvent? && log[i].row.wallet == wallet {
        var row := log[i].row;
        assert RowAt(log, wallet, i);
        if !ValidatedRow(row) {
          return Failure("invalid signer nonce row");
        }
        if row.outcome.Allocated? {
          assert AllocationAt(log, wallet, i);
          assert AfterFreeze(log, wallet, i) <==> frozen.Some?;
          if frozen.Some? && conflict.None? {
            conflict := Some(AllocationAfterFreeze(frozen.value));
            assert DescribesBreak(log, wallet, i, conflict.value);
          } else if last.Some? && row.previous != last.value && conflict.None? {
            conflict := Some(ChainBreak(last.value, row.previous));
            assert DescribesBreak(log, wallet, i, conflict.value);
          }
          last := row.nonce;
        } else if frozen.None? {
          frozen := Some(row.reason);
          assert FirstFreeze(log, wallet, i);
        }
      }
    }
    return Success(conflict);
  }

  // ---------- the allocator ----------

  datatype Allocator = Allocator(wallet: string, account: string, instance: string, last: int,
      frozen: Option<NonceReason>)

  datatype AllocateResult =
    | Granted(nonce: int)
    | FrozenError(reason: NonceReason)
    | Rejected(error: string)
    | RecorderFailed

  predicate ValidIdentity(a: Allocator) {
    HexDigest(a.wallet) && HexDigest(a.account) && a.instance != "" && a.last >= 0
  }

  function RowFor(a: Allocator, nonce: Option<int>, outcome: Outcome, reason: NonceReason, nowMs: int,
                  decidedNs: int): LogEvent {
    NonceEvent(Row(a.wallet, a.account, a.instance, nonce, a.last, nowMs, outcome, reason, decidedNs))
  }

  /** Memory freezes first; the row may still fail to be recorded. */
  function Freeze(a: Allocator, log: seq<LogEvent>, reason: NonceReason, nowMs: int, decidedNs: int, recorderOk: bool)
    : (Allocator, seq<LogEvent>, AllocateResult)
  {
    var b := a.(frozen := Some(reason));
    if recorderOk then (b, log + [RowFor(a, None, Frozen, reason, nowMs, decidedNs)], FrozenError(reason))
    else (b, log, RecorderFailed)
  }

  function Max(a: int, b: int): int {
    if a < b then b else a
  }

  /** One call: the state after it, the log after it, and what the caller sees. */
  function Allocate(a: Allocator, log: seq<LogEvent>, nowMs: int, decidedNs: int, fenceHolds: bool, recorderOk: bool)
    : (Allocator, seq<LogEvent>, AllocateResult)
  {
    if a.frozen.Some? then (a, log, FrozenError(a.frozen.value))
    else if nowMs <= 0 then (a, log, Rejected("now_ms must be positive"))
    else if decidedNs <= 0 then (a, log, Rejected("decided_ns must be positive"))
    else if !fenceHolds then Freeze(a, log, FenceInvalidated, nowMs, decidedNs, recorderOk)
    else
      var candidate := Max(a.last, nowMs) + 1;
      if !UpperOk(candidate, nowMs) then Freeze(a, log, ClockBackward, nowMs, decidedNs, recorderOk)
      else if !recorderOk then (a, log, RecorderFailed)
      else
        (a.(last := candidate), log + [RowFor(a, Some(candidate), Outcome.Allocated, NonceAllocated, nowMs, decidedNs)],
         Granted(candidate))
  }

  // ---------- what one call answers, by its cause ----------

  /** No freeze is in force and both readings are positive, so that the call looks at the fence. */
  predicate Attempts(a: Allocator, nowMs: int, decidedNs: int) {
    a.frozen.None? && nowMs > 0 && decidedNs > 0
  }

  /** The nonce after the last one would lie a day or more ahead of the clock. */
  predicate ClockBehind(a: Allocator, nowMs: int) {
    a.last + 1 >= nowMs + 86_400_000
  }

  /** The cause of a freeze, and the reason that goes with it. */
  predicate FreezeCause(a: Allocator, nowMs: int, fenceHolds: bool, reason: NonceReason) {
    || (reason == FenceInvalidated && !fenceHolds)
    || (reason == ClockBackward && fenceHolds && ClockBehind(a, nowMs))
  }

  ghost predicate AnswerExplained(a: Allocator, nowMs: int, decidedNs: int, fenceHolds: bool, recorderOk: bool,
                                  r: AllocateResult) {
    var attempts := Attempts(a, nowMs, decidedNs);
    && (r.Rejected? <==> a.frozen.None? && !attempts)
    && (r.RecorderFailed? <==> attempts && !recorderOk)
    && (r.Granted? <==> attempts && recorderOk && fenceHolds && !ClockBehind(a, nowMs))
    && (r.FrozenError? && a.frozen.Some? ==> r.reason == a.frozen.value)
    && (r.FrozenError? && a.frozen.None? ==> attempts && recorderOk && FreezeCause(a, nowMs, fenceHolds, r.reason))
    && (r.Granted? ==> r.nonce > a.last && r.nonce > nowMs && (r.nonce == a.last + 1 || r.nonce == nowMs + 1))
  }

  /** Only a grant moves the last nonce, and a freeze is remembered with its cause whether it is recorded or not. */
  ghost predicate MemoryExplained(a: Allocator, nowMs: int, decidedNs: int, fenceHolds: bool, b: Allocator,
                                  r: AllocateResult) {
    && b.wallet == a.wallet && b.account == a.account && b.instance == a.instance
    && b.last == (if r.Granted? then r.nonce else a.last)
    && (forall reason :: b.frozen == Some(reason) <==>
          a.frozen == Some(reason) || (Attempts(a, nowMs, decidedNs) && FreezeCause(a, nowMs, fenceHolds, reason)))
  }

  /** A row is recorded for every attempt that the recorder takes, and it tells the call and the cause. */
  ghost predicate RowExplained(a: Allocator, log: seq<LogEvent>, nowMs: int, decidedNs: int, fenceHolds: bool,
                               recorderOk: bool, more: seq<LogEvent>, r: AllocateResult) {
    if !(Attempts(a, nowMs, decidedNs) && recorderOk) then more == log
    else
      && |more| == |log| + 1 && more[..|log|] == log && more[|log|].NonceEvent?
      && var row := more[|log|].row;
      && row.wallet == a.wallet && row.account == a.account && row.instance == a.instance
      && row.previous == a.last && row.nowMs == nowMs && row.decidedNs == decidedNs
      && (row.outcome.Allocated? <==> r.Granted?)
      && row.nonce == (if r.Granted? then Some(r.nonce) else None)
      && (if r.Granted? then row.reason == NonceAllocated else FreezeCause(a, nowMs, fenceHolds, row.reason))
  }

  ghost predicate CallExplained(a: Allocator, log: seq<LogEvent>, nowMs: int, decidedNs: int, fenceHolds: bool,
                                recorderOk: bool, b: Allocator, more: seq<LogEvent>, r: AllocateResult) {
    && AnswerExplained(a, nowMs, decidedNs, fenceHolds, recorderOk, r)
    && MemoryExplained(a, nowMs, decidedNs, fenceHolds, b, r)
    && RowExplained(a, log, nowMs, decidedNs, fenceHolds, recorderOk, more, r)
  }

  lemma CallMeaning(a: Allocator, log: seq<LogEvent>, nowMs: int, decidedNs: int, fenceHolds: bool, recorderOk: bool)
    ensures var (b, more, r) := Allocate(a, log, nowMs, decidedNs, fenceHolds, recorderOk);
            CallExplained(a, log, nowMs, decidedNs, fenceHolds, recorderOk, b, more, r)
  {
    var (b, more, r) := Allocate(a, log, nowMs, decidedNs, fenceHolds, recorderOk);
    assert |more| > |log| ==> more[..|log|] == log;
  }

  class NonceAllocator {
    const wallet: string
    const account: string
    const instance: string
    var last: int
    var frozen: Option<NonceReason>

    /** The durable log that the recorder writes. */
    var log: seq<LogEvent>

    function State(): Allocator
      reads this
    {
      Allocator(wallet, account, instance, last, frozen)
    }

    constructor (a: Allocator, log: seq<LogEvent>)
      requires ValidIdentity(a) && (a.frozen.Some? ==> FreezeReasonOk(a.frozen.value))
      ensures State() == a && this.log == log
    {
      wallet, account, instance := a.wallet, a.account, a.instance;
      last, frozen := a.last, a.frozen;
      this.log := log;
    }

    method FreezeSigner(reason: NonceReason, nowMs: int, decidedNs: int, recorderOk: bool) returns (r: AllocateResult)
      modifies this
      ensures (State(), log, r) == Freeze(old(State()), old(log), reason, nowMs, decidedNs, recorderOk)
      ensures frozen == Some(reason) && last == old(last)
    {
      frozen := Some(reason);
      if !recorderOk {
        return RecorderFailed;
      }
      log := log + [NonceEvent(Row(wallet, account, instance, None, last, nowMs, Frozen, reason, decidedNs))];
      return FrozenError(reason);
    }

    method AllocateNonce(nowMs: int, decidedNs: int, fenceHolds: bool, recorderOk: bool) returns (r: AllocateResult)
      modifies this
      ensures (State(), log, r) == Allocate(old(State()), old(log), nowMs, decidedNs, fenceHolds, recorderOk)
      ensures CallExplained(old(State()), old(log), nowMs, decidedNs, fenceHolds, recorderOk, State(), log, r)
    {
      CallMeaning(State(), log, nowMs, decidedNs, fenceHolds, recorderOk);
      if frozen.Some? {
        return FrozenError(frozen.value);
      }
      if nowMs <= 0 {
        return Rejected("now_ms must be positive");
      }
      if decidedNs <= 0 {
        return Rejected("decided_ns must be positive");
      }
      if !fenceHolds {
        r := FreezeSigner(FenceInvalidated, nowMs, decidedNs, recorderOk);
        return;
      }
      var candidate := (if last < nowMs then nowMs else last) + 1;
      if !UpperOk(candidate, nowMs) {
        r := FreezeSigner(ClockBackward, nowMs, decidedNs, recorderOk);
        return;
      }
      if !recorderOk {
        return RecorderFailed;
      }
      log := log + [NonceEvent(Row(wallet, account, instance, Some(candidate), last, nowMs, Outcome.Allocated,
          NonceAllocated, decidedNs))];
      last := candidate;
      return Granted(candidate);
    }
  }

  // ---------- the chain ----------

  /** Row i passes the schema check, follows no freeze and names the allocation before it. */
  ghost predicate Linked(log: seq<LogEvent>, wallet: string, i: int)
    requires RowAt(log, wallet, i)
  {
    SchemaOk(log[i].row) && !AfterFreeze(log, wallet, i) && log[i].row.previous == LastBefore(log, wallet, i)
  }

  ghost predicate Chain(log: seq<LogEvent>, wallet: string) {
    forall i :: RowAt(log, wallet, i) ==> Linked(log, wallet, i)
  }

  lemma {:induction false} PreviousAgrees(log: seq<LogEvent>, more: seq<LogEvent>, wallet: string, i: nat)
    requires i <= |log| <= |more| && forall k :: 0 <= k < i ==> log[k] == more[k]
    ensures PreviousAllocation(log, wallet, i) == PreviousAllocation(more, wallet, i)
    ensures LastBefore(log, wallet, i) == LastBefore(more, wallet, i)
  {
    if i > 0 {
      assert log[i - 1] == more[i - 1];
      PreviousAgrees(log, more, wallet, i - 1);
    }
  }

  lemma ChainAppend(log: seq<LogEvent>, wallet: string, e: LogEvent)
    requires Chain(log, wallet)
    requires e.NonceEvent? && e.row.wallet == wallet ==>
      && SchemaOk(e.row)
      && (forall f :: !FreezeAt(log, wallet, f))
      && e.row.previous == LastBefore(log, wallet, |log|)
    ensures Chain(log + [e], wallet)
    ensures LastBefore(log + [e], wallet, |log| + 1)
         == if AllocationAt(log + [e], wallet, |log|) then e.row.nonce.value else LastBefore(log, wallet, |log|)
  {
    var more := log + [e];
    assert forall k :: 0 <= k < |log| ==> log[k] == more[k];
    forall i | RowAt(more, wallet, i)
      ensures Linked(more, wallet, i)
    {
      PreviousAgrees(log, more, wallet, i);
      assert i < |log| ==> Linked(log, wallet, i);
      assert forall f :: f < i && FreezeAt(more, wallet, f) ==> FreezeAt(log, wallet, f);
    }
    PreviousAgrees(log, more, wallet, |log|);
  }

  // ---------- whole runs ----------

  datatype World = World(allocator: Allocator, log: seq<LogEvent>)

  /**
   * One step: an allocation, a restart that reloads the allocator from the log, or an event that is not the signer's.
   */
  datatype Step =
    | Allocation(nowMs: int, decidedNs: int, fenceHolds: bool, recorderOk: bool)
    | Restart(account: string, instance: string)
    | Foreign(event: LogEvent)

  ghost predicate Next(w: World, step: Step, v: World) {
    match step
    case Allocation(nowMs, decidedNs, fenceHolds, recorderOk) =>
      var r := Allocate(w.allocator, w.log, nowMs, decidedNs, fenceHolds, recorderOk);
      v == World(r.0, r.1)
    case Restart(account, instance) =>
      && v.log == w.log
      && ValidIdentity(v.allocator)
      && v.allocator.wallet == w.allocator.wallet
      && v.allocator.account == account
      && v.allocator.instance == instance
      && IsReplayedLast(w.log, w.allocator.wallet, |w.log|, v.allocator.last)
      && IsReplayedFreeze(w.log, w.allocator.wallet, |w.log|, v.allocator.frozen)
    case Foreign(event) =>
      && v == w.(log := w.log + [event])
      && (event.NonceEvent? ==> event.row.wallet != w.allocator.wallet)
  }

  /** Every consecutive pair of worlds is a step. */
  ghost predicate Run(worlds: seq<World>, steps: seq<Step>) {
    && |worlds| == |steps| + 1
    && forall k :: 0 <= k < |steps| ==> Next(worlds[k], steps[k], worlds[k + 1])
  }

  /** The log is one chain that ends at the allocator's last nonce, and a recorded freeze is in force. */
  ghost predicate Good(w: World) {
    && ValidIdentity(w.allocator)
    && Chain(w.log, w.allocator.wallet)
    && w.allocator.last == LastBefore(w.log, w.allocator.wallet, |w.log|)
    && (w.allocator.frozen.None? ==> forall f :: !FreezeAt(w.log, w.allocator.wallet, f))
  }

  ghost predicate Ascends(log: seq<LogEvent>, wallet: string) {
    forall i: nat :: AllocationAt(log, wallet, i) ==> 0 <= LastBefore(log, wallet, i) < NonceAt(log, wallet, i)
  }

  lemma ChainAscends(log: seq<LogEvent>, wallet: string)
    requires Chain(log, wallet)
    ensures Ascends(log, wallet)
  {
    forall i: nat | AllocationAt(log, wallet, i)
      ensures 0 <= LastBefore(log, wallet, i) < NonceAt(log, wallet, i)
    {
      assert Linked(log, wallet, i);
    }
  }

  lemma {:induction false} AscentBounds(log: seq<LogEvent>, wallet: string, n: nat, i: nat)
    requires Ascends(log, wallet) && i < n <= |log| && AllocationAt(log, wallet, i)
    ensures 0 < NonceAt(log, wallet, i) <= LastBefore(log, wallet, n)
  {
    if i < n - 1 {
      AscentBounds(log, wallet, n - 1, i);
    }
  }

  /** On a chain the replayed maximum is the last allocation. */
  lemma ReplayedLastIsLast(log: seq<LogEvent>, wallet: string, last: int)
    requires Chain(log, wallet) && IsReplayedLast(log, wallet, |log|, last)
    ensures last == LastBefore(log, wallet, |log|)
  {
    ChainAscends(log, wallet);
    LastIsMaximum(log, wallet, last);
  }

  lemma LastIsMaximum(log: seq<LogEvent>, wallet: string, last: int)
    requires Ascends(log, wallet) && IsReplayedLast(log, wallet, |log|, last)
    ensures last == LastBefore(log, wallet, |log|)
  {
    var p := PreviousAllocation(log, wallet, |log|);
    if p >= 0 {
      AscentBounds(log, wallet, |log|, p);
    }
    if i :| 0 <= i < |log| && AllocationAt(log, wallet, i) && NonceAt(log, wallet, i) == last {
      AscentBounds(log, wallet, |log|, i);
    }
  }

  lemma GrantKeepsGood(w: World, nonce: int, nowMs: int, decidedNs: int)
    requires Good(w) && w.allocator.frozen.None? && nowMs > 0 && decidedNs > 0
    requires nonce == Max(w.allocator.last, nowMs) + 1 && UpperOk(nonce, nowMs)
    ensures Good(World(w.allocator.(last := nonce),
                       w.log + [RowFor(w.allocator, Some(nonce), Outcome.Allocated, NonceAllocated, nowMs, decidedNs)]))
  {
    var row := RowFor(w.allocator, Some(nonce), Outcome.Allocated, NonceAllocated, nowMs, decidedNs);
    ChainAppend(w.log, w.allocator.wallet, row);
    FreezesOf(w.log, row, w.allocator.wallet);
  }

  lemma FreezeKeepsGood(w: World, reason: NonceReason, nowMs: int, decidedNs: int, recorderOk: bool)
    requires Good(w) && w.allocator.frozen.None? && FreezeReasonOk(reason) && nowMs > 0 && decidedNs > 0
    ensures var r := Freeze(w.allocator, w.log, reason, nowMs, decidedNs, recorderOk); Good(World(r.0, r.1))
  {
    var row := RowFor(w.allocator, None, Frozen, reason, nowMs, decidedNs);
    ChainAppend(w.log, w.allocator.wallet, row);
  }

  lemma FreezesOf(log: seq<LogEvent>, e: LogEvent, wallet: string)
    ensures forall f :: FreezeAt(log + [e], wallet, f) ==>
              || FreezeAt(log, wallet, f)
              || (f == |log| && e.NonceEvent? && e.row.wallet == wallet && e.row.outcome.Frozen?)
  {
  }

  lemma AllocationKeepsGood(w: World, nowMs: int, decidedNs: int, fenceHolds: bool, recorderOk: bool)
    requires Good(w)
    ensures var r := Allocate(w.allocator, w.log, nowMs, decidedNs, fenceHolds, recorderOk);
            Good(World(r.0, r.1)) && w.log <= r.1 && r.0.last >= w.allocator.last
  {
    if w.allocator.frozen.None? && nowMs > 0 && decidedNs > 0 {
      var nonce := Max(w.allocator.last, nowMs) + 1;
      if !fenceHolds {
        FreezeKeepsGood(w, FenceInvalidated, nowMs, decidedNs, recorderOk);
      } else if !UpperOk(nonce, nowMs) {
        FreezeKeepsGood(w, ClockBackward, nowMs, decidedNs, recorderOk);
      } else if recorderOk {
        GrantKeepsGood(w, nonce, nowMs, decidedNs);
      }
    }
  }

  lemma NextKeepsGood(w: World, step: Step, v: World)
    requires Good(w) && Next(w, step, v)
    ensures Good(v) && w.log <= v.log
    ensures v.allocator.wallet == w.allocator.wallet && v.allocator.last >= w.allocator.last
  {
    match step
    case Allocation(nowMs, decidedNs, fenceHolds, recorderOk) =>
      AllocationKeepsGood(w, nowMs, decidedNs, fenceHolds, recorderOk);
    case Restart(account, instance) =>
      ReplayedLastIsLast(w.log, w.allocator.wallet, v.allocator.last);
    case Foreign(event) =>
      ChainAppend(w.log, w.allocator.wallet, event);
      FreezesOf(w.log, event, w.allocator.wallet);
  }

  lemma RunStep(worlds: seq<World>, steps: seq<Step>, k: nat)
    requires Run(worlds, steps) && k < |steps|
    ensures Next(worlds[k], steps[k], worlds[k + 1])
  {
  }

  lemma {:induction false} RunStaysGood(worlds: seq<World>, steps: seq<Step>, j: nat)
    requires Run(worlds, steps) && Good(worlds[0]) && j < |worlds|
    ensures Good(worlds[j]) && worlds[j].allocator.wallet == worlds[0].allocator.wallet
  {
    if j > 0 {
      RunStaysGood(worlds, steps, j - 1);
      RunStep(worlds, steps, j - 1);
      NextKeepsGood(worlds[j - 1], steps[j - 1], worlds[j]);
    }
  }

  /** The k-th step is the call that recorded the row at f, and the row's reason is its cause. */
  ghost predicate CausedAt(worlds: seq<World>, steps: seq<Step>, k: nat, f: nat, row: Row)
    requires |worlds| == |steps| + 1 && k < |steps|
  {
    && steps[k].Allocation? && |worlds[k].log| == f
    && Attempts(worlds[k].allocator, steps[k].nowMs, steps[k].decidedNs)
    && FreezeCause(worlds[k].allocator, steps[k].nowMs, steps[k].fenceHolds, row.reason)
    && row.previous == worlds[k].allocator.last && row.nowMs == steps[k].nowMs
  }

  lemma StepRecords(w: World, step: Step, v: World, f: nat)
    requires Next(w, step, v) && FreezeAt(v.log, w.allocator.wallet, f) && f >= |w.log|
    ensures step.Allocation? && f == |w.log| && Attempts(w.allocator, step.nowMs, step.decidedNs)
    ensures FreezeCause(w.allocator, step.nowMs, step.fenceHolds, v.log[f].row.reason)
    ensures v.log[f].row.previous == w.allocator.last && v.log[f].row.nowMs == step.nowMs
  {
    if step.Allocation? {
      CallMeaning(w.allocator, w.log, step.nowMs, step.decidedNs, step.fenceHolds, step.recorderOk);
    }
  }

  /**
   * On every run each freeze row that the run adds was recorded by the call whose fence was lost or whose clock was
   * behind, and its reason says which of the two it was.
   */
  lemma {:induction false} EveryFreezeHasItsCause(worlds: seq<World>, steps: seq<Step>, f: nat)
    requires Run(worlds, steps) && Good(worlds[0])
    requires |worlds[0].log| <= f && FreezeAt(worlds[|steps|].log, worlds[0].allocator.wallet, f)
    ensures exists k :: 0 <= k < |steps| && CausedAt(worlds, steps, k, f, worlds[|steps|].log[f].row)
    decreases |steps|
  {
    if steps != [] {
      var n := |steps| - 1;
      RunStep(worlds, steps, n);
      RunStaysGood(worlds, steps, n);
      NextKeepsGood(worlds[n], steps[n], worlds[n + 1]);
      if f < |worlds[n].log| {
        var w, s := worlds[..n + 1], steps[..n];
        assert FreezeAt(w[n].log, w[0].allocator.wallet, f);
        EveryFreezeHasItsCause(w, s, f);
        var k :| 0 <= k < |s| && CausedAt(w, s, k, f, w[n].log[f].row);
        assert CausedAt(worlds, steps, k, f, worlds[n + 1].log[f].row);
      } else {
        StepRecords(worlds[n], steps[n], worlds[n + 1], f);
        assert CausedAt(worlds, steps, n, f, worlds[n + 1].log[f].row);
      }
    }
  }

  /** w's log is a prefix of v's, and v has not fallen behind. */
  predicate Extends(w: World, v: World) {
    w.log <= v.log && w.allocator.last <= v.allocator.last
  }

  lemma {:induction false} RunExtends(worlds: seq<World>, steps: seq<Step>, i: nat, j: nat)
    requires Run(worlds, steps) && Good(worlds[0]) && i <= j < |worlds|
    ensures Extends(worlds[i], worlds[j])
  {
    if i < j {
      RunExtends(worlds, steps, i, j - 1);
      StepExtends(worlds, steps, j - 1);
    }
  }

  lemma StepExtends(worlds: seq<World>, steps: seq<Step>, k: nat)
    requires Run(worlds, steps) && Good(worlds[0]) && k < |steps|
    ensures Extends(worlds[k], worlds[k + 1])
  {
    RunStaysGood(worlds, steps, k);
    RunStep(worlds, steps, k);
    NextKeepsGood(worlds[k], steps[k], worlds[k + 1]);
  }

  // ---------- what the replays find on a chain ----------

  predicate Slice(log: seq<LogEvent>, a: nat, b: nat, part: seq<LogEvent>) {
    a <= b <= |log| && part == log[a..b]
  }

  lemma {:induction false} SlicePrevious(log: seq<LogEvent>, a: nat, b: nat, part: seq<LogEvent>, wallet: string,
                                         i: nat)
    requires Slice(log, a, b, part) && i <= |part|
    ensures PreviousAllocation(part, wallet, i) >= 0 ==>
              PreviousAllocation(log, wallet, a + i) == a + PreviousAllocation(part, wallet, i)
  {
    if i > 0 {
      assert part[i - 1] == log[a + i - 1];
      assert AllocationAt(part, wallet, i - 1) <==> AllocationAt(log, wallet, a + i - 1);
      SlicePrevious(log, a, b, part, wallet, i - 1);
    }
  }

  /** Cutting rows off either end of a log never creates a conflict. */
  lemma SliceNeverBreaks(log: seq<LogEvent>, a: nat, b: nat, part: seq<LogEvent>, wallet: string, i: nat)
    requires Slice(log, a, b, part) && i < |part| && Broken(part, wallet, i)
    ensures Broken(log, wallet, a + i)
  {
    assert part[i] == log[a + i];
    SlicePrevious(log, a, b, part, wallet, i);
    if f :| f < i && FreezeAt(part, wallet, f) {
      assert FreezeAt(log, wallet, a + f);
    }
  }

  lemma ChainNeverBreaks(log: seq<LogEvent>, wallet: string, i: nat)
    requires Chain(log, wallet)
    ensures !Broken(log, wallet, i)
  {
    assert RowAt(log, wallet, i) ==> Linked(log, wallet, i);
  }

  /** A chain holds at most one freeze row, with a valid reason, so the freeze replay never refuses it. */
  lemma ChainFreezesOnce(log: seq<LogEvent>, wallet: string, i: int)
    requires Chain(log, wallet) && FreezeAt(log, wallet, i)
    ensures FreezeReasonOk(log[i].row.reason)
    ensures forall k :: RowAt(log, wallet, k) ==> k <= i
  {
    assert Linked(log, wallet, i);
    forall k | RowAt(log, wallet, k)
      ensures k <= i
    {
      assert Linked(log, wallet, k);
    }
  }

  lemma SliceFreezesOnce(log: seq<LogEvent>, a: nat, b: nat, part: seq<LogEvent>, wallet: string)
    requires Chain(log, wallet) && Slice(log, a, b, part)
    ensures FreezeReplays(part, wallet)
  {
    assert forall i :: FreezeAt(part, wallet, i) ==> FreezeAt(log, wallet, a + i);
    if f :| FreezeAt(part, wallet, f) {
      ChainFreezesOnce(log, wallet, a + f);
      forall g | FreezeAt(part, wallet, g)
        ensures g == f
      {
        ChainFreezesOnce(log, wallet, a + g);
      }
      assert IsReplayedFreeze(part, wallet, |part|, Some(part[f].row.reason));
    } else {
      assert IsReplayedFreeze(part, wallet, |part|, None);
    }
  }

  lemma SliceRows(log: seq<LogEvent>, a: nat, b: nat, part: seq<LogEvent>, wallet: string)
    requires Chain(log, wallet) && Slice(log, a, b, part)
    ensures forall i :: RowAt(part, wallet, i) ==> SchemaErrors(part[i].row) == []
    ensures ValidatedRows(part, wallet)
  {
    forall i | RowAt(part, wallet, i)
      ensures SchemaErrors(part[i].row) == [] && ValidatedRow(part[i].row)
    {
      assert part[i] == log[a + i] && RowAt(log, wallet, a + i);
      assert Linked(log, wallet, a + i);
      SchemaErrorsIff(part[i].row);
    }
  }

  lemma SliceConflict(log: seq<LogEvent>, a: nat, b: nat, part: seq<LogEvent>, wallet: string, c: Option<ChainConflict>)
    requires Chain(log, wallet) && Slice(log, a, b, part) && IsConflict(part, wallet, |part|, c)
    ensures c == None
  {
    if c.Some? {
      var i: int :| 0 <= i < |part| && DescribesBreak(part, wallet, i, c.value);
      ChainNeverBreaks(log, wallet, a + i);
      SliceNeverBreaks(log, a, b, part, wallet, i);
    }
  }

  /**
   * In every world of every run the signer's rows form one unbroken chain: each passes the schema check, none follows a
   * freeze, and each names the allocation before it. The conflict replay of the log, and of any slice of it, accepts
   * every row and finds no conflict, and the freeze replay succeeds on it; the replayed maximum of the log is the
   * live allocator's last nonce.
   */
  lemma RunIsOneChain(worlds: seq<World>, steps: seq<Step>, j: nat, a: nat, b: nat, part: seq<LogEvent>,
                      c: Option<ChainConflict>)
    requires Run(worlds, steps) && Good(worlds[0]) && j < |worlds|
    requires Slice(worlds[j].log, a, b, part) && IsConflict(part, worlds[0].allocator.wallet, |part|, c)
    ensures var w, wallet := worlds[j], worlds[0].allocator.wallet;
            && Chain(w.log, wallet)
            && (forall i :: RowAt(part, wallet, i) ==> SchemaErrors(part[i].row) == [])
            && ValidatedRows(part, wallet)
            && c == None
            && FreezeReplays(part, wallet)
            && (forall last :: IsReplayedLast(w.log, wallet, |w.log|, last) ==> last == w.allocator.last)
  {
    RunStaysGood(worlds, steps, j);
    var w, wallet := worlds[j], worlds[0].allocator.wallet;
    SliceRows(w.log, a, b, part, wallet);
    SliceConflict(w.log, a, b, part, wallet, c);
    SliceFreezesOnce(w.log, a, b, part, wallet);
    forall last | IsReplayedLast(w.log, wallet, |w.log|, last)
      ensures last == w.allocator.last
    {
      ReplayedLastIsLast(w.log, wallet, last);
    }
  }

  /** Nonces only ever go up: two grants of one run are different, and the later is larger. */
  lemma GrantsIncrease(worlds: seq<World>, steps: seq<Step>, i: nat, j: nat, first: AllocateResult,
                       second: AllocateResult)
    requires Run(worlds, steps) && Good(worlds[0]) && i < j < |steps|
    requires steps[i].Allocation? && first == Grant(worlds[i], steps[i]) && first.Granted?
    requires steps[j].Allocation? && second == Grant(worlds[j], steps[j]) && second.Granted?
    ensures first.nonce < second.nonce
  {
    RunExtends(worlds, steps, i + 1, j);
    RunStep(worlds, steps, i);
  }

  function Grant(w: World, step: Step): AllocateResult
    requires step.Allocation?
  {
    Allocate(w.allocator, w.log, step.nowMs, step.decidedNs, step.fenceHolds, step.recorderOk).2
  }

  /** A freeze in memory grants nothing more until a restart; one that was recorded outlives every restart. */
  lemma RecordedFreezeSurvives(w: World, step: Step, v: World, f: int)
    requires Good(w) && Next(w, step, v) && FreezeAt(w.log, w.allocator.wallet, f)
    ensures v.allocator.frozen.Some?
  {
    NextKeepsGood(w, step, v);
    assert w.log[f] == v.log[f];
    assert FreezeAt(v.log, v.allocator.wallet, f);
  }

  /**
   * A freeze, for any reason and at any time, outlives a restart exactly when its row was recorded. One whose row was
   * not recorded is forgotten: the reloaded allocator is what it was before the call, but for the identity it was
   * started with.
   */
  lemma UnrecordedFreezeIsForgotten(w: World, call: Step, frozenWorld: World, restart: Step, v: World)
    requires Good(w) && w.allocator.frozen.None? && call.Allocation? && restart.Restart?
    requires Next(w, call, frozenWorld) && frozenWorld.allocator.frozen.Some?
    requires Next(frozenWorld, restart, v)
    ensures v.allocator.frozen.Some? <==> call.recorderOk
    ensures !call.recorderOk ==>
              v == w.(allocator := w.allocator.(account := restart.account, instance := restart.instance))
  {
    NextKeepsGood(w, call, frozenWorld);
    ReplayedLastIsLast(frozenWorld.log, w.allocator.wallet, v.allocator.last);
    if call.recorderOk {
      assert FreezeAt(frozenWorld.log, w.allocator.wallet, |w.log|);
    }
  }
}
