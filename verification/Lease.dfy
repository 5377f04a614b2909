/** One writer lease: its authority mode, the evidence rows recorded around each change, and the promotion around it. */
module Lease {
  import opened Common

  datatype Mode = PendingReconciliation | RiskIncreasing | FlattenOnly | CancelOnly

  datatype Action = Cancel | CancelAll | Submit | ReduceOnly | Close | Market | Modify

  datatype Evidence =
    | Denied(mode: Mode, action: Action)
    | Demoted(to: Mode)
    | Invalidated
    | Released
    | Promoted
    | PromotionDenied(from: Mode)

  /** A recorded row together with the mode that the lease held while its recorder ran. */
  datatype Row = Row(evidence: Evidence, live: Option<Mode>)

  /** held: the lock file descriptor is open. acquired: when the lock was taken, if it was. */
  datatype LeaseState = LeaseState(mode: Option<Mode>, held: bool, acquired: Option<int>, rows: seq<Row>)

  /**
   * What a call meets: whether the path still names the locked inode, at its first and second look, and whether
   * recording works.
   */
  datatype Env = Env(sameInode: bool, stillSame: bool, recorderOk: bool)

  type Outcome = (LeaseState, Result<Mode>)

  /** A recorder that fails has persisted nothing. */
  function Recorded(s: LeaseState, e: Evidence, recorderOk: bool): LeaseState {
    if recorderOk then s.(rows := s.rows + [Row(e, s.mode)]) else s
  }

  function Revalidate(s: LeaseState, sameInode: bool, recorderOk: bool): Outcome {
    match s.mode
    case None => (s, Failure("no writer authority"))
    case Some(CancelOnly) => (s, Success(CancelOnly))
    case Some(mode) =>
      if !s.held then (s, Failure("no held writer lease"))
      else if !sameInode then
        (Recorded(s.(mode := None, held := false), Invalidated, recorderOk), Failure("lock inode changed"))
      else (s, Success(mode))
  }

  predicate Allowed(mode: Mode, action: Action) {
    match action
    case Cancel => true
    case CancelAll => true
    case ReduceOnly => mode.RiskIncreasing? || mode.FlattenOnly?
    case Modify => false
    case _ => mode.RiskIncreasing?
  }

  function Authorize(s: LeaseState, action: Action, env: Env): Outcome {
    var (t, r) := Revalidate(s, env.sameInode, env.recorderOk);
    if r.Failure? || Allowed(r.value, action) then (t, r)
    else (Recorded(t, Denied(r.value, action), env.recorderOk), Failure("writer action not authorized"))
  }

  function Elevate(s: LeaseState, promotionNs: int, env: Env): Outcome {
    var (t, r) := Revalidate(s, env.sameInode, env.recorderOk);
    if r.Failure? then (t, r)
    else if r.value != PendingReconciliation then (t, Failure("writer lease not promotable"))
    else if t.acquired.None? then (t, Failure("missing writer acquisition time"))
    else if promotionNs < t.acquired.value then (t, Failure("promotion_ns predates acquisition"))
    else if !env.recorderOk then (t, Failure("promotion recording failed"))
    else (Recorded(t, Promoted, true).(mode := Some(RiskIncreasing)), Success(RiskIncreasing))
  }

  function DemoteToCancelOnly(s: LeaseState, sameInode: bool, recorderOk: bool): Outcome {
    match s.mode
    case None => (s, Failure("no writer authority"))
    case Some(mode) =>
      if !mode.FlattenOnly? && !mode.RiskIncreasing? then (s, Success(mode))
      else
        var (t, r) := Revalidate(s, sameInode, recorderOk);
        if r.Failure? then (t, r)
        else (Recorded(t.(mode := Some(CancelOnly)), Demoted(CancelOnly), recorderOk),
              if recorderOk then Success(CancelOnly) else Failure("writer demotion applied; evidence recording failed"))
  }

  function DemoteToFlattenOnly(s: LeaseState, env: Env): Outcome {
    var (t, r) := Revalidate(s, env.sameInode, env.recorderOk);
    if r.Failure? then (t, r)
    else if r.value != RiskIncreasing then (t, Failure("writer lease not risk increasing"))
    else (Recorded(t.(mode := Some(FlattenOnly)), Demoted(FlattenOnly), env.recorderOk),
          if env.recorderOk then Success(FlattenOnly)
          else Failure("writer flatten restriction applied; evidence recording failed"))
  }

  function Release(s: LeaseState, env: Env): (LeaseState, Option<string>) {
    if !s.held then (s.(mode := None), None)
    else
      var (t, r) := Revalidate(s, env.sameInode, env.recorderOk);
      if r.Failure? then (t, Some(r.error))
      else (Recorded(t.(mode := None, held := false), Released, env.recorderOk), None)
  }

  // ---------- promotion ----------

  function Promote(s: LeaseState, ready: bool, nowNs: int, env: Env): Outcome {
    if nowNs <= 0 then (s, Failure("now_ns must be positive"))
    else
      match s.mode
      case None => (s, Failure("no writer authority"))
      case Some(RiskIncreasing) => (s, Failure("writer already risk increasing"))
      case Some(CancelOnly) =>
        (Recorded(s, PromotionDenied(CancelOnly), env.recorderOk), Failure("writer authority not promotable"))
      case Some(mode) =>
        if ready then Elevate(s, nowNs, env)
        else
          var (t, r) := Revalidate(s, env.sameInode, env.recorderOk);
          if r.Failure? then (t, r)
          else if mode.FlattenOnly? then (t, Failure("invalid promotion decision"))
          else (Recorded(t, PromotionDenied(mode), env.recorderOk), Failure("admission freeze"))
  }

  /** A freezing admission demotes before it is returned; a ready one leaves the lease alone. */
  function ApplyContinuousAdmission(s: LeaseState, ready: bool, nowNs: int, env: Env): (LeaseState, Result<bool>) {
    if nowNs <= 0 then (s, Failure("now_ns must be positive"))
    else if ready then (s, Success(true))
    else
      var (t, r) := DemoteToCancelOnly(s, env.sameInode, env.recorderOk);
      (t, if r.Failure? then Failure(r.error) else Success(false))
  }

  function DemoteKillSwitchFreeze(s: LeaseState, nowNs: int, env: Env): Outcome {
    if nowNs <= 0 then (s, Failure("now_ns must be positive")) else DemoteToCancelOnly(s, env.sameInode, env.recorderOk)
  }

  function DemoteKillSwitchFlatten(s: LeaseState, nowNs: int, env: Env): Outcome {
    if nowNs <= 0 then (s, Failure("demotion_ns must be positive")) else DemoteToFlattenOnly(s, env)
  }

  function DemoteKillSwitchComplete(s: LeaseState, nowNs: int, env: Env): Outcome {
    var (t, r) := Revalidate(s, env.sameInode, env.recorderOk);
    if r.Failure? then (t, r)
    else if r.value != FlattenOnly then (t, Failure("writer lease not flatten only"))
    else if nowNs <= 0 then (t, Failure("demotion_ns must be positive"))
    else DemoteToCancelOnly(t, env.stillSame, env.recorderOk)
  }

  // ---------- every step ----------

  datatype Op =
    | DoAuthorize(action: Action)
    | DoPromote(ready: bool, promoteNs: int)
    | DoAdmit(admitted: bool, admitNs: int)
    | DoFreeze(freezeNs: int)
    | DoFlatten(flattenNs: int)
    | DoComplete(completeNs: int)
    | DoRevalidate
    | DoRelease

  datatype Step = Step(op: Op, env: Env)

  function Next(s: LeaseState, step: Step): LeaseState {
    var env := step.env;
    match step.op
    case DoAuthorize(action) => Authorize(s, action, env).0
    case DoPromote(ready, ns) => Promote(s, ready, ns, env).0
    case DoAdmit(ready, ns) => ApplyContinuousAdmission(s, ready, ns, env).0
    case DoFreeze(ns) => DemoteKillSwitchFreeze(s, ns, env).0
    case DoFlatten(ns) => DemoteKillSwitchFlatten(s, ns, env).0
    case DoComplete(ns) => DemoteKillSwitchComplete(s, ns, env).0
    case DoRevalidate => Revalidate(s, env.sameInode, env.recorderOk).0
    case DoRelease => Release(s, env).0
  }

  function Rank(mode: Option<Mode>): nat {
    match mode
    case None => 4
    case Some(PendingReconciliation) => 0
    case Some(RiskIncreasing) => 1
    case Some(FlattenOnly) => 2
    case Some(CancelOnly) => 3
  }

  function Promotions(rows: seq<Row>): nat {
    if rows == [] then 0 else Promotions(rows[..|rows| - 1]) + if rows[|rows| - 1].evidence.Promoted? then 1 else 0
  }

  /** What a row says about the mode that was in force while it was recorded. */
  predicate LawfulRow(row: Row) {
    match row.evidence
    case Promoted => row.live == Some(PendingReconciliation)
    case Demoted(to) => row.live == Some(to) && (to.FlattenOnly? || to.CancelOnly?)
    case Denied(mode, action) => row.live == Some(mode) && !Allowed(mode, action)
    case PromotionDenied(from) => row.live == Some(from) && (from.PendingReconciliation? || from.CancelOnly?)
    case Invalidated => row.live == None
    case Released => row.live == None
  }

  /** A row cannot say that the lease has gone further than it has. */
  predicate Consistent(row: Row, mode: Option<Mode>) {
    && LawfulRow(row)
    && Rank(row.live) <= Rank(mode)
    && (row.evidence.Promoted? ==> mode != Some(PendingReconciliation))
  }

  /** Authority beyond cancelling is held only together with the lock. */
  predicate HeldIfActive(s: LeaseState) {
    s.mode.Some? && !s.mode.value.CancelOnly? ==> s.held
  }

  ghost predicate Lawful(s: LeaseState) {
    && (forall i :: 0 <= i < |s.rows| ==> Consistent(s.rows[i], s.mode))
    && Promotions(s.rows) <= 1
    && (s.mode == Some(RiskIncreasing) || s.mode == Some(FlattenOnly) ==> Promotions(s.rows) == 1)
    && (s.mode == Some(PendingReconciliation) ==> Promotions(s.rows) == 0)
    && HeldIfActive(s)
  }

  lemma RecordedLawful(s: LeaseState, e: Evidence, recorderOk: bool)
    requires Lawful(s) && !e.Promoted? && LawfulRow(Row(e, s.mode))
    ensures Lawful(Recorded(s, e, recorderOk))
  {
    var t := Recorded(s, e, recorderOk);
    if recorderOk {
      assert t.rows[..|t.rows| - 1] == s.rows;
    }
  }

  lemma LowerLawful(s: LeaseState, mode: Option<Mode>, held: bool)
    requires Lawful(s) && Rank(s.mode) <= Rank(mode)
    requires mode == Some(FlattenOnly) ==> s.mode == Some(RiskIncreasing)
    requires mode.None? || mode.value.FlattenOnly? || mode.value.CancelOnly?
    requires mode.Some? && !mode.value.CancelOnly? ==> held
    ensures Lawful(s.(mode := mode, held := held))
  {
  }

  lemma PromotedLawful(s: LeaseState)
    requires Lawful(s) && s.mode == Some(PendingReconciliation)
    ensures Lawful(Recorded(s, Promoted, true).(mode := Some(RiskIncreasing)))
  {
    var t := Recorded(s, Promoted, true);
    assert t.rows[..|t.rows| - 1] == s.rows;
  }

  /** The state after a step: lawful, no mode regained, no row lost. */
  ghost predicate Advances(s: LeaseState, t: LeaseState) {
    Lawful(t) && Rank(s.mode) <= Rank(t.mode) && s.rows <= t.rows && t.acquired == s.acquired
  }

  lemma RecordedAdvances(s: LeaseState, e: Evidence, recorderOk: bool)
    requires Lawful(s) && !e.Promoted? && LawfulRow(Row(e, s.mode))
    ensures Advances(s, Recorded(s, e, recorderOk))
  {
    RecordedLawful(s, e, recorderOk);
  }

  lemma RevalidateAdvances(s: LeaseState, sameInode: bool, recorderOk: bool)
    requires Lawful(s)
    ensures Advances(s, Revalidate(s, sameInode, recorderOk).0)
    ensures var (t, r) := Revalidate(s, sameInode, recorderOk); r.Success? ==> t == s && s.mode == Some(r.value)
  {
    if s.mode.Some? && !s.mode.value.CancelOnly? {
      LowerLawful(s, None, false);
      RecordedLawful(s.(mode := None, held := false), Invalidated, recorderOk);
    }
  }

  lemma DemoteAdvances(s: LeaseState, to: Mode, recorderOk: bool)
    requires Lawful(s) && s.mode.Some? && (to.CancelOnly? || (to.FlattenOnly? && s.mode.value.RiskIncreasing?))
    ensures Advances(s, Recorded(s.(mode := Some(to)), Demoted(to), recorderOk))
  {
    LowerLawful(s, Some(to), s.held);
    RecordedLawful(s.(mode := Some(to)), Demoted(to), recorderOk);
  }

  lemma CancelAdvances(s: LeaseState, sameInode: bool, recorderOk: bool)
    requires Lawful(s)
    ensures Advances(s, DemoteToCancelOnly(s, sameInode, recorderOk).0)
  {
    RevalidateAdvances(s, sameInode, recorderOk);
    if s.mode.Some? && Revalidate(s, sameInode, recorderOk).1.Success? {
      DemoteAdvances(s, CancelOnly, recorderOk);
    }
  }

  lemma PromoteAdvances(s: LeaseState, ready: bool, nowNs: int, env: Env)
    requires Lawful(s)
    ensures Advances(s, Promote(s, ready, nowNs, env).0)
  {
    RevalidateAdvances(s, env.sameInode, env.recorderOk);
    match s.mode
    case Some(CancelOnly) => RecordedLawful(s, PromotionDenied(CancelOnly), env.recorderOk);
    case Some(PendingReconciliation) =>
      PromotedLawful(s);
      RecordedLawful(s, PromotionDenied(PendingReconciliation), env.recorderOk);
    case _ =>
  }

  lemma ReleaseAdvances(s: LeaseState, env: Env)
    requires Lawful(s)
    ensures Advances(s, Release(s, env).0)
  {
    RevalidateAdvances(s, env.sameInode, env.recorderOk);
    LowerLawful(s, None, s.held);
    LowerLawful(s, None, false);
    RecordedLawful(s.(mode := None, held := false), Released, env.recorderOk);
  }

  lemma AuthorizeAdvances(s: LeaseState, action: Action, env: Env)
    requires Lawful(s)
    ensures Advances(s, Authorize(s, action, env).0)
  {
    RevalidateAdvances(s, env.sameInode, env.recorderOk);
    var r := Revalidate(s, env.sameInode, env.recorderOk).1;
    if r.Success? && !Allowed(r.value, action) {
      RecordedAdvances(s, Denied(r.value, action), env.recorderOk);
    }
  }

  lemma FlattenAdvances(s: LeaseState, nowNs: int, env: Env)
    requires Lawful(s)
    ensures Advances(s, DemoteKillSwitchFlatten(s, nowNs, env).0)
  {
    RevalidateAdvances(s, env.sameInode, env.recorderOk);
    var r := Revalidate(s, env.sameInode, env.recorderOk).1;
    if r.Success? && r.value.RiskIncreasing? {
      DemoteAdvances(s, FlattenOnly, env.recorderOk);
    }
  }

  lemma CompleteAdvances(s: LeaseState, nowNs: int, env: Env)
    requires Lawful(s)
    ensures Advances(s, DemoteKillSwitchComplete(s, nowNs, env).0)
  {
    RevalidateAdvances(s, env.sameInode, env.recorderOk);
    CancelAdvances(s, env.stillSame, env.recorderOk);
  }

  lemma StepAdvances(s: LeaseState, step: Step)
    requires Lawful(s)
    ensures Advances(s, Next(s, step))
  {
    var env := step.env;
    match step.op
    case DoAuthorize(action) => AuthorizeAdvances(s, action, env);
    case DoPromote(ready, ns) => PromoteAdvances(s, ready, ns, env);
    case DoAdmit(ready, ns) => CancelAdvances(s, env.sameInode, env.recorderOk);
    case DoFreeze(ns) => CancelAdvances(s, env.sameInode, env.recorderOk);
    case DoFlatten(ns) => FlattenAdvances(s, ns, env);
    case DoComplete(ns) => CompleteAdvances(s, ns, env);
    case DoRevalidate => RevalidateAdvances(s, env.sameInode, env.recorderOk);
    case DoRelease => ReleaseAdvances(s, env);
  }

  // ---------- every run ----------

  /** A lease as an acquisition leaves it: pending with the lock, or cancel-only behind an incumbent. */
  predicate JustAcquired(s: LeaseState) {
    || s == LeaseState(Some(PendingReconciliation), true, s.acquired, [])
    || s == LeaseState(Some(CancelOnly), false, None, [])
  }

  function Run(s: LeaseState, steps: seq<Step>): LeaseState {
    if steps == [] then s else Next(Run(s, steps[..|steps| - 1]), steps[|steps| - 1])
  }

  lemma {:induction false} RunLawful(s: LeaseState, steps: seq<Step>)
    requires Lawful(s)
    ensures Lawful(Run(s, steps))
  {
    if steps != [] {
      RunLawful(s, steps[..|steps| - 1]);
      StepAdvances(Run(s, steps[..|steps| - 1]), steps[|steps| - 1]);
    }
  }

  lemma {:induction false} RunAdvances(s: LeaseState, steps: seq<Step>, i: nat)
    requires Lawful(s) && i <= |steps|
    ensures Advances(Run(s, steps[..i]), Run(s, steps))
    decreases |steps|
  {
    if i == |steps| {
      assert steps[..i] == steps;
      RunLawful(s, steps);
    } else {
      var front := steps[..|steps| - 1];
      assert front[..i] == steps[..i];
      RunAdvances(s, front, i);
      StepAdvances(Run(s, front), steps[|steps| - 1]);
    }
  }

  /**
   * On every run of one lease the mode only moves forward, evidence is never lost, the lease is promoted at most
   * once, and every row was recorded on the safe side of its change: a promotion while still pending, a demotion once
   * already lowered.
   */
  lemma ModeNeverRegained(s: LeaseState, steps: seq<Step>, i: nat)
    requires JustAcquired(s) && i <= |steps|
    ensures var before, after := Run(s, steps[..i]), Run(s, steps);
            && Rank(before.mode) <= Rank(after.mode)
            && before.rows <= after.rows
            && Promotions(after.rows) <= 1
            && (forall k :: 0 <= k < |after.rows| ==> LawfulRow(after.rows[k]))
  {
    RunAdvances(s, steps, i);
    RunLawful(s, steps);
    forall k | 0 <= k < |Run(s, steps).rows|
      ensures LawfulRow(Run(s, steps).rows[k])
    {
      assert Consistent(Run(s, steps).rows[k], Run(s, steps).mode);
    }
  }

  /**
   * Anything but a cancellation is authorized only under an unchanged lock, after the one promotion was recorded and
   * before any demotion to cancel-only; anything but a reduction also before any demotion at all; a modification never.
   */
  lemma AuthorityNeedsPromotion(s: LeaseState, steps: seq<Step>, action: Action, env: Env)
    requires JustAcquired(s) && !action.Cancel? && !action.CancelAll?
    requires Authorize(Run(s, steps), action, env).1.Success?
    ensures var t := Run(s, steps);
            && env.sameInode && Promotions(t.rows) == 1 && !action.Modify?
            && (forall k :: 0 <= k < |t.rows| ==> t.rows[k].evidence != Demoted(CancelOnly))
            && (!action.ReduceOnly? ==>
                  t.mode == Some(RiskIncreasing) && forall k :: 0 <= k < |t.rows| ==> !t.rows[k].evidence.Demoted?)
  {
    var t := Run(s, steps);
    RunLawful(s, steps);
    forall k | 0 <= k < |t.rows|
      ensures t.rows[k].evidence.Demoted? ==> t.rows[k].evidence == Demoted(FlattenOnly) && t.mode == Some(FlattenOnly)
    {
      assert Consistent(t.rows[k], t.mode);
    }
  }

  predicate OnlyCancels(s: LeaseState) {
    s.mode != Some(RiskIncreasing) && s.mode != Some(FlattenOnly)
  }

  lemma FlattenRevokesRisk(s: LeaseState, nowNs: int, env: Env)
    requires HeldIfActive(s) && nowNs > 0
    ensures DemoteKillSwitchFlatten(s, nowNs, env).0.mode != Some(RiskIncreasing)
  {
  }

  lemma CancelOnlyRevokes(s: LeaseState, sameInode: bool, recorderOk: bool)
    requires HeldIfActive(s)
    ensures OnlyCancels(DemoteToCancelOnly(s, sameInode, recorderOk).0)
  {
  }

  lemma FreezeRevokes(t: LeaseState, nowNs: int, env: Env)
    requires HeldIfActive(t) && nowNs > 0
    ensures OnlyCancels(ApplyContinuousAdmission(t, false, nowNs, env).0)
    ensures OnlyCancels(DemoteKillSwitchFreeze(t, nowNs, env).0)
    ensures DemoteKillSwitchFlatten(t, nowNs, env).0.mode != Some(RiskIncreasing)
  {
    CancelOnlyRevokes(t, env.sameInode, env.recorderOk);
    FlattenRevokesRisk(t, nowNs, env);
  }

  /**
   * At any point of any run a freeze takes every authority beyond cancelling, and a flatten takes risk, whatever the
   * recorder and the lock file do.
   */
  lemma FreezeAlwaysRevokes(s: LeaseState, steps: seq<Step>, nowNs: int, env: Env)
    requires JustAcquired(s) && nowNs > 0
    ensures var t := Run(s, steps);
            && OnlyCancels(ApplyContinuousAdmission(t, false, nowNs, env).0)
            && OnlyCancels(DemoteKillSwitchFreeze(t, nowNs, env).0)
            && DemoteKillSwitchFlatten(t, nowNs, env).0.mode != Some(RiskIncreasing)
  {
    RunLawful(s, steps);
    FreezeRevokes(Run(s, steps), nowNs, env);
  }

  /**
   * Risk is held at two moments of a run only if it is held at every moment between them: it is entered at most once.
   */
  lemma RiskEnteredOnce(s: LeaseState, steps: seq<Step>, i: nat, j: nat)
    requires JustAcquired(s) && i <= j <= |steps|
    requires Run(s, steps[..i]).mode == Some(RiskIncreasing) && Run(s, steps).mode == Some(RiskIncreasing)
    ensures Run(s, steps[..j]).mode == Some(RiskIncreasing)
  {
    RunAdvances(s, steps, j);
    assert steps[..j][..i] == steps[..i];
    RunAdvances(s, steps[..j], i);
  }

  /** A promotion takes effect exactly when it was recorded; a demotion takes effect whether or not it was. */
  lemma RecorderDecidesPromotionOnly(s: LeaseState, nowNs: int, env: Env)
    requires Lawful(s) && nowNs > 0
    ensures var (t, r) := Promote(s, true, nowNs, env);
            (r.Success? <==> s.mode == Some(PendingReconciliation) && env.sameInode && env.recorderOk
                             && s.acquired.Some? && s.acquired.value <= nowNs)
            && (r.Success? <==> Promotions(t.rows) == Promotions(s.rows) + 1)
            && (r.Success? <==> t.mode == Some(RiskIncreasing) && s.mode != Some(RiskIncreasing))
    ensures (s.mode == Some(RiskIncreasing) || s.mode == Some(FlattenOnly)) && env.sameInode ==>
              var (t, r) := DemoteKillSwitchFreeze(s, nowNs, env);
              t.mode == Some(CancelOnly) && (r.Success? <==> env.recorderOk) && (env.recorderOk <==> t.rows != s.rows)
  {
    PromoteAdvances(s, true, nowNs, env);
    var t := Promote(s, true, nowNs, env).0;
    assert t.rows == s.rows || (|t.rows| == |s.rows| + 1 && t.rows[..|t.rows| - 1] == s.rows);
  }

  // ---------- the lease object ----------

  class WriterLease {
    var mode: Option<Mode>
    var held: bool
    const acquired: Option<int>

    /** The evidence that the recorders have persisted. */
    var rows: seq<Row>

    function State(): LeaseState
      reads this
    {
      LeaseState(mode, held, acquired, rows)
    }

    constructor (s: LeaseState)
      requires JustAcquired(s)
      ensures State() == s
    {
      mode, held, acquired, rows := s.mode, s.held, s.acquired, s.rows;
    }

    method Record(e: Evidence, recorderOk: bool)
      modifies this`rows
      ensures State() == Recorded(old(State()), e, recorderOk)
    {
      if recorderOk {
        rows := rows + [Row(e, mode)];
      }
    }

    method RevalidateLease(sameInode: bool, recorderOk: bool) returns (r: Result<Mode>)
      modifies this
      ensures (State(), r) == Revalidate(old(State()), sameInode, recorderOk)
    {
      if mode.None? {
        return Failure("no writer authority");
      }
      if mode.value.CancelOnly? {
        return Success(CancelOnly);
      }
      if !held {
        return Failure("no held writer lease");
      }
      if !sameInode {
        held, mode := false, None;
        Record(Invalidated, recorderOk);
        return Failure("lock inode changed");
      }
      return Success(mode.value);
    }

    method AuthorizeAction(action: Action, env: Env) returns (r: Result<Mode>)
      modifies this
      ensures (State(), r) == Authorize(old(State()), action, env)
    {
      r := RevalidateLease(env.sameInode, env.recorderOk);
      if r.Success? && !Allowed(r.value, action) {
        Record(Denied(r.value, action), env.recorderOk);
        return Failure("writer action not authorized");
      }
    }

    method ElevateToRiskIncreasing(promotionNs: int, env: Env) returns (r: Result<Mode>)
      modifies this
      ensures (State(), r) == Elevate(old(State()), promotionNs, env)
    {
      r := RevalidateLease(env.sameInode, env.recorderOk);
      if r.Failure? {
        return;
      }
      if r.value != PendingReconciliation {
        return Failure("writer lease not promotable");
      }
      if acquired.None? {
        return Failure("missing writer acquisition time");
      }
      if promotionNs < acquired.value {
        return Failure("promotion_ns predates acquisition");
      }
      if !env.recorderOk {
        return Failure("promotion recording failed");
      }
      Record(Promoted, true);
      mode := Some(RiskIncreasing);
      return Success(RiskIncreasing);
    }

    method DemoteCancelOnly(sameInode: bool, recorderOk: bool) returns (r: Result<Mode>)
      modifies this
      ensures (State(), r) == DemoteToCancelOnly(old(State()), sameInode, recorderOk)
    {
      if mode.None? {
        return Failure("no writer authority");
      }
      if !mode.value.FlattenOnly? && !mode.value.RiskIncreasing? {
        return Success(mode.value);
      }
      r := RevalidateLease(sameInode, recorderOk);
      if r.Failure? {
        return;
      }
      mode := Some(CancelOnly);
      Record(Demoted(CancelOnly), recorderOk);
      if !recorderOk {
        return Failure("writer demotion applied; evidence recording failed");
      }
      return Success(CancelOnly);
    }

    method DemoteFlattenOnly(env: Env) returns (r: Result<Mode>)
      modifies this
      ensures (State(), r) == DemoteToFlattenOnly(old(State()), env)
    {
      r := RevalidateLease(env.sameInode, env.recorderOk);
      if r.Failure? {
        return;
      }
      if r.value != RiskIncreasing {
        return Failure("writer lease not risk increasing");
      }
      mode := Some(FlattenOnly);
      Record(Demoted(FlattenOnly), env.recorderOk);
      if !env.recorderOk {
        return Failure("writer flatten restriction applied; evidence recording failed");
      }
      return Success(FlattenOnly);
    }

    method ReleaseLease(env: Env) returns (error: Option<string>)
      modifies this
      ensures (State(), error) == Release(old(State()), env)
    {
      if held {
        var r := RevalidateLease(env.sameInode, env.recorderOk);
        if r.Failure? {
          return Some(r.error);
        }
        held, mode := false, None;
        Record(Released, env.recorderOk);
      }
      held, mode := false, None;
      return None;
    }

    method PromoteWriter(ready: bool, nowNs: int, env: Env) returns (r: Result<Mode>)
      modifies this
      ensures (State(), r) == Promote(old(State()), ready, nowNs, env)
    {
      if nowNs <= 0 {
        return Failure("now_ns must be positive");
      }
      if mode.None? {
        return Failure("no writer authority");
      }
      var from := mode.value;
      if from.RiskIncreasing? {
        return Failure("writer already risk increasing");
      }
      if from.CancelOnly? {
        Record(PromotionDenied(CancelOnly), env.recorderOk);
        return Failure("writer authority not promotable");
      }
      if ready {
        r := ElevateToRiskIncreasing(nowNs, env);
        return;
      }
      r := RevalidateLease(env.sameInode, env.recorderOk);
      if r.Failure? {
        return;
      }
      if from.FlattenOnly? {
        return Failure("invalid promotion decision");
      }
      Record(PromotionDenied(from), env.recorderOk);
      return Failure("admission freeze");
    }

    method EnforceContinuousAdmission(ready: bool, nowNs: int, env: Env) returns (r: Result<bool>)
      modifies this
      ensures (State(), r) == ApplyContinuousAdmission(old(State()), ready, nowNs, env)
    {
      if nowNs <= 0 {
        return Failure("now_ns must be positive");
      }
      if !ready {
        var demoted := DemoteCancelOnly(env.sameInode, env.recorderOk);
        if demoted.Failure? {
          return Failure(demoted.error);
        }
      }
      return Success(ready);
    }

    method CompleteKillSwitch(nowNs: int, env: Env) returns (r: Result<Mode>)
      modifies this
      ensures (State(), r) == DemoteKillSwitchComplete(old(State()), nowNs, env)
    {
      r := RevalidateLease(env.sameInode, env.recorderOk);
      if r.Failure? {
        return;
      }
      if r.value != FlattenOnly {
        return Failure("writer lease not flatten only");
      }
      if nowNs <= 0 {
        return Failure("demotion_ns must be positive");
      }
      r := DemoteCancelOnly(env.stillSame, env.recorderOk);
    }
  }
}
