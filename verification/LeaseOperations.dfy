/** What each operation of a lease does, told by the mode it meets, the lock file and the recorder. */
module LeaseOperations {
  import opened Common
  import opened Lease

  /** The actions that a mode permits. */
  predicate Permits(mode: Mode, action: Action) {
    || action == Cancel || action == CancelAll
    || (action == ReduceOnly && (mode == RiskIncreasing || mode == FlattenOnly))
    || ((action == Submit || action == Close || action == Market) && mode == RiskIncreasing)
  }

  /** The lease would pass a look at its lock: cancel-only authority always does. */
  predicate Stands(s: LeaseState, same: bool) {
    s.mode == Some(CancelOnly) || (s.mode != None && s.held && same)
  }

  /** A look at the lock would find it replaced. */
  predicate Lost(s: LeaseState, same: bool) {
    s.mode != None && s.mode != Some(CancelOnly) && s.held && !same
  }

  /** The mode is one that a freeze demotes. */
  predicate Restrictable(s: LeaseState) {
    s.mode == Some(RiskIncreasing) || s.mode == Some(FlattenOnly)
  }

  /** The mode is one that a freeze leaves alone. */
  predicate Idle(s: LeaseState) {
    s.mode == Some(PendingReconciliation) || s.mode == Some(CancelOnly)
  }

  /** The operation looks at the lock. */
  predicate Looks(s: LeaseState, op: Op) {
    match op
    case DoAuthorize(_) => true
    case DoPromote(_, ns) => ns > 0 && (s.mode == Some(PendingReconciliation) || s.mode == Some(FlattenOnly))
    case DoAdmit(ready, ns) => ns > 0 && !ready && Restrictable(s)
    case DoFreeze(ns) => ns > 0 && Restrictable(s)
    case DoFlatten(ns) => ns > 0
    case DoComplete(_) => true
    case DoRevalidate => true
    case DoRelease => s.held
  }

  /** A completed flattening looks again before it demotes. */
  predicate LooksTwice(s: LeaseState, step: Step) {
    step.op.DoComplete? && step.op.completeNs > 0 && s.mode == Some(FlattenOnly) && s.held && step.env.sameInode
  }

  predicate LosesLease(s: LeaseState, step: Step) {
    (Looks(s, step.op) && Lost(s, step.env.sameInode)) || (LooksTwice(s, step) && !step.env.stillSame)
  }

  predicate Elevates(s: LeaseState, step: Step) {
    && step.op.DoPromote? && step.op.ready && step.op.promoteNs > 0
    && s.mode == Some(PendingReconciliation) && s.held && step.env.sameInode
    && s.acquired.Some? && s.acquired.value <= step.op.promoteNs && step.env.recorderOk
  }

  predicate Flattens(s: LeaseState, step: Step) {
    && step.op.DoFlatten? && step.op.flattenNs > 0
    && s.mode == Some(RiskIncreasing) && s.held && step.env.sameInode
  }

  predicate Cancels(s: LeaseState, step: Step) {
    && s.held && step.env.sameInode
    && match step.op
       case DoAdmit(ready, ns) => !ready && ns > 0 && Restrictable(s)
       case DoFreeze(ns) => ns > 0 && Restrictable(s)
       case DoComplete(ns) => ns > 0 && s.mode == Some(FlattenOnly) && step.env.stillSame
       case _ => false
  }

  /** A lock is never held without some authority. */
  predicate Sensible(s: LeaseState) {
    s.held ==> s.mode.Some?
  }

  function ModeAfter(s: LeaseState, step: Step): Option<Mode> {
    if step.op.DoRelease? || LosesLease(s, step) then None
    else if Elevates(s, step) then Some(RiskIncreasing)
    else if Flattens(s, step) then Some(FlattenOnly)
    else if Cancels(s, step) then Some(CancelOnly)
    else s.mode
  }

  /** The row that the operation offers its recorder, if any. */
  function RowOf(s: LeaseState, step: Step): Option<Row> {
    if LosesLease(s, step) then Some(Row(Invalidated, None))
    else if step.op.DoRelease? && s.held then Some(Row(Released, None))
    else if Elevates(s, step) then Some(Row(Promoted, Some(PendingReconciliation)))
    else if Flattens(s, step) then Some(Row(Demoted(FlattenOnly), Some(FlattenOnly)))
    else if Cancels(s, step) then Some(Row(Demoted(CancelOnly), Some(CancelOnly)))
    else if step.op.DoAuthorize? && Stands(s, step.env.sameInode) && !Permits(s.mode.value, step.op.action) then
      Some(Row(Denied(s.mode.value, step.op.action), s.mode))
    else if step.op.DoPromote? && step.op.promoteNs > 0 && Refuses(s, step) then
      Some(Row(PromotionDenied(s.mode.value), s.mode))
    else None
  }

  /** A promotion is refused with a row: behind an incumbent, or while pending without a ready admission. */
  predicate Refuses(s: LeaseState, step: Step)
    requires step.op.DoPromote?
  {
    || s.mode == Some(CancelOnly)
    || (!step.op.ready && s.mode == Some(PendingReconciliation) && s.held && step.env.sameInode)
  }

  /** Mode, lock and rows of t are what the step makes of s. */
  predicate Told(s: LeaseState, step: Step, t: LeaseState) {
    && t.mode == ModeAfter(s, step)
    && (t.held <==> s.held && !step.op.DoRelease? && !LosesLease(s, step))
    && t.acquired == s.acquired
    && t.rows == s.rows + if RowOf(s, step).Some? && step.env.recorderOk then [RowOf(s, step).value] else []
  }

  lemma CheckTold(s: LeaseState, step: Step)
    requires Sensible(s) && (step.op.DoAuthorize? || step.op.DoRevalidate?)
    ensures Told(s, step, Next(s, step))
  {
  }

  lemma PromoteTold(s: LeaseState, step: Step)
    requires Sensible(s) && step.op.DoPromote?
    ensures Told(s, step, Next(s, step))
  {
  }

  /** The state after the lease was found lost, was restricted to a mode, or was left as it was. */
  predicate Restricted(s: LeaseState, t: LeaseState, lost: bool, restricts: bool, to: Mode, recorderOk: bool) {
    if lost then t == Recorded(s.(mode := None, held := false), Invalidated, recorderOk)
    else if restricts then t == Recorded(s.(mode := Some(to)), Demoted(to), recorderOk)
    else t == s
  }

  lemma RestrictedTold(s: LeaseState, step: Step, t: LeaseState, to: Mode)
    requires step.op.DoAdmit? || step.op.DoFreeze? || step.op.DoFlatten? || step.op.DoComplete?
    requires to == if step.op.DoFlatten? then FlattenOnly else CancelOnly
    requires Restricted(s, t, LosesLease(s, step), Cancels(s, step) || Flattens(s, step), to, step.env.recorderOk)
    ensures Told(s, step, t)
  {
  }

  lemma FreezeTold(s: LeaseState, step: Step)
    requires Sensible(s) && (step.op.DoAdmit? || step.op.DoFreeze?)
    ensures Told(s, step, Next(s, step))
  {
    assert Restricted(s, Next(s, step), LosesLease(s, step), Cancels(s, step), CancelOnly, step.env.recorderOk);
    RestrictedTold(s, step, Next(s, step), CancelOnly);
  }

  lemma FlattenTold(s: LeaseState, step: Step)
    requires Sensible(s) && step.op.DoFlatten?
    ensures Told(s, step, Next(s, step))
  {
    assert Restricted(s, Next(s, step), LosesLease(s, step), Flattens(s, step), FlattenOnly, step.env.recorderOk);
    RestrictedTold(s, step, Next(s, step), FlattenOnly);
  }

  lemma CompleteTold(s: LeaseState, step: Step)
    requires Sensible(s) && step.op.DoComplete?
    ensures Told(s, step, Next(s, step))
  {
  }

  lemma ReleaseTold(s: LeaseState, step: Step)
    requires Sensible(s) && step.op.DoRelease?
    ensures Told(s, step, Next(s, step))
  {
  }

  /**
   * Mode and lock change exactly as the operation and what it meets demand; rows are never lost, and one is added
   * exactly when the operation offers one and the recorder works.
   */
  lemma StepExactly(s: LeaseState, step: Step)
    requires Sensible(s)
    ensures Told(s, step, Next(s, step)) && Sensible(Next(s, step))
  {
    match step.op
    case DoAuthorize(_) => CheckTold(s, step);
    case DoRevalidate => CheckTold(s, step);
    case DoPromote(_, _) => PromoteTold(s, step);
    case DoAdmit(_, _) => FreezeTold(s, step);
    case DoFreeze(_) => FreezeTold(s, step);
    case DoFlatten(_) => FlattenTold(s, step);
    case DoComplete(_) => CompleteTold(s, step);
    case DoRelease => ReleaseTold(s, step);
  }

  /** What an authorization and a look at the lock answer. */
  lemma ChecksAnswer(s: LeaseState, env: Env, action: Action)
    ensures var r := Authorize(s, action, env).1;
            && (r.Success? <==> Stands(s, env.sameInode) && Permits(s.mode.value, action))
            && (r.Success? ==> s.mode == Some(r.value))
    ensures var r := Revalidate(s, env.sameInode, env.recorderOk).1;
            (r.Success? <==> Stands(s, env.sameInode)) && (r.Success? ==> s.mode == Some(r.value))
    ensures Release(s, env).1.None? <==> !s.held || Stands(s, env.sameInode)
  {
  }

  /** What a promotion answers. */
  lemma PromotionAnswers(s: LeaseState, env: Env, ready: bool, ns: int)
    ensures var r := Promote(s, ready, ns, env).1;
            (r.Success? <==> Elevates(s, Step(DoPromote(ready, ns), env))) && (r.Success? ==> r.value == RiskIncreasing)
  {
  }

  /** What the restrictions of a kill switch answer. */
  lemma RestrictionsAnswer(s: LeaseState, env: Env, ns: int)
    ensures var r := DemoteKillSwitchFlatten(s, ns, env).1;
            && (r.Success? <==> Flattens(s, Step(DoFlatten(ns), env)) && env.recorderOk)
            && (r.Success? ==> r.value == FlattenOnly)
    ensures var r := DemoteKillSwitchComplete(s, ns, env).1;
            && (r.Success? <==> Cancels(s, Step(DoComplete(ns), env)) && env.recorderOk)
            && (r.Success? ==> r.value == CancelOnly)
  {
  }

  /** A freeze succeeds where there was nothing to demote, or where the demotion was recorded. */
  lemma FreezesAnswer(s: LeaseState, env: Env, ready: bool, ns: int)
    ensures var r, idle := DemoteKillSwitchFreeze(s, ns, env).1, Idle(s);
            && (r.Success? <==> ns > 0 && (idle || (Cancels(s, Step(DoFreeze(ns), env)) && env.recorderOk)))
            && (r.Success? ==> Some(r.value) == if idle then s.mode else Some(CancelOnly))
    ensures var r, idle := ApplyContinuousAdmission(s, ready, ns, env).1, Idle(s);
            && (r.Success? <==>
                  ns > 0 && (ready || idle || (Cancels(s, Step(DoAdmit(false, ns), env)) && env.recorderOk)))
            && (r.Success? ==> r.value == ready)
  {
  }

  lemma ReleasedIff(s: LeaseState, env: Env)
    requires Told(s, Step(DoRelease, env), Next(s, Step(DoRelease, env)))
    ensures Next(s, Step(DoRelease, env)).rows == s.rows + [Row(Released, None)] <==>
              s.held && !Lost(s, env.sameInode) && env.recorderOk
  {
    var row := RowOf(s, Step(DoRelease, env));
    assert row.Some? && env.recorderOk ==> Next(s, Step(DoRelease, env)).rows[|s.rows|] == row.value;
  }

  lemma {:induction false} RunSensible(s: LeaseState, steps: seq<Step>)
    requires JustAcquired(s)
    ensures Sensible(Run(s, steps))
  {
    if steps != [] {
      RunSensible(s, steps[..|steps| - 1]);
      StepExactly(Run(s, steps[..|steps| - 1]), steps[|steps| - 1]);
    }
  }

  lemma {:induction false} NoneStays(s: LeaseState, steps: seq<Step>)
    requires s.mode == None && !s.held
    ensures Run(s, steps).mode == None && !Run(s, steps).held
  {
    if steps != [] {
      NoneStays(s, steps[..|steps| - 1]);
      StepExactly(Run(s, steps[..|steps| - 1]), steps[|steps| - 1]);
    }
  }

  /**
   * At any point of any run, whatever the lock file and the recorder do, a release leaves no mode and no lock, and
   * nothing that happens afterwards authorizes any action again, cancelling included. Its row is added exactly when
   * the lease was held, its lock was still its own where that matters, and the recorder works.
   */
  lemma ReleaseIsFinal(s: LeaseState, steps: seq<Step>, env: Env, more: seq<Step>, action: Action, later: Env)
    requires JustAcquired(s)
    ensures var before := Run(s, steps);
            var after := Next(before, Step(DoRelease, env));
            && after.mode == None && !after.held
            && (after.rows == before.rows + [Row(Released, None)] <==>
                  before.held && !Lost(before, env.sameInode) && env.recorderOk)
            && Authorize(Run(after, more), action, later).1.Failure?
  {
    var before, step := Run(s, steps), Step(DoRelease, env);
    RunSensible(s, steps);
    StepExactly(before, step);
    NoneStays(Next(before, step), more);
    ReleasedIff(before, env);
  }
}
