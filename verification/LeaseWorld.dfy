/**
 * Many processes acquiring one account's writer lease, each system call a separate step, while processes crash and the
 * environment renames, replaces or removes the lock path between any two of them.
 */
module LeaseWorld {
  import opened Common
  import Lease

  /** Where one process stands in acquiring or holding the lease. */
  datatype Proc =
    | Idle
    | Opened(inode: nat)
    | Locked(inode: nat)
    | Checked(inode: nat)
    | EpochRead(inode: nat, epoch: nat)
    | Truncated(inode: nat, epoch: nat)
    | Written(inode: nat, epoch: nat)
    | Holding(inode: nat, epoch: nat, mode: Lease.Mode)
    | Contended

  datatype Grant = Grant(inode: nat, epoch: nat)

  /** At most so many bytes of the metadata are ever read back. */
  const METADATA_LIMIT := 4096

  /** How long an encoding is, and how much of it the write put into the file. */
  datatype Encoding = Encoding(length: nat, written: nat)

  /** All of the encoding is in the file and is read back. */
  predicate Whole(x: Encoding) {
    x.length <= x.written && x.length <= METADATA_LIMIT
  }

  /** The encoded identity and epoch. */
  datatype Metadata = Metadata(epoch: nat, encoding: Encoding)

  /**
   * path: the inode that the lock path names. files: the metadata that each inode holds, if any. holders: which process
   * has each inode locked. lost: inodes whose writer crashed between truncating and writing, wrote only a part, or
   * wrote more than is read back.
   */
  datatype World = World(
    path: Option<nat>, files: seq<Option<Metadata>>, holders: map<nat, nat>, procs: map<nat, Proc>,
    granted: seq<Grant>, lost: set<nat>)

  datatype Act =
    | Open
    | Flock(known: bool)
    | CheckInode
    | ReadEpoch
    | Truncate
    | WriteMetadata(encoding: Encoding)
    | Record(ok: bool)
    | ChangeMode(to: Lease.Mode)
    | Revalidate
    | Release
    | Crash

  datatype Step =
    | Process(pid: nat, act: Act)
    | Rename(target: nat)
    | NewFile(file: Option<Metadata>)
    | Unlink

  function ProcOf(w: World, pid: nat): Proc {
    if pid in w.procs then w.procs[pid] else Idle
  }

  function Became(w: World, pid: nat, p: Proc): World {
    w.(procs := w.procs[pid := p])
  }

  /** Closing the descriptor releases the lock with it. */
  function Closed(w: World, pid: nat, inode: nat): World {
    var own := inode in w.holders && w.holders[inode] == pid;
    w.(procs := w.procs[pid := Idle], holders := if own then w.holders - {inode} else w.holders)
  }

  function NextEpoch(previous: Option<nat>): nat {
    if previous.Some? then previous.value + 1 else 1
  }

  /** Metadata that the write or the read cuts off does not decode, and reads like an empty file. */
  function StoredEpoch(w: World, inode: nat): Option<nat> {
    if inode < |w.files| && w.files[inode].Some? && Whole(w.files[inode].value.encoding) then
      Some(w.files[inode].value.epoch)
    else None
  }

  function Stored(w: World, inode: nat, file: Option<Metadata>): World {
    if inode < |w.files| then w.(files := w.files[inode := file]) else w
  }

  function Overwritten(w: World, inode: nat, file: Metadata): World {
    var v := Stored(w, inode, Some(file));
    if Whole(file.encoding) then v else v.(lost := v.lost + {inode})
  }

  function Acts(w: World, pid: nat, act: Act): World {
    match (ProcOf(w, pid), act)
    case (Idle, Open) =>
      if w.path.Some? then Became(w, pid, Opened(w.path.value))
      else Became(w.(path := Some(|w.files|), files := w.files + [None]), pid, Opened(|w.files|))
    case (Opened(inode), Flock(known)) =>
      if inode in w.holders then Became(w, pid, if known then Contended else Idle)
      else Became(w.(holders := w.holders[inode := pid]), pid, Locked(inode))
    case (Locked(inode), CheckInode) =>
      if w.path == Some(inode) then Became(w, pid, Checked(inode)) else Closed(w, pid, inode)
    case (Checked(inode), ReadEpoch) => Became(w, pid, EpochRead(inode, NextEpoch(StoredEpoch(w, inode))))
    case (EpochRead(inode, epoch), Truncate) => Became(Stored(w, inode, None), pid, Truncated(inode, epoch))
    case (Truncated(inode, epoch), WriteMetadata(x)) =>
      Became(Overwritten(w, inode, Metadata(epoch, x)), pid, Written(inode, epoch))
    case (Written(inode, epoch), Record(ok)) =>
      if ok then
        Became(w.(granted := w.granted + [Grant(inode, epoch)]), pid,
            Holding(inode, epoch, Lease.PendingReconciliation))
      else Closed(w, pid, inode)
    case (Holding(inode, epoch, mode), ChangeMode(to)) => Became(w, pid, Holding(inode, epoch, to))
    case (Holding(inode, epoch, mode), Revalidate) =>
      if mode.CancelOnly? || w.path == Some(inode) then w else Closed(w, pid, inode)
    case (Holding(inode, epoch, mode), Release) => Closed(w, pid, inode)
    case (p, Crash) => Crashed(w, pid, p)
    case _ => w
  }

  function Crashed(w: World, pid: nat, p: Proc): World {
    match p
    case Idle => w
    case Contended => Became(w, pid, Idle)
    case Truncated(inode, epoch) => Closed(w.(lost := w.lost + {inode}), pid, inode)
    case _ => Closed(w, pid, p.inode)
  }

  function Next(w: World, step: Step): World {
    match step
    case Process(pid, act) => Acts(w, pid, act)
    case Rename(target) => if target < |w.files| then w.(path := Some(target)) else w
    case NewFile(file) => w.(path := Some(|w.files|), files := w.files + [file])
    case Unlink => w.(path := None)
  }

  // ---------- mutual exclusion ----------

  predicate HasLock(p: Proc) {
    p.Locked? || p.Checked? || p.EpochRead? || p.Truncated? || p.Written? || p.Holding?
  }

  /** What a process stands on is real: its inode exists, and if it has passed the lock call, the lock is its own. */
  predicate Grounded(w: World, pid: nat, p: Proc) {
    match p
    case Idle => true
    case Contended => true
    case Opened(inode) => inode < |w.files|
    case _ => p.inode < |w.files| && p.inode in w.holders && w.holders[p.inode] == pid
  }

  ghost predicate Sound(w: World) {
    (w.path.Some? ==> w.path.value < |w.files|) && forall pid :: Grounded(w, pid, ProcOf(w, pid))
  }

  /** The process's lease would pass revalidation with an authority that can still place or reduce. */
  predicate Active(w: World, pid: nat) {
    var p := ProcOf(w, pid);
    p.Holding? && !p.mode.CancelOnly? && w.path == Some(p.inode)
  }

  lemma BecameSound(w: World, pid: nat, p: Proc)
    requires Sound(w) && Grounded(w, pid, p)
    ensures Sound(Became(w, pid, p))
  {
    var v := Became(w, pid, p);
    forall q: nat | true
      ensures Grounded(v, q, ProcOf(v, q))
    {
      assert Grounded(w, q, ProcOf(w, q));
    }
  }

  lemma ClosedSound(w: World, pid: nat, inode: nat)
    requires Sound(w)
    ensures Sound(Closed(w, pid, inode))
  {
    var v := Closed(w, pid, inode);
    forall q: nat | true
      ensures Grounded(v, q, ProcOf(v, q))
    {
      assert Grounded(w, q, ProcOf(w, q));
    }
  }

  lemma FilesSound(w: World, path: Option<nat>, files: seq<Option<Metadata>>, lost: set<nat>, granted: seq<Grant>)
    requires Sound(w) && |files| >= |w.files| && (path.Some? ==> path.value < |files|)
    ensures Sound(w.(path := path, files := files, lost := lost, granted := granted))
  {
    var v := w.(path := path, files := files, lost := lost, granted := granted);
    forall q: nat | true
      ensures Grounded(v, q, ProcOf(v, q))
    {
      assert Grounded(w, q, ProcOf(w, q));
    }
  }

  lemma LockSound(w: World, pid: nat, inode: nat)
    requires Sound(w) && inode !in w.holders && inode < |w.files|
    ensures Sound(Became(w.(holders := w.holders[inode := pid]), pid, Locked(inode)))
  {
    var v := Became(w.(holders := w.holders[inode := pid]), pid, Locked(inode));
    forall q: nat | true
      ensures Grounded(v, q, ProcOf(v, q))
    {
      assert Grounded(w, q, ProcOf(w, q));
    }
  }

  lemma ActSound(w: World, pid: nat, act: Act)
    requires Sound(w)
    ensures Sound(Acts(w, pid, act))
  {
    assert Grounded(w, pid, ProcOf(w, pid));
    match (ProcOf(w, pid), act)
    case (Idle, Open) =>
      if w.path.Some? {
        BecameSound(w, pid, Opened(w.path.value));
      } else {
        var v := w.(path := Some(|w.files|), files := w.files + [None]);
        FilesSound(w, v.path, v.files, w.lost, w.granted);
        BecameSound(v, pid, Opened(|w.files|));
      }
    case (Opened(inode), Flock(known)) =>
      if inode in w.holders {
        BecameSound(w, pid, if known then Contended else Idle);
      } else {
        LockSound(w, pid, inode);
      }
    case (Locked(inode), CheckInode) => BecameSound(w, pid, Checked(inode)); ClosedSound(w, pid, inode);
    case (Checked(inode), ReadEpoch) => BecameSound(w, pid, EpochRead(inode, NextEpoch(StoredEpoch(w, inode))));
    case (EpochRead(inode, epoch), Truncate) => StoreSound(w, pid, inode, None, Truncated(inode, epoch));
    case (Truncated(inode, epoch), WriteMetadata(x)) =>
      WriteSound(w, pid, inode, Metadata(epoch, x), Written(inode, epoch));
    case (Written(inode, epoch), Record(ok)) =>
      var v := w.(granted := w.granted + [Grant(inode, epoch)]);
      FilesSound(w, w.path, w.files, w.lost, v.granted);
      BecameSound(v, pid, Holding(inode, epoch, Lease.PendingReconciliation));
      ClosedSound(w, pid, inode);
    case (Holding(inode, epoch, mode), ChangeMode(to)) => BecameSound(w, pid, Holding(inode, epoch, to));
    case (Holding(inode, epoch, mode), Revalidate) => ClosedSound(w, pid, inode);
    case (Holding(inode, epoch, mode), Release) => ClosedSound(w, pid, inode);
    case (p, Crash) => CrashSound(w, pid, p);
    case _ =>
  }

  lemma WriteSound(w: World, pid: nat, inode: nat, file: Metadata, p: Proc)
    requires Sound(w) && Grounded(w, pid, p)
    ensures Sound(Became(Overwritten(w, inode, file), pid, p))
  {
    var v := Overwritten(w, inode, file);
    FilesSound(w, w.path, v.files, v.lost, w.granted);
    BecameSound(v, pid, p);
  }

  lemma StoreSound(w: World, pid: nat, inode: nat, file: Option<Metadata>, p: Proc)
    requires Sound(w) && Grounded(w, pid, p)
    ensures Sound(Became(Stored(w, inode, file), pid, p))
  {
    var v := Stored(w, inode, file);
    FilesSound(w, w.path, v.files, w.lost, w.granted);
    BecameSound(v, pid, p);
  }

  lemma CrashSound(w: World, pid: nat, p: Proc)
    requires Sound(w)
    ensures Sound(Crashed(w, pid, p))
  {
    match p
    case Idle =>
    case Contended => BecameSound(w, pid, Idle);
    case Truncated(inode, epoch) =>
      FilesSound(w, w.path, w.files, w.lost + {inode}, w.granted);
      ClosedSound(w.(lost := w.lost + {inode}), pid, inode);
    case _ => ClosedSound(w, pid, p.inode);
  }

  lemma StepSound(w: World, step: Step)
    requires Sound(w)
    ensures Sound(Next(w, step))
  {
    match step
    case Process(pid, act) => ActSound(w, pid, act);
    case Rename(target) =>
      if target < |w.files| {
        FilesSound(w, Some(target), w.files, w.lost, w.granted);
      }
    case NewFile(file) => FilesSound(w, Some(|w.files|), w.files + [file], w.lost, w.granted);
    case Unlink => FilesSound(w, None, w.files, w.lost, w.granted);
  }

  function Run(w: World, steps: seq<Step>): World {
    if steps == [] then w else Next(Run(w, steps[..|steps| - 1]), steps[|steps| - 1])
  }

  /** No process has opened the lock yet, whatever files the directory holds. */
  predicate Fresh(w: World) {
    && w.procs == map[] && w.holders == map[] && w.granted == [] && w.lost == {}
    && (w.path.Some? ==> w.path.value < |w.files|)
  }

  lemma {:induction false} RunSound(w: World, steps: seq<Step>)
    requires Fresh(w)
    ensures Sound(Run(w, steps))
  {
    if steps != [] {
      RunSound(w, steps[..|steps| - 1]);
      StepSound(Run(w, steps[..|steps| - 1]), steps[|steps| - 1]);
    }
  }

  /** At every moment of every run at most one lease passes revalidation with more than cancel-only authority. */
  lemma AtMostOneActive(w: World, steps: seq<Step>, a: nat, b: nat)
    requires Fresh(w) && Active(Run(w, steps), a) && Active(Run(w, steps), b)
    ensures a == b
  {
    RunSound(w, steps);
    var v := Run(w, steps);
    assert Grounded(v, a, ProcOf(v, a)) && Grounded(v, b, ProcOf(v, b));
  }

  // ---------- epochs ----------

  function Pred(n: nat): nat {
    if n == 0 then 0 else n - 1
  }

  function HolderProc(w: World, inode: nat): Proc {
    if inode in w.holders then ProcOf(w, w.holders[inode]) else Idle
  }

  /** The largest epoch that can have been granted on the inode so far. */
  function GrantBound(w: World, inode: nat): nat {
    var p := HolderProc(w, inode);
    if (p.Truncated? || p.Written?) && p.inode == inode then Pred(p.epoch) else Pred(NextEpoch(StoredEpoch(w, inode)))
  }

  /** What a process remembers of the file agrees with the file. */
  predicate Claim(w: World, p: Proc) {
    match p
    case EpochRead(inode, epoch) => epoch == NextEpoch(StoredEpoch(w, inode))
    case Truncated(inode, epoch) => epoch >= 1 && StoredEpoch(w, inode) == None
    case Written(inode, epoch) => epoch >= 1 && (StoredEpoch(w, inode) == Some(epoch) || inode in w.lost)
    case _ => true
  }

  ghost predicate Claims(w: World) {
    forall pid :: Claim(w, ProcOf(w, pid))
  }

  /** Apart from lost inodes, grants stay within the bound and each is above every earlier one of its inode. */
  ghost predicate Ladder(w: World) {
    && (forall k :: 0 <= k < |w.granted| && w.granted[k].inode !in w.lost ==>
          w.granted[k].epoch <= GrantBound(w, w.granted[k].inode))
    && EpochsIncrease(w)
  }

  ghost predicate EpochsIncrease(w: World) {
    forall j, k ::
      (0 <= j < k < |w.granted| && w.granted[j].inode == w.granted[k].inode && w.granted[k].inode !in w.lost) ==>
        w.granted[j].epoch < w.granted[k].epoch
  }

  lemma ClaimsStep(w: World, step: Step)
    requires Sound(w) && Claims(w)
    ensures Claims(Next(w, step))
  {
    var v := Next(w, step);
    forall q: nat | true
      ensures Claim(v, ProcOf(v, q))
    {
      assert Claim(w, ProcOf(w, q)) && Grounded(w, q, ProcOf(w, q));
      match step
      case Process(pid, act) =>
        assert Claim(w, ProcOf(w, pid)) && Grounded(w, pid, ProcOf(w, pid));
        ClaimAfterAct(w, pid, act, q);
      case _ =>
    }
  }

  lemma ClaimAfterAct(w: World, pid: nat, act: Act, q: nat)
    requires Claim(w, ProcOf(w, q)) && Grounded(w, q, ProcOf(w, q))
    requires Claim(w, ProcOf(w, pid)) && Grounded(w, pid, ProcOf(w, pid))
    ensures Claim(Acts(w, pid, act), ProcOf(Acts(w, pid, act), q))
  {
  }

  lemma OwnBoundRises(w: World, pid: nat, act: Act, inode: nat)
    requires Claim(w, ProcOf(w, pid)) && Grounded(w, pid, ProcOf(w, pid))
    requires HasLock(ProcOf(w, pid)) && ProcOf(w, pid).inode == inode && inode !in Acts(w, pid, act).lost
    ensures GrantBound(w, inode) <= GrantBound(Acts(w, pid, act), inode)
    ensures act.Record? && act.ok && ProcOf(w, pid).Written? ==>
              GrantBound(w, inode) < ProcOf(w, pid).epoch == GrantBound(Acts(w, pid, act), inode)
  {
  }

  /** The process has truncated the inode and not yet been granted its epoch. */
  predicate Replacing(p: Proc, inode: nat) {
    (p.Truncated? || p.Written?) && p.inode == inode
  }

  /** A process that does not have the inode locked leaves its content, and whoever is replacing it, alone. */
  lemma OtherLeavesInode(w: World, pid: nat, act: Act, inode: nat)
    requires Grounded(w, pid, ProcOf(w, pid))
    requires !HasLock(ProcOf(w, pid)) || ProcOf(w, pid).inode != inode
    ensures StoredEpoch(Acts(w, pid, act), inode) == StoredEpoch(w, inode)
    ensures var p, q := HolderProc(w, inode), HolderProc(Acts(w, pid, act), inode);
            p == q || (!Replacing(p, inode) && !Replacing(q, inode))
  {
  }

  lemma OtherBoundRises(w: World, pid: nat, act: Act, inode: nat)
    requires Grounded(w, pid, ProcOf(w, pid))
    requires !HasLock(ProcOf(w, pid)) || ProcOf(w, pid).inode != inode
    ensures GrantBound(w, inode) <= GrantBound(Acts(w, pid, act), inode)
  {
    OtherLeavesInode(w, pid, act, inode);
  }

  /**
   * No step lowers the bound of an inode, except one that loses its metadata, and a grant lies strictly above the old
   * bound.
   */
  lemma BoundRises(w: World, pid: nat, act: Act, inode: nat)
    requires Sound(w) && Claims(w) && inode !in Acts(w, pid, act).lost
    ensures GrantBound(w, inode) <= GrantBound(Acts(w, pid, act), inode)
    ensures act.Record? && act.ok && ProcOf(w, pid).Written? && inode == ProcOf(w, pid).inode ==>
              GrantBound(w, inode) < ProcOf(w, pid).epoch == GrantBound(Acts(w, pid, act), inode)
  {
    assert Claim(w, ProcOf(w, pid)) && Grounded(w, pid, ProcOf(w, pid));
    if HasLock(ProcOf(w, pid)) && ProcOf(w, pid).inode == inode {
      OwnBoundRises(w, pid, act, inode);
    } else {
      OtherBoundRises(w, pid, act, inode);
    }
  }

  lemma EnvironmentBoundRises(w: World, step: Step, inode: nat)
    requires !step.Process?
    ensures GrantBound(w, inode) <= GrantBound(Next(w, step), inode)
  {
  }

  /** What a process that has truncated the file must not do next. */
  predicate LosesMetadata(act: Act) {
    || act.Crash?
    || (act.WriteMetadata? && (act.encoding.written < act.encoding.length || act.encoding.length > 4096))
  }

  /**
   * Only recording an acquisition grants; only a crash between truncating and writing, or a write that is cut off,
   * loses.
   */
  lemma WhatActsGrant(w: World, pid: nat, act: Act)
    ensures var v, p := Acts(w, pid, act), ProcOf(w, pid);
            && v.granted
            == (if p.Written? && act.Record? && act.ok then w.granted + [Grant(p.inode, p.epoch)] else w.granted)
            && v.lost == (if p.Truncated? && LosesMetadata(act) then w.lost + {p.inode} else w.lost)
  {
  }

  lemma LadderStep(w: World, step: Step)
    requires Sound(w) && Claims(w) && Ladder(w)
    ensures Ladder(Next(w, step))
  {
    var v := Next(w, step);
    if step.Process? {
      WhatActsGrant(w, step.pid, step.act);
    }
    forall k | 0 <= k < |v.granted| && v.granted[k].inode !in v.lost
      ensures v.granted[k].epoch <= GrantBound(v, v.granted[k].inode)
      ensures k == |w.granted| ==> v.granted[k].epoch > GrantBound(w, v.granted[k].inode)
    {
      var inode := v.granted[k].inode;
      match step
      case Process(pid, act) => BoundRises(w, pid, act, inode);
      case _ => EnvironmentBoundRises(w, step, inode);
    }
  }

  lemma {:induction false} RunLadder(w: World, steps: seq<Step>)
    requires Fresh(w)
    ensures Claims(Run(w, steps)) && Ladder(Run(w, steps))
  {
    if steps != [] {
      var front, last := steps[..|steps| - 1], steps[|steps| - 1];
      RunLadder(w, front);
      RunSound(w, front);
      ClaimsStep(Run(w, front), last);
      LadderStep(Run(w, front), last);
    }
  }

  /**
   * The step crashes a process between truncating the metadata of an inode and writing it, or makes it write only a
   * part of it or more than is read back.
   */
  predicate Loses(w: World, step: Step, inode: nat) {
    && step.Process?
    && LosesMetadata(step.act)
    && ProcOf(w, step.pid).Truncated?
    && ProcOf(w, step.pid).inode == inode
  }

  predicate EverLoses(w: World, steps: seq<Step>, inode: nat) {
    steps != [] &&
    (EverLoses(w, steps[..|steps| - 1], inode) || Loses(Run(w, steps[..|steps| - 1]), steps[|steps| - 1], inode))
  }

  lemma LosesStep(w: World, step: Step, inode: nat)
    ensures inode in Next(w, step).lost <==> inode in w.lost || Loses(w, step, inode)
  {
    if step.Process? {
      WhatActsGrant(w, step.pid, step.act);
    }
  }

  lemma {:induction false} LostHasCause(w: World, steps: seq<Step>, inode: nat)
    requires w.lost == {}
    ensures inode in Run(w, steps).lost <==> EverLoses(w, steps, inode)
  {
    if steps != [] {
      var front := steps[..|steps| - 1];
      LostHasCause(w, front, inode);
      LosesStep(Run(w, front), steps[|steps| - 1], inode);
    }
  }

  /**
   * On one lock file, whatever the environment does to the path and whichever processes crash, every granted epoch is
   * larger than all earlier ones, unless a writer of that file crashed between truncating and writing its metadata,
   * wrote only a part of it, or wrote metadata too long to be read back.
   */
  lemma EpochsStrictlyIncrease(w: World, steps: seq<Step>, inode: nat, j: nat, k: nat)
    requires Fresh(w) && !EverLoses(w, steps, inode)
    requires var granted := Run(w, steps).granted; j < k < |granted| && granted[j].inode == inode == granted[k].inode
    ensures Run(w, steps).granted[j].epoch < Run(w, steps).granted[k].epoch
  {
    RunLadder(w, steps);
    LostHasCause(w, steps, inode);
  }

  // ---------- the exact condition ----------

  predicate Writes(w: World, step: Step, inode: nat) {
    && step.Process?
    && step.act.WriteMetadata?
    && ProcOf(w, step.pid).Truncated?
    && ProcOf(w, step.pid).inode == inode
  }

  /** A new file is put in place with metadata that can be read. */
  predicate Brings(w: World, step: Step, inode: nat) {
    && step.NewFile? && inode == |w.files| && step.file.Some?
    && step.file.value.encoding.length <= 4096
    && step.file.value.encoding.length <= step.file.value.encoding.written
  }

  /**
   * The epoch that a file stands for, counted from the steps alone: what it held at first, one more for every write,
   * and zero again after every loss.
   */
  function Standing(w: World, steps: seq<Step>, inode: nat): nat {
    if steps == [] then Pred(NextEpoch(StoredEpoch(w, inode)))
    else
      var front, step := steps[..|steps| - 1], steps[|steps| - 1];
      if Loses(Run(w, front), step, inode) then 0
      else if Writes(Run(w, front), step, inode) then Standing(w, front, inode) + 1
      else if Brings(Run(w, front), step, inode) then step.file.value.epoch
      else Standing(w, front, inode)
  }

  /** The epoch that the file holds, or that its truncated content is about to be replaced from. */
  function Held(w: World, inode: nat): nat {
    var p := HolderProc(w, inode);
    if p.Truncated? && p.inode == inode then Pred(p.epoch) else Pred(NextEpoch(StoredEpoch(w, inode)))
  }

  lemma OwnHeldStep(w: World, pid: nat, act: Act, inode: nat)
    requires Claim(w, ProcOf(w, pid)) && Grounded(w, pid, ProcOf(w, pid))
    requires HasLock(ProcOf(w, pid)) && ProcOf(w, pid).inode == inode
    ensures Held(Acts(w, pid, act), inode)
         == if ProcOf(w, pid).Truncated? && LosesMetadata(act) then 0
            else if ProcOf(w, pid).Truncated? && act.WriteMetadata? then Held(w, inode) + 1
            else Held(w, inode)
  {
  }

  lemma OtherHeldStep(w: World, pid: nat, act: Act, inode: nat)
    requires Grounded(w, pid, ProcOf(w, pid))
    requires !HasLock(ProcOf(w, pid)) || ProcOf(w, pid).inode != inode
    ensures Held(Acts(w, pid, act), inode) == Held(w, inode)
  {
    OtherLeavesInode(w, pid, act, inode);
  }

  lemma EnvironmentHeldStep(w: World, step: Step, inode: nat)
    requires Sound(w) && !step.Process?
    ensures Held(Next(w, step), inode) == if Brings(w, step, inode) then step.file.value.epoch else Held(w, inode)
  {
    assert inode in w.holders ==> Grounded(w, w.holders[inode], ProcOf(w, w.holders[inode]));
  }

  /** On every run, what a file holds is what its writes since the last loss add up to. */
  lemma {:induction false} HeldIsStanding(w: World, steps: seq<Step>, inode: nat)
    requires Fresh(w)
    ensures Held(Run(w, steps), inode) == Standing(w, steps, inode)
  {
    if steps != [] {
      var front, step := steps[..|steps| - 1], steps[|steps| - 1];
      var u := Run(w, front);
      HeldIsStanding(w, front, inode);
      RunSound(w, front);
      RunLadder(w, front);
      if step.Process? {
        assert Claim(u, ProcOf(u, step.pid)) && Grounded(u, step.pid, ProcOf(u, step.pid));
        if HasLock(ProcOf(u, step.pid)) && ProcOf(u, step.pid).inode == inode {
          OwnHeldStep(u, step.pid, step.act, inode);
        } else {
          OtherHeldStep(u, step.pid, step.act, inode);
        }
      } else {
        EnvironmentHeldStep(u, step, inode);
      }
    }
  }

  /**
   * The exact condition, at the moment of the read: the epoch that an acquisition takes is one more than what the file
   * stands for, so it is above an earlier grant of the file if and only if the writes since the last loss have reached
   * that grant.
   */
  lemma ReadRisesIff(w: World, steps: seq<Step>, pid: nat, inode: nat, k: nat)
    requires Fresh(w) && ProcOf(Run(w, steps), pid) == Checked(inode)
    requires var granted := Run(w, steps).granted; k < |granted| && granted[k].inode == inode
    ensures var p := ProcOf(Acts(Run(w, steps), pid, ReadEpoch), pid);
            && p.EpochRead? && p.inode == inode
            && (Run(w, steps).granted[k].epoch < p.epoch <==>
                 Run(w, steps).granted[k].epoch <= Standing(w, steps, inode))
  {
    HeldIsStanding(w, steps, inode);
    RunSound(w, steps);
    assert Grounded(Run(w, steps), pid, ProcOf(Run(w, steps), pid));
  }

  // ---------- the two exceptions ----------

  function ActAll(w: World, pid: nat, acts: seq<Act>): World
    decreases |acts|
  {
    if acts == [] then w else ActAll(Acts(w, pid, acts[0]), pid, acts[1..])
  }

  function UpToRead(): seq<Act> {
    [Open, Flock(true), CheckInode, ReadEpoch]
  }

  /** A free lock file that the path names and an idle process: the first four steps read the next epoch. */
  lemma ReadsNextEpoch(w: World, pid: nat, inode: nat)
    requires CanAcquire(w, pid, inode)
    ensures ActAll(w, pid, UpToRead())
         == w.(procs := w.procs[pid := EpochRead(inode, NextEpoch(StoredEpoch(w, inode)))],
             holders := w.holders[inode := pid])
  {
    var a := Acts(w, pid, Open);
    assert a == Became(w, pid, Opened(inode));
    var b := Acts(a, pid, Flock(true));
    assert b == Became(a.(holders := a.holders[inode := pid]), pid, Locked(inode));
    var c := Acts(b, pid, CheckInode);
    assert c == Became(b, pid, Checked(inode));
    var d := Acts(c, pid, ReadEpoch);
    assert UpToRead()[1..] == [Flock(true), CheckInode, ReadEpoch];
    assert [Flock(true), CheckInode, ReadEpoch][1..] == [CheckInode, ReadEpoch];
    assert [CheckInode, ReadEpoch][1..] == [ReadEpoch] && [ReadEpoch][1..] == [];
    assert ActAll(d, pid, []) == d;
    assert d.procs == w.procs[pid := EpochRead(inode, NextEpoch(StoredEpoch(w, inode)))];
  }

  function TruncateThenCrash(w: World, pid: nat): World {
    Acts(Acts(ActAll(w, pid, UpToRead()), pid, Truncate), pid, Crash)
  }

  /** A whole acquisition with the given encoding of its metadata. */
  function Acquire(w: World, pid: nat, x: Encoding): World {
    Acts(Acts(Acts(ActAll(w, pid, UpToRead()), pid, Truncate), pid, WriteMetadata(x)), pid, Record(true))
  }

  /** The path names the inode, nobody has it locked, and the process is idle. */
  predicate CanAcquire(w: World, pid: nat, inode: nat) {
    w.path == Some(inode) && inode < |w.files| && inode !in w.holders && ProcOf(w, pid).Idle?
  }

  lemma AcquireGrants(w: World, pid: nat, inode: nat, x: Encoding)
    requires CanAcquire(w, pid, inode)
    ensures var v, epoch := Acquire(w, pid, x), NextEpoch(StoredEpoch(w, inode));
            && v.granted == w.granted + [Grant(inode, epoch)]
            && v.path == w.path
            && v.files == w.files[inode := Some(Metadata(epoch, x))]
            && v.procs == w.procs[pid := Holding(inode, epoch, Lease.PendingReconciliation)]
            && v.holders == w.holders[inode := pid]
  {
    var epoch := NextEpoch(StoredEpoch(w, inode));
    var a := ActAll(w, pid, UpToRead());
    ReadsNextEpoch(w, pid, inode);
    var b := Acts(a, pid, Truncate);
    assert b == Became(Stored(a, inode, None), pid, Truncated(inode, epoch));
    var c := Acts(b, pid, WriteMetadata(x));
    assert c == Became(Overwritten(b, inode, Metadata(epoch, x)), pid, Written(inode, epoch));
    assert c.files == w.files[inode := Some(Metadata(epoch, x))];
    assert c.procs == w.procs[pid := Written(inode, epoch)];
  }

  lemma TearEmptiesFile(w: World, pid: nat, other: nat, inode: nat)
    requires CanAcquire(w, pid, inode) && ProcOf(w, other).Idle?
    ensures var v := TruncateThenCrash(w, pid);
            CanAcquire(v, other, inode) && StoredEpoch(v, inode) == None && v.granted == w.granted
  {
    ReadsNextEpoch(w, pid, inode);
  }

  /**
   * A writer that crashes right after truncating makes the next writer start over at epoch 1, whatever was granted
   * before.
   */
  lemma TornFileStartsOver(w: World, a: nat, b: nat, inode: nat, x: Encoding)
    requires CanAcquire(w, a, inode) && ProcOf(w, b).Idle?
    ensures Acquire(w, b, x).granted == w.granted + [Grant(inode, NextEpoch(StoredEpoch(w, inode)))]
    ensures Acquire(TruncateThenCrash(w, a), b, x).granted == w.granted + [Grant(inode, 1)]
  {
    AcquireGrants(w, b, inode, x);
    TearEmptiesFile(w, a, b, inode);
    AcquireGrants(TruncateThenCrash(w, a), b, inode, x);
  }

  lemma LeavesCutFile(w: World, pid: nat, other: nat, inode: nat, x: Encoding)
    requires CanAcquire(w, pid, inode) && ProcOf(w, other).Idle? && !Whole(x)
    ensures var v := Acts(Acquire(w, pid, x), pid, Release);
            CanAcquire(v, other, inode) && StoredEpoch(v, inode) == None && v.granted == Acquire(w, pid, x).granted
  {
    AcquireGrants(w, pid, inode, x);
    var v := Acquire(w, pid, x);
    assert Acts(v, pid, Release) == Closed(v, pid, inode);
  }

  /**
   * No crash is needed: a writer whose identity texts make the metadata longer than what is read back, or whose write
   * is short, acquires and releases, and the next writer is granted epoch 1 again.
   */
  lemma CutFileStartsOver(w: World, a: nat, b: nat, inode: nat, x: Encoding, y: Encoding)
    requires CanAcquire(w, a, inode) && ProcOf(w, b).Idle? && (x.written < x.length || x.length > 4096)
    ensures Acquire(Acts(Acquire(w, a, x), a, Release), b, y).granted
         == w.granted + [Grant(inode, NextEpoch(StoredEpoch(w, inode))), Grant(inode, 1)]
  {
    AcquireGrants(w, a, inode, x);
    LeavesCutFile(w, a, b, inode, x);
    AcquireGrants(Acts(Acquire(w, a, x), a, Release), b, inode, y);
  }
}
