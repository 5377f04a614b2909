/**
 * Several processes of one signer on one durable log. Each loads from the log, and then acts on what it loaded and on
 * its own calls. Whatever its fence answers to a call, another process may have taken over by the time the row is
 * recorded, so nothing is assumed here about which processes are called, in what order, or what their fences answer.
 */
module NonceHandover {
  import opened Common
  import opened Nonce

  datatype Shared = Shared(processes: seq<Allocator>, log: seq<LogEvent>)

  /** One move: a call to a process, a process that loads or loads again, or an event that is not the signer's. */
  datatype Move =
    | Call(process: nat, nowMs: int, decidedNs: int, fenceHolds: bool, recorderOk: bool)
    | Load(process: nat, account: string, instance: string)
    | Other(event: LogEvent)

  /** An allocator as it is built from the log. */
  ghost predicate LoadedFrom(a: Allocator, log: seq<LogEvent>, wallet: string, account: string, instance: string) {
    && ValidIdentity(a) && a.wallet == wallet && a.account == account && a.instance == instance
    && IsReplayedLast(log, wallet, |log|, a.last)
    && IsReplayedFreeze(log, wallet, |log|, a.frozen)
  }

  /** A process that loads takes the place of the one before it, or joins the others. */
  function Placed(processes: seq<Allocator>, process: nat, a: Allocator): seq<Allocator>
    requires process <= |processes|
  {
    if process < |processes| then processes[process := a] else processes + [a]
  }

  ghost predicate Moves(w: Shared, move: Move, v: Shared, wallet: string) {
    match move
    case Call(process, nowMs, decidedNs, fenceHolds, recorderOk) =>
      && process < |w.processes|
      && var r := Allocate(w.processes[process], w.log, nowMs, decidedNs, fenceHolds, recorderOk);
         v == Shared(w.processes[process := r.0], r.1)
    case Load(process, account, instance) =>
      && v.log == w.log && process <= |w.processes| && process < |v.processes|
      && v.processes == Placed(w.processes, process, v.processes[process])
      && LoadedFrom(v.processes[process], w.log, wallet, account, instance)
    case Other(event) =>
      v == w.(log := w.log + [event]) && (event.NonceEvent? ==> event.row.wallet != wallet)
  }

  /** A run starts with a chain that no process has loaded yet; every consecutive pair of worlds is a move. */
  ghost predicate RunFrom(worlds: seq<Shared>, moves: seq<Move>, wallet: string) {
    && |worlds| == |moves| + 1
    && worlds[0].processes == [] && Chain(worlds[0].log, wallet)
    && forall k :: 0 <= k < |moves| ==> Moves(worlds[k], moves[k], worlds[k + 1], wallet)
  }

  // ---------- what a move records, read off its inputs ----------

  predicate ClockOk(a: Allocator, nowMs: int) {
    UpperOk(Max(a.last, nowMs) + 1, nowMs)
  }

  /** An unfrozen process is called with proper times, and its recorder works. */
  predicate Effective(w: Shared, move: Move) {
    && move.Call? && move.process < |w.processes| && w.processes[move.process].frozen.None?
    && move.nowMs > 0 && move.decidedNs > 0 && move.recorderOk
  }

  predicate Grants(w: Shared, move: Move) {
    Effective(w, move) && move.fenceHolds && ClockOk(w.processes[move.process], move.nowMs)
  }

  predicate RecordsFreeze(w: Shared, move: Move) {
    Effective(w, move) && !(move.fenceHolds && ClockOk(w.processes[move.process], move.nowMs))
  }

  /** The log grows by at most one event. */
  predicate Grows(log: seq<LogEvent>, more: seq<LogEvent>) {
    log <= more && |more| <= |log| + 1
  }

  // ---------- what every run keeps ----------

  ghost predicate RowsOk(log: seq<LogEvent>, wallet: string) {
    forall i :: RowAt(log, wallet, i) ==> SchemaOk(log[i].row)
  }

  predicate IdentitiesOk(processes: seq<Allocator>, wallet: string) {
    forall p :: 0 <= p < |processes| ==> ValidIdentity(processes[p]) && processes[p].wallet == wallet
  }

  ghost predicate Sound(w: Shared, wallet: string) {
    RowsOk(w.log, wallet) && IdentitiesOk(w.processes, wallet)
  }

  lemma CallRecords(a: Allocator, log: seq<LogEvent>, nowMs: int, decidedNs: int, fenceHolds: bool, recorderOk: bool)
    requires ValidIdentity(a) && RowsOk(log, a.wallet)
    ensures var r := Allocate(a, log, nowMs, decidedNs, fenceHolds, recorderOk);
            var effective := a.frozen.None? && nowMs > 0 && decidedNs > 0 && recorderOk;
            && Grows(log, r.1) && RowsOk(r.1, a.wallet)
            && ValidIdentity(r.0) && r.0.wallet == a.wallet
            && (AllocationAt(r.1, a.wallet, |log|) <==> effective && fenceHolds && ClockOk(a, nowMs))
            && (FreezeAt(r.1, a.wallet, |log|) <==> effective && !(fenceHolds && ClockOk(a, nowMs)))
            && (AllocationAt(r.1, a.wallet, |log|) ==>
                  r.1[|log|].row.previous == a.last < r.0.last == NonceAt(r.1, a.wallet, |log|) && r.0.frozen.None?)
            && (!AllocationAt(r.1, a.wallet, |log|) ==> r.0.last == a.last)
  {
    var r := Allocate(a, log, nowMs, decidedNs, fenceHolds, recorderOk);
    assert forall i :: RowAt(r.1, a.wallet, i) && i < |log| ==> RowAt(log, a.wallet, i);
  }

  /** One move keeps the world sound; what it adds to the log can be read off its inputs. */
  lemma MoveRecords(w: Shared, move: Move, v: Shared, wallet: string)
    requires Sound(w, wallet) && Moves(w, move, v, wallet)
    ensures Sound(v, wallet) && Grows(w.log, v.log)
    ensures AllocationAt(v.log, wallet, |w.log|) <==> Grants(w, move)
    ensures FreezeAt(v.log, wallet, |w.log|) <==> RecordsFreeze(w, move)
    ensures Grants(w, move) ==> v.log[|w.log|].row.previous == w.processes[move.process].last
  {
    match move
    case Call(process, nowMs, decidedNs, fenceHolds, recorderOk) =>
      CallRecords(w.processes[process], w.log, nowMs, decidedNs, fenceHolds, recorderOk);
    case Load(process, account, instance) =>
      forall p | 0 <= p < |v.processes|
        ensures ValidIdentity(v.processes[p]) && v.processes[p].wallet == wallet
      {
        assert p != process ==> v.processes[p] == w.processes[p];
      }
    case Other(event) =>
      assert forall i :: RowAt(v.log, wallet, i) ==> RowAt(w.log, wallet, i);
  }

  lemma {:induction false} RunSound(worlds: seq<Shared>, moves: seq<Move>, wallet: string, k: nat)
    requires RunFrom(worlds, moves, wallet) && k <= |moves|
    ensures Sound(worlds[k], wallet)
  {
    if k == 0 {
      assert forall i :: RowAt(worlds[0].log, wallet, i) ==> Linked(worlds[0].log, wallet, i);
    } else {
      RunSound(worlds, moves, wallet, k - 1);
      assert Moves(worlds[k - 1], moves[k - 1], worlds[k], wallet);
      MoveRecords(worlds[k - 1], moves[k - 1], worlds[k], wallet);
    }
  }

  /** Move k of a run, and what it adds to the log. */
  lemma RunMove(worlds: seq<Shared>, moves: seq<Move>, wallet: string, k: nat)
    requires RunFrom(worlds, moves, wallet) && k < |moves|
    ensures Sound(worlds[k], wallet) && Sound(worlds[k + 1], wallet)
    ensures Moves(worlds[k], moves[k], worlds[k + 1], wallet)
    ensures Grows(worlds[k].log, worlds[k + 1].log)
    ensures AllocationAt(worlds[k + 1].log, wallet, |worlds[k].log|) <==> Grants(worlds[k], moves[k])
    ensures FreezeAt(worlds[k + 1].log, wallet, |worlds[k].log|) <==> RecordsFreeze(worlds[k], moves[k])
  {
    RunSound(worlds, moves, wallet, k);
    assert Moves(worlds[k], moves[k], worlds[k + 1], wallet);
    MoveRecords(worlds[k], moves[k], worlds[k + 1], wallet);
  }

  // ---------- rows that a process has not seen ----------

  predicate Loads(move: Move, process: nat) {
    move.Load? && move.process == process
  }

  /** The move records a row of the kind, and it is not the given process that does. */
  predicate AnotherRecords(w: Shared, move: Move, process: nat, freeze: bool) {
    (if freeze then RecordsFreeze(w, move) else Grants(w, move)) && move.process != process
  }

  /** At move i another process recorded a freeze, or a grant, and the process has not loaded between i and k. */
  ghost predicate UnseenFrom(worlds: seq<Shared>, moves: seq<Move>, k: nat, process: nat, freeze: bool, i: int)
    requires k <= |moves| < |worlds|
  {
    && 0 <= i < k && AnotherRecords(worlds[i], moves[i], process, freeze)
    && forall m :: i < m < k ==> !Loads(moves[m], process)
  }

  ghost predicate Unseen(worlds: seq<Shared>, moves: seq<Move>, k: nat, process: nat, freeze: bool)
    requires k <= |moves| < |worlds|
  {
    exists i :: UnseenFrom(worlds, moves, k, process, freeze, i)
  }

  lemma UnseenStep(worlds: seq<Shared>, moves: seq<Move>, k: nat, process: nat, freeze: bool)
    requires k < |moves| < |worlds|
    ensures Unseen(worlds, moves, k + 1, process, freeze) <==>
              || AnotherRecords(worlds[k], moves[k], process, freeze)
              || (Unseen(worlds, moves, k, process, freeze) && !Loads(moves[k], process))
  {
    var next := k + 1;
    if i :| UnseenFrom(worlds, moves, next, process, freeze, i) {
      assert i < k ==> UnseenFrom(worlds, moves, k, process, freeze, i) && !Loads(moves[k], process);
    }
    if i :| UnseenFrom(worlds, moves, k, process, freeze, i) {
      assert !Loads(moves[k], process) ==> UnseenFrom(worlds, moves, next, process, freeze, i);
    }
    if AnotherRecords(worlds[k], moves[k], process, freeze) {
      assert UnseenFrom(worlds, moves, next, process, freeze, k);
    }
  }

  // ---------- unseen freezes ----------

  ghost predicate HasFreeze(log: seq<LogEvent>, wallet: string) {
    exists f :: FreezeAt(log, wallet, f)
  }

  lemma GrowsFreezes(log: seq<LogEvent>, more: seq<LogEvent>, wallet: string)
    requires Grows(log, more)
    ensures HasFreeze(more, wallet) <==> HasFreeze(log, wallet) || FreezeAt(more, wallet, |log|)
  {
    if f :| FreezeAt(log, wallet, f) {
      assert FreezeAt(more, wallet, f);
    }
    if f :| FreezeAt(more, wallet, f) {
      assert f < |log| ==> FreezeAt(log, wallet, f);
    }
  }

  predicate Unfrozen(w: Shared, process: nat) {
    process < |w.processes| && w.processes[process].frozen.None?
  }

  /** A process that is unfrozen after a move loaded a log without a freeze, or was unfrozen and recorded none. */
  lemma UnfrozenAfter(w: Shared, move: Move, v: Shared, wallet: string, process: nat)
    requires Moves(w, move, v, wallet) && Unfrozen(v, process)
    ensures if Loads(move, process) then v.log == w.log && !HasFreeze(v.log, wallet)
            else Unfrozen(w, process) && (RecordsFreeze(w, move) ==> move.process != process)
  {
  }

  /** To an unfrozen process a freeze row on the log is one of another process that it has not seen. */
  lemma {:induction false} FreezeMeansUnseen(worlds: seq<Shared>, moves: seq<Move>, wallet: string, k: nat,
                                             process: nat)
    requires RunFrom(worlds, moves, wallet) && k <= |moves| && Unfrozen(worlds[k], process)
    ensures HasFreeze(worlds[k].log, wallet) <==> Unseen(worlds, moves, k, process, true)
  {
    if k > 0 {
      var last := k - 1;
      RunMove(worlds, moves, wallet, last);
      GrowsFreezes(worlds[last].log, worlds[k].log, wallet);
      UnseenStep(worlds, moves, last, process, true);
      UnfrozenAfter(worlds[last], moves[last], worlds[k], wallet, process);
      if !Loads(moves[last], process) {
        FreezeMeansUnseen(worlds, moves, wallet, last, process);
      }
    }
  }

  // ---------- unseen grants ----------

  /** Each allocation names the one before it. */
  ghost predicate Climbs(log: seq<LogEvent>, wallet: string) {
    forall i :: AllocationAt(log, wallet, i) ==> log[i].row.previous == LastBefore(log, wallet, i)
  }

  lemma PrefixAgrees(log: seq<LogEvent>, more: seq<LogEvent>, wallet: string)
    requires Grows(log, more)
    ensures forall i: nat :: i <= |log| ==> LastBefore(log, wallet, i) == LastBefore(more, wallet, i)
    ensures forall i: nat :: i <= |log| ==> PreviousAllocation(log, wallet, i) == PreviousAllocation(more, wallet, i)
  {
    forall i: nat | i <= |log|
      ensures LastBefore(log, wallet, i) == LastBefore(more, wallet, i)
      ensures PreviousAllocation(log, wallet, i) == PreviousAllocation(more, wallet, i)
    {
      PreviousAgrees(log, more, wallet, i);
    }
  }

  lemma ClimbGrows(log: seq<LogEvent>, more: seq<LogEvent>, wallet: string)
    requires Grows(log, more) && Climbs(log, wallet)
    requires AllocationAt(more, wallet, |log|) ==> more[|log|].row.previous == LastBefore(log, wallet, |log|)
    ensures Climbs(more, wallet)
    ensures LastBefore(more, wallet, |more|)
         == if AllocationAt(more, wallet, |log|) then NonceAt(more, wallet, |log|) else LastBefore(log, wallet, |log|)
  {
    PrefixAgrees(log, more, wallet);
    assert forall i :: AllocationAt(more, wallet, i) && i < |log| ==> AllocationAt(log, wallet, i);
  }

  lemma LoadedLast(log: seq<LogEvent>, wallet: string, last: int)
    requires RowsOk(log, wallet) && Climbs(log, wallet) && IsReplayedLast(log, wallet, |log|, last)
    ensures last == LastBefore(log, wallet, |log|)
  {
    forall i: nat | AllocationAt(log, wallet, i)
      ensures 0 <= LastBefore(log, wallet, i) < NonceAt(log, wallet, i)
    {
      assert SchemaOk(log[i].row);
    }
    LastIsMaximum(log, wallet, last);
  }

  /** Before move k no process granted while a grant of another was unseen by it. */
  ghost predicate Apart(worlds: seq<Shared>, moves: seq<Move>, k: nat)
    requires k <= |moves| < |worlds|
  {
    forall i :: 0 <= i < k && Grants(worlds[i], moves[i]) ==> !Unseen(worlds, moves, i, moves[i].process, false)
  }

  /** What a process remembers of the log's last allocation, depending on whether it has seen it. */
  predicate Remembers(a: Allocator, last: int, unseen: bool) {
    if unseen then a.last < last else a.last == last
  }

  ghost predicate AllRemember(worlds: seq<Shared>, moves: seq<Move>, wallet: string, k: nat)
    requires k <= |moves| < |worlds|
  {
    && Climbs(worlds[k].log, wallet)
    && forall p: nat :: p < |worlds[k].processes| ==>
         Remembers(worlds[k].processes[p], LastBefore(worlds[k].log, wallet, |worlds[k].log|),
                   Unseen(worlds, moves, k, p, false))
  }

  lemma MoveRemembers(w: Shared, move: Move, v: Shared, wallet: string, unseen: seq<bool>, p: nat)
    requires Sound(w, wallet) && Moves(w, move, v, wallet) && Climbs(w.log, wallet) && |unseen| == |w.processes|
    requires forall q: nat :: q < |w.processes| ==>
               Remembers(w.processes[q], LastBefore(w.log, wallet, |w.log|), unseen[q])
    requires Grants(w, move) ==> !unseen[move.process]
    requires p < |v.processes|
    ensures Climbs(v.log, wallet)
    ensures Loads(move, p) || p < |w.processes|
    ensures Remembers(v.processes[p], LastBefore(v.log, wallet, |v.log|),
                      AnotherRecords(w, move, p, false) || (!Loads(move, p) && unseen[p]))
  {
    MoveRecords(w, move, v, wallet);
    ClimbGrows(w.log, v.log, wallet);
    match move
    case Call(process, nowMs, decidedNs, fenceHolds, recorderOk) =>
      CallRecords(w.processes[process], w.log, nowMs, decidedNs, fenceHolds, recorderOk);
    case Load(process, account, instance) =>
      LoadedLast(w.log, wallet, v.processes[process].last);
    case Other(event) =>
  }

  lemma {:induction false} RunRemembers(worlds: seq<Shared>, moves: seq<Move>, wallet: string, k: nat)
    requires RunFrom(worlds, moves, wallet) && k <= |moves| && Apart(worlds, moves, k)
    ensures AllRemember(worlds, moves, wallet, k)
  {
    if k == 0 {
      assert forall i :: RowAt(worlds[0].log, wallet, i) ==> Linked(worlds[0].log, wallet, i);
    } else {
      var last := k - 1;
      RunMove(worlds, moves, wallet, last);
      RunRemembers(worlds, moves, wallet, last);
      var w, v := worlds[last], worlds[k];
      var unseen := seq(|w.processes|, q requires 0 <= q < |w.processes| => Unseen(worlds, moves, last, q, false));
      if |v.processes| == 0 {
        ClimbGrows(w.log, v.log, wallet);
      } else {
        MoveRemembers(w, moves[last], v, wallet, unseen, 0);
      }
      forall p: nat | p < |v.processes|
        ensures Remembers(v.processes[p], LastBefore(v.log, wallet, |v.log|), Unseen(worlds, moves, k, p, false))
      {
        MoveRemembers(w, moves[last], v, wallet, unseen, p);
        UnseenStep(worlds, moves, last, p, false);
      }
    }
  }

  // ---------- the conflict replay ----------

  /** A process grants although another has recorded a freeze or a grant since it loaded. */
  ghost predicate Careless(worlds: seq<Shared>, moves: seq<Move>, k: nat)
    requires k < |moves| < |worlds|
  {
    && Grants(worlds[k], moves[k])
    && (Unseen(worlds, moves, k, moves[k].process, true) || Unseen(worlds, moves, k, moves[k].process, false))
  }

  ghost predicate HasBreak(log: seq<LogEvent>, wallet: string) {
    exists i: nat :: Broken(log, wallet, i)
  }

  lemma BreakGrows(log: seq<LogEvent>, more: seq<LogEvent>, wallet: string)
    requires Grows(log, more)
    ensures HasBreak(more, wallet) <==> HasBreak(log, wallet) || Broken(more, wallet, |log|)
  {
    PrefixAgrees(log, more, wallet);
    assert forall f :: f < |log| ==> (FreezeAt(log, wallet, f) <==> FreezeAt(more, wallet, f));
    forall i: nat | i < |log|
      ensures Broken(log, wallet, i) <==> Broken(more, wallet, i)
    {
      assert AfterFreeze(log, wallet, i) <==> AfterFreeze(more, wallet, i);
    }
  }

  /**
   * The last row is broken exactly when it is a grant on a frozen log, or one that does not name the grant before it.
   */
  lemma LastBroken(log: seq<LogEvent>, more: seq<LogEvent>, wallet: string, last: int)
    requires Grows(log, more) && RowsOk(log, wallet) && 0 <= last <= LastBefore(log, wallet, |log|)
    requires AllocationAt(more, wallet, |log|) ==> more[|log|].row.previous == last
    ensures Broken(more, wallet, |log|) <==>
              && AllocationAt(more, wallet, |log|)
              && (HasFreeze(log, wallet) || last != LastBefore(log, wallet, |log|))
  {
    PrefixAgrees(log, more, wallet);
    assert forall f :: f < |log| ==> (FreezeAt(log, wallet, f) <==> FreezeAt(more, wallet, f));
    assert AfterFreeze(more, wallet, |log|) <==> HasFreeze(log, wallet);
  }

  ghost predicate EverCareless(worlds: seq<Shared>, moves: seq<Move>, j: nat)
    requires j <= |moves| < |worlds|
  {
    exists k :: 0 <= k < j && Careless(worlds, moves, k)
  }

  lemma CarefulIsApart(worlds: seq<Shared>, moves: seq<Move>, j: nat)
    requires j <= |moves| < |worlds| && !EverCareless(worlds, moves, j)
    ensures Apart(worlds, moves, j)
  {
    forall i | 0 <= i < j && Grants(worlds[i], moves[i])
      ensures !Unseen(worlds, moves, i, moves[i].process, false)
    {
      assert !Careless(worlds, moves, i);
    }
  }

  /** After a careful run the next grant is broken exactly when it is careless. */
  lemma NextBreak(worlds: seq<Shared>, moves: seq<Move>, wallet: string, k: nat)
    requires RunFrom(worlds, moves, wallet) && k < |moves| && !EverCareless(worlds, moves, k)
    ensures Broken(worlds[k + 1].log, wallet, |worlds[k].log|) <==> Careless(worlds, moves, k)
  {
    var w, move, v := worlds[k], moves[k], worlds[k + 1];
    RunMove(worlds, moves, wallet, k);
    MoveRecords(w, move, v, wallet);
    if Grants(w, move) {
      var p := move.process;
      CarefulIsApart(worlds, moves, k);
      RunRemembers(worlds, moves, wallet, k);
      FreezeMeansUnseen(worlds, moves, wallet, k, p);
      assert Remembers(w.processes[p], LastBefore(w.log, wallet, |w.log|), Unseen(worlds, moves, k, p, false));
      LastBroken(w.log, v.log, wallet, w.processes[p].last);
    }
  }

  /** The log holds an allocation that the replay calls broken exactly when some grant was careless. */
  lemma {:induction false} BreakIffCareless(worlds: seq<Shared>, moves: seq<Move>, wallet: string, j: nat)
    requires RunFrom(worlds, moves, wallet) && j <= |moves|
    ensures HasBreak(worlds[j].log, wallet) <==> EverCareless(worlds, moves, j)
  {
    if j == 0 {
      forall i: nat | true
        ensures !Broken(worlds[0].log, wallet, i)
      {
        ChainNeverBreaks(worlds[0].log, wallet, i);
      }
    } else {
      var last := j - 1;
      BreakIffCareless(worlds, moves, wallet, last);
      RunMove(worlds, moves, wallet, last);
      BreakGrows(worlds[last].log, worlds[j].log, wallet);
      if !EverCareless(worlds, moves, last) {
        NextBreak(worlds, moves, wallet, last);
      }
    }
  }

  /**
   * Whatever the fences answer and however the processes interleave, the conflict replay of the log never refuses a
   * row. It finds a conflict if and only if some process granted although another had recorded a freeze or a grant
   * since it loaded. If no grant was unseen by a process that granted, the conflict is an allocation after a freeze.
   */
  lemma ConflictIffCareless(worlds: seq<Shared>, moves: seq<Move>, wallet: string, j: nat, c: Option<ChainConflict>)
    requires RunFrom(worlds, moves, wallet) && j <= |moves|
    requires IsConflict(worlds[j].log, wallet, |worlds[j].log|, c)
    ensures ValidatedRows(worlds[j].log, wallet)
    ensures c.Some? <==> exists k :: 0 <= k < j && Careless(worlds, moves, k)
    ensures c.Some? && Apart(worlds, moves, j) ==> c.value.AllocationAfterFreeze?
  {
    var log := worlds[j].log;
    RunSound(worlds, moves, wallet, j);
    BreakIffCareless(worlds, moves, wallet, j);
    if c.Some? {
      var i: int :| 0 <= i < |log| && DescribesBreak(log, wallet, i, c.value);
      assert Broken(log, wallet, i);
      if Apart(worlds, moves, j) {
        RunRemembers(worlds, moves, wallet, j);
      }
    }
  }

  // ---------- fences that keep grants apart ----------

  /** The process loaded at l, and no other has loaded between l and k. */
  ghost predicate NewestSince(moves: seq<Move>, k: nat, process: nat, l: int)
    requires k <= |moves|
  {
    0 <= l < k && Loads(moves[l], process) && forall m :: l < m < k && moves[m].Load? ==> moves[m].process == process
  }

  ghost predicate Newest(moves: seq<Move>, k: nat, process: nat)
    requires k <= |moves|
  {
    exists l :: NewestSince(moves, k, process, l)
  }

  lemma OthersAreOlder(moves: seq<Move>, k: nat, i: nat, p: nat, q: nat, l: int, n: int)
    requires i < k <= |moves| && p != q && !moves[i].Load?
    requires NewestSince(moves, k, p, l) && NewestSince(moves, i, q, n)
    ensures i < l
  {
  }

  /** Fences that let only the process grant that loaded last keep grants apart. */
  lemma NewestGrantsApart(worlds: seq<Shared>, moves: seq<Move>, j: nat)
    requires j <= |moves| < |worlds|
    requires forall k :: 0 <= k < j && Grants(worlds[k], moves[k]) ==> Newest(moves, k, moves[k].process)
    ensures Apart(worlds, moves, j)
  {
    forall k | 0 <= k < j && Grants(worlds[k], moves[k])
      ensures !Unseen(worlds, moves, k, moves[k].process, false)
    {
      var p := moves[k].process;
      assert Newest(moves, k, p);
      var l :| NewestSince(moves, k, p, l);
      forall i | 0 <= i < k && AnotherRecords(worlds[i], moves[i], p, false)
        ensures i < l
      {
        assert Newest(moves, i, moves[i].process);
        var n :| NewestSince(moves, i, moves[i].process, n);
        OthersAreOlder(moves, k, i, p, moves[i].process, l, n);
      }
    }
  }

  // ---------- the freeze replay ----------

  ghost predicate TwoFreezes(log: seq<LogEvent>, wallet: string) {
    exists f, g :: f < g && FreezeAt(log, wallet, f) && FreezeAt(log, wallet, g)
  }

  lemma ReplaysUnlessTwo(log: seq<LogEvent>, wallet: string)
    requires RowsOk(log, wallet)
    ensures FreezeReplays(log, wallet) <==> !TwoFreezes(log, wallet)
  {
    if !TwoFreezes(log, wallet) {
      if f :| FreezeAt(log, wallet, f) {
        assert SchemaOk(log[f].row);
        assert IsReplayedFreeze(log, wallet, |log|, Some(log[f].row.reason));
      } else {
        assert IsReplayedFreeze(log, wallet, |log|, None);
      }
    }
  }

  lemma TwoFreezesGrow(log: seq<LogEvent>, more: seq<LogEvent>, wallet: string)
    requires Grows(log, more)
    ensures TwoFreezes(more, wallet) <==>
              TwoFreezes(log, wallet) || (HasFreeze(log, wallet) && FreezeAt(more, wallet, |log|))
  {
    assert forall f :: f < |log| ==> (FreezeAt(log, wallet, f) <==> FreezeAt(more, wallet, f));
    if f, g :| f < g && FreezeAt(log, wallet, f) && FreezeAt(log, wallet, g) {
      assert FreezeAt(more, wallet, f) && FreezeAt(more, wallet, g);
    }
  }

  /** A process records a freeze although another has recorded one since it loaded. */
  ghost predicate FreezesAgain(worlds: seq<Shared>, moves: seq<Move>, k: nat)
    requires k < |moves| < |worlds|
  {
    RecordsFreeze(worlds[k], moves[k]) && Unseen(worlds, moves, k, moves[k].process, true)
  }

  lemma {:induction false} TwoIffAgain(worlds: seq<Shared>, moves: seq<Move>, wallet: string, j: nat)
    requires RunFrom(worlds, moves, wallet) && j <= |moves|
    ensures TwoFreezes(worlds[j].log, wallet) <==> exists k :: 0 <= k < j && FreezesAgain(worlds, moves, k)
  {
    if j == 0 {
      if f, g :| f < g && FreezeAt(worlds[0].log, wallet, f) && FreezeAt(worlds[0].log, wallet, g) {
        ChainFreezesOnce(worlds[0].log, wallet, f);
        assert false;
      }
    } else {
      var last := j - 1;
      TwoIffAgain(worlds, moves, wallet, last);
      RunMove(worlds, moves, wallet, last);
      TwoFreezesGrow(worlds[last].log, worlds[j].log, wallet);
      if RecordsFreeze(worlds[last], moves[last]) {
        FreezeMeansUnseen(worlds, moves, wallet, last, moves[last].process);
      }
      assert FreezesAgain(worlds, moves, last) <==>
             HasFreeze(worlds[last].log, wallet) && FreezeAt(worlds[j].log, wallet, |worlds[last].log|);
    }
  }

  /**
   * The freeze replay refuses the log if and only if some process recorded a freeze although another had recorded one
   * since it loaded.
   */
  lemma FreezeReplayIff(worlds: seq<Shared>, moves: seq<Move>, wallet: string, j: nat)
    requires RunFrom(worlds, moves, wallet) && j <= |moves|
    ensures !FreezeReplays(worlds[j].log, wallet) <==> exists k :: 0 <= k < j && FreezesAgain(worlds, moves, k)
  {
    RunSound(worlds, moves, wallet, j);
    ReplaysUnlessTwo(worlds[j].log, wallet);
    TwoIffAgain(worlds, moves, wallet, j);
  }

  /** Once the freeze replay refuses the log it refuses it for good: no process can load any more. */
  lemma {:induction false} RefusalIsFinal(worlds: seq<Shared>, moves: seq<Move>, wallet: string, j: nat, k: nat)
    requires RunFrom(worlds, moves, wallet) && j <= k < |moves| && !FreezeReplays(worlds[j].log, wallet)
    ensures !moves[k].Load? && !FreezeReplays(worlds[k].log, wallet)
  {
    RunMove(worlds, moves, wallet, k);
    if j < k {
      RefusalIsFinal(worlds, moves, wallet, j, k - 1);
      RunMove(worlds, moves, wallet, k - 1);
      ReplaysUnlessTwo(worlds[k - 1].log, wallet);
      ReplaysUnlessTwo(worlds[k].log, wallet);
      TwoFreezesGrow(worlds[k - 1].log, worlds[k].log, wallet);
    }
  }

  /** The log was frozen at the start, or a move before j recorded a freeze. */
  ghost predicate FrozenBy(worlds: seq<Shared>, moves: seq<Move>, wallet: string, j: nat)
    requires j <= |moves| < |worlds|
  {
    HasFreeze(worlds[0].log, wallet) || exists k :: 0 <= k < j && RecordsFreeze(worlds[k], moves[k])
  }

  lemma {:induction false} FreezeIffRecorded(worlds: seq<Shared>, moves: seq<Move>, wallet: string, j: nat)
    requires RunFrom(worlds, moves, wallet) && j <= |moves|
    ensures HasFreeze(worlds[j].log, wallet) <==> FrozenBy(worlds, moves, wallet, j)
  {
    if j > 0 {
      var last := j - 1;
      FreezeIffRecorded(worlds, moves, wallet, last);
      RunMove(worlds, moves, wallet, last);
      GrowsFreezes(worlds[last].log, worlds[j].log, wallet);
    }
  }

  /** A process that loads is frozen exactly when the log was frozen at the start or some move recorded a freeze. */
  lemma LoadRecallsRecordedFreezes(worlds: seq<Shared>, moves: seq<Move>, wallet: string, k: nat)
    requires RunFrom(worlds, moves, wallet) && k < |moves| && moves[k].Load?
    ensures worlds[k + 1].processes[moves[k].process].frozen.Some? <==> FrozenBy(worlds, moves, wallet, k)
  {
    RunMove(worlds, moves, wallet, k);
    FreezeIffRecorded(worlds, moves, wallet, k);
  }

  // ---------- two inputs that fail ----------

  /**
   * Process 1 has loaded the log as it is; process 0 is an earlier one, with what it loaded then. Neither is frozen.
   */
  ghost predicate Superseded(w: Shared, wallet: string) {
    && Chain(w.log, wallet) && |w.processes| == 2 && IdentitiesOk(w.processes, wallet)
    && LoadedFrom(w.processes[1], w.log, wallet, w.processes[1].account, w.processes[1].instance)
    && w.processes[0].frozen.None? && w.processes[1].frozen.None?
  }

  lemma SupersededSound(w: Shared, wallet: string)
    requires Superseded(w, wallet)
    ensures Sound(w, wallet)
  {
    assert forall i :: RowAt(w.log, wallet, i) ==> Linked(w.log, wallet, i);
  }

  /**
   * First, the earlier process finds its fence lost and freezes. The other's next grant is an allocation after a
   * freeze, and its own freeze makes the freeze replay refuse the log.
   */
  lemma LateFreezeBreaksChain(w: Shared, wallet: string, nowMs: int, late: Shared, granted: Shared, refrozen: Shared)
    requires Superseded(w, wallet) && nowMs > w.processes[1].last
    requires Moves(w, Call(0, nowMs, 1, false, true), late, wallet)
    requires Moves(late, Call(1, nowMs, 1, true, true), granted, wallet)
    requires Moves(late, Call(1, nowMs, 1, false, true), refrozen, wallet)
    ensures DescribesBreak(granted.log, wallet, |late.log|, AllocationAfterFreeze(FenceInvalidated))
    ensures !FreezeReplays(refrozen.log, wallet)
  {
    var f := |w.log|;
    SupersededSound(w, wallet);
    MoveRecords(w, Call(0, nowMs, 1, false, true), late, wallet);
    MoveRecords(late, Call(1, nowMs, 1, true, true), granted, wallet);
    MoveRecords(late, Call(1, nowMs, 1, false, true), refrozen, wallet);
    assert FreezeAt(late.log, wallet, f) && FreezeAt(granted.log, wallet, f);
    assert forall k :: 0 <= k < f ==> granted.log[k] == w.log[k];
    assert forall k :: 0 <= k < f && FreezeAt(granted.log, wallet, k) ==> FreezeAt(w.log, wallet, k);
    assert FirstFreeze(granted.log, wallet, f);
    assert FreezeAt(refrozen.log, wallet, f) && FreezeAt(refrozen.log, wallet, |late.log|);
  }

  /**
   * Second, the earlier process has checked its fence before it was superseded, and records its grant only after the
   * other has granted: the row does not name the allocation before it.
   */
  lemma LateGrantBreaksChain(w: Shared, wallet: string, nowMs: int, granted: Shared, late: Shared)
    requires Superseded(w, wallet) && w.processes[0].last == w.processes[1].last < nowMs
    requires Moves(w, Call(1, nowMs, 1, true, true), granted, wallet)
    requires Moves(granted, Call(0, nowMs, 1, true, true), late, wallet)
    ensures DescribesBreak(late.log, wallet, |granted.log|, ChainBreak(nowMs + 1, w.processes[0].last))
  {
    var n := |w.log|;
    SupersededSound(w, wallet);
    MoveRecords(w, Call(1, nowMs, 1, true, true), granted, wallet);
    MoveRecords(granted, Call(0, nowMs, 1, true, true), late, wallet);
    assert AllocationAt(late.log, wallet, n) && AllocationAt(late.log, wallet, |granted.log|);
    assert forall k :: 0 <= k < n && FreezeAt(late.log, wallet, k) ==> FreezeAt(w.log, wallet, k);
    assert !AfterFreeze(late.log, wallet, |granted.log|);
    assert PreviousAllocation(late.log, wallet, |granted.log|) == n;
  }
}
