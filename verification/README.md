# A verified model of a fail-closed two-venue trading core

The system collects and seals an evidence log, replays it, hands out signer nonces, arbitrates one writer per
account, and decides whether an order may be sent, must be held, or freezes trading. This project models those
decisions in Dafny and proves what they promise over every input, every run and every reachable state.

`dafny verify dfyconfig.toml` checks the whole project.

## How the model is laid out

| files | what they model |
|---|---|
| `Barrier.dfy`, `CoveragePoints.dfy`, `CoverageMeaning.dfy`, `Collector.dfy`, `CollectorRecovery.dfy` | the Bybit sequence barrier, the coverage points read from a log, what each event adds to them, and the live sink that writes that log |
| `Intervals.dfy`, `Pairing.dfy`, `Coverage.dfy`, `CoverageWindow.dfy` | pairing failures with verified points, merging, hour counting, the window verdict |
| `Framing.dfy`, `Shard.dfy`, `ShardOperations.dfy` | length-prefixed records, the hourly shard writer and its answers, replay of a closed log |
| `Events.dfy`, `OrderBindings.dfy`, `ReplayOrder.dfy`, `EventReplay.dfy`, `EventLog.dfy` | ordered replay of durable events and the conflicts it reports |
| `Nonce.dfy`, `NonceHandover.dfy` | the signer nonce allocator and the replays that rebuild it; any number of processes of one signer on one log |
| `Lease.dfy`, `LeaseOperations.dfy`, `LeaseWorld.dfy`, `LeaseTakeover.dfy` | one writer lease with its promotion and demotions, and what each operation leaves and answers; many processes contending for one lock path |
| `Decimals.dfy`, `DecimalText.dfy`, `Ledger.dfy` | decimals with the 28-digit context, canonical amount text, the balance ledger |
| `OrderIdentity.dfy`, `Submission.dfy` | order identity, the durable request, deciding and sending |
| `Surfaces.dfy`, `Fills.dfy`, `Startup.dfy`, `Clock.dfy` | surface evidence, fill quantities, startup admission, the state clock |

Stateful objects are classes whose methods are tied, field by field, to a function of the old state; the properties are
lemmas about those functions and about whole runs of them.

## What is assumed

- A hash or a canonical JSON encoding is injective, so a digest is represented by what it was taken of.
- Decimals are a sign, a coefficient and an exponent. Sums and products are rounded half to even to 28 significant
  digits. "Exact" therefore always carries the condition that partial sums fit; `Ledger.RoundingLosesValue` shows a
  total that is lost without it.
- A recorder that raises has persisted nothing, and recorders do not call back into the object that calls them.
- A session delivers frames, acknowledgements and heartbeats only on the connection that it subscribed last
  (data/session.py:121-215). Connection ids may come back in a later session.
- Only bound order events are modelled. Events that reach the cross-event analysis have passed envelope validation.
- Times, nonces and sizes are unbounded integers, as they are in the original; the eight-byte frame length and the
  uint64 order id are bounded explicitly.

## Where the code does not do what one might expect

Each of these is proved of the model with a concrete input, beside a result that says exactly when it happens.

- Three things make the live sink write a log that its own replay refuses: a quarantined frame followed by a sequence gap
  on the same Bybit connection (`Collector.QuarantineThenGap`), a wall clock that steps back inside one hour
  (`Collector.ClockStepsBack`), and a Bybit frame that cannot be read, which is logged before it ends its session
  (`Collector.UnreadableFrameIsFatal`). Whatever stops the sessions, the log as written is accepted if and only if the
  clock never steps back between two of its records, no book is without continuity after an earlier failure or gap of its
  subscription, and no frame is unreadable before such a failure or gap (`Collector.LiveLogReplays`).
- A writer that crashes between truncating and writing the lock metadata makes the next writer start again at epoch 1
  (`LeaseWorld.TornFileStartsOver`). So does, without any crash, a write that is short or an identity that makes the
  metadata longer than the 4096 bytes that are read back (`LeaseWorld.CutFileStartsOver`). A file that suffered none of
  these grants increasing epochs (`LeaseWorld.EpochsStrictlyIncrease`). In general an acquisition is granted one more than
  the writes since the last such loss, so it rises above an earlier grant if and only if they have reached it
  (`LeaseWorld.ReadRisesIff`).
- A nonce freeze outlives a restart if and only if its row was recorded (`Nonce.UnrecordedFreezeIsForgotten`,
  `NonceHandover.LoadRecallsRecordedFreezes`).
- A process that was superseded can still record a freeze when it finds its fence lost, or a grant whose fence check came
  before (`NonceHandover.LateFreezeBreaksChain`, `NonceHandover.LateGrantBreaksChain`). Whatever the fences answer and
  however processes interleave, the conflict replay finds a conflict if and only if a process granted although another had
  recorded a row since it loaded (`NonceHandover.ConflictIffCareless`); the freeze replay refuses the log if and only if a
  process recorded a freeze although another had recorded one since it loaded (`NonceHandover.FreezeReplayIff`), and from
  then on no process can load (`NonceHandover.RefusalIsFinal`).
- Ledger folds beyond 28 digits neither conserve value nor ignore order (`Ledger.RoundingLosesValue`); every prefix of a
  fold conserves exactly when every partial sum fits (`Ledger.ConservationIffFits`).
- A log with no record at all has no manifest and does not replay; every other closed log does (`Shard.CloseThenReplay`).

## Model

| member | source | states |
|---|---|---|
| Barrier.ReadyIffContinuous | data/coverage.py:59-94 | On a connection's readable frames the barrier is ready if and only if every required topic was seen, started with a snapshot, and each of its deltas is the preceding update id plus one |
| Barrier.BarrierTracks | data/coverage.py:79-92 | The gap flag is set if and only if some topic's history is not continuous, and the remembered update ids are the last of each topic |
| Barrier.BybitBarrier.Start | data/coverage.py:68-73 | A new connection id clears ids, topics and gap; the same id changes nothing |
| Barrier.BybitBarrier.Observe | data/coverage.py:79-94 | One frame's effect on gap, topics and previous ids; a delta of an unseen topic is a gap whatever its id, other frames with ids that cannot be compared are refused, and frames that are no book frame change nothing |
| Barrier.RefusedIff | data/coverage.py:79-94 | While every book is continuous a frame is refused if and only if it cannot be decoded, or has no number as id although it is a snapshot or its topic was seen |
| Barrier.RefusedAtAnyTime | data/coverage.py:79-94 | After a gap as before it, a frame is refused if and only if it cannot be decoded, or it is a snapshot or a delta of a book that showed a snapshot before any break, and its own id or its book's last id is no number |
| CoveragePoints.CoveragePoints | data/coverage.py:152-189 | The pass over venues, barrier, owed gap and points equals the event-by-event meaning, error included |
| CoveragePoints.PointsAreValid | data/coverage.py:102-124 | A log whose times never move backwards yields points that the pairing accepts |
| CoveragePoints.ReplayReflects | data/coverage.py:152-189 | At every prefix of a log, each venue's flags and the barrier say exactly what the events since its current subscription show |
| CoveragePoints.VerifiedIsEarned | data/coverage.py:171-187 | A verified point appears only on a connection that was acknowledged, ponged, never failed and (Bybit) is continuous on every book; on such a connection every pong adds one |
| CoverageMeaning.PointsExact | data/coverage.py:152-189 | What an event adds, read off the events alone: one verified point if a pong or a frame arrives on a connection that has earned it, or the event completes it; one failure point for a failure event; nothing otherwise |
| CoverageMeaning.FailurePointsExact | data/coverage.py:134-149 | On every replayable log the points that are not verified are, in order, one for each failure event, with its venue and time; unexplained for a quarantined frame and otherwise explained by the reason that the event names |
| CoverageMeaning.NoQuarantine | data/coverage.py:225-260 | A window that its pairing does not flag holds no quarantined frame |
| CoverageMeaning.ReplayableIff | data/coverage.py:102-189 | A log is replayable if and only if times never step back and each event may follow those before it: on its venue's subscription, with a session's reason, readable while nothing has failed, and a gap record exactly where a gap demands one |
| Collector.Sink.Record | data/collector.py:153-241 | State and answer of a record: refused for its hour, logged, followed by a recovery record when a ready acknowledgement ends a venue's downtime, stopped after an unreadable frame, and followed by one gap record if and only if the connection has a gap |
| Collector.Sink.MarkDown | data/collector.py:184-187 | A failed session is logged for its venue, which counts as down even if the log refuses, and touches no barrier |
| Collector.StepLockstep | data/collector.py:161-206 | What the sink adds for one input replays, in step, if and only if no book is without continuity after trouble and no frame is unreadable before it |
| Collector.FollowTracks | data/collector.py:153-159 | The live barrier is what the frames since the connection's id appeared make of a fresh one, and a gap record is due if and only if a readable book frame leaves some book without continuity |
| Collector.RefusedIffUnreadable | data/coverage.py:79-94 | Before any trouble the barrier refuses exactly the frames that cannot be decoded or whose update id cannot be compared |
| Collector.TimedIff | data/coverage.py:102-115 | The times of the log as written never step back if and only if the clock readings that reached it never do |
| Collector.LiveLogReplays | data/collector.py:153-305 | Over every run of session records and downtimes, errors that end a session included, the log as written is accepted by its replay if and only if its clock never stepped back, no book was without continuity after an earlier failure or gap of its subscription, and no frame was unreadable before one |
| Collector.QuarantineThenGap | data/coverage.py:134-149 | A quarantine followed by a gap on one connection is an orderly, timed run whose log the replay refuses |
| Collector.ClockStepsBack | data/coverage.py:111-115 | A clock that steps back inside one hour gives a log that the sink writes and the replay refuses |
| Collector.UnreadableFrameIsFatal | data/collector.py:161-206 | A frame that cannot be read is logged, ends its session, and makes the replay refuse the whole log |
| CollectorRecovery.OneRecoveryPerDowntime | data/collector.py:175-187 | On every run the recovery records stand exactly behind the ready acknowledgements that end a downtime of their venue, one for each, unless an error ends the session |
| Intervals.MergeIntervals | data/coverage.py:215-222 | Merged intervals are sorted, separated, no wider than the input and cover exactly the same instants |
| Intervals.MergedFormIsUnique | data/coverage.py:215-222 | Two separated sequences that cover the same instants are the same sequence |
| Intervals.TotalCountsInstants | data/coverage.py:343-344 | The summed durations of merged gaps count the covered instants of the window |
| Intervals.LongestWithinTotal | data/coverage.py:343-344 | The longest gap never exceeds the total, and one is zero if and only if the other is |
| Pairing.PairExplainedIntervals | data/coverage.py:225-260 | An instant is in a returned interval if and only if some explained failure of some venue lies between the verified points around it; the flag is set if and only if an unexplained, unanchored or never closed failure exists; refusal exactly for an invalid window, point or order |
| Pairing.EndOfStream | data/coverage.py:259-260 | Once the points before the window end are consumed, what was explained is all that is explained, and the flag is what was flagged plus the failures still pending, which never close |
| Coverage.CheckHourInputs | data/latency.py:99-136 | Accepts exactly aligned windows with proper, ordered, nonnegative intervals |
| Coverage.UsableLatencyHours | data/latency.py:139-176 | Counts exactly the hours with every required stream, no quarantine and no instant inside a gap; refused exactly for bad windows, intervals or times and for unreadable market frames of the window |
| Coverage.UsableHoursDependOnCover | data/latency.py:171-176 | The usable-hour count is the same before and after merging |
| Coverage.UsableWithinEligible | data/latency.py:171-176 | Usable hours never exceed the hours of the window |
| Coverage.EligibleUtcHours | data/coverage.py:263-293 | Succeeds exactly for a UTC window of its kind, and the hours times their length are the window |
| Coverage.AggregatesFit | data/coverage.py:313-321 | Aggregates of merged gaps in a UTC window satisfy every structural check of the verdict |
| Coverage.VerdictMeans | data/coverage.py:296-327 | On such aggregates the verdict never fails and is the threshold statement about points and events |
| Coverage.ReplayWindowCoverage | data/coverage.py:330-354 | Success exactly for a UTC window, a valid stream and countable events; pairing, longest and total gap, usable and eligible hours and the verdict mean what the streams say |
| CoverageWindow.EvaluateLog | data/coverage.py:330-354 | From the log to the verdict: refused if and only if the log is not well formed event by event, the window is no UTC window or a market frame of the window cannot be read; a window that passes holds no quarantined frame |
| CoverageWindow.UsableHoursAreClear | data/latency.py:139-176 | The usable hours of a log are the hours that show every required stream in readable frames, hold no quarantined frame and touch no explained gap |
| Framing.FramesRoundTrip | data/shard.py:99-101 | Decoding the framing of any records gives back exactly those records without error |
| Framing.DecodedRoundTrip | data/shard.py:204-211 | Bytes that decode without error are the framing of what they decode to |
| Framing.TruncationYieldsPrefix | data/shard.py:204-211 | A strict prefix of framed bytes yields exactly the records whose frames are whole, and no error only when cut between frames |
| Framing.ReadFrames | data/shard.py:206-211 | The reading loop yields what the decoding function says, error included |
| Shard.ShardWriter.AppendRecord | data/shard.py:89-105 | State and answer of an append: closed, unlabelled time, hour backwards, rotation, taken path, and a finished shard with no successor |
| Shard.ShardWriter.Finalize | data/shard.py:144-178 | Finishing moves the open bytes to their shard and adds one manifest entry |
| Shard.ShardWriter.AppendDurable | data/shard.py:112-127 | Boot and order key are checked first; the key advances only when the record was stored |
| Shard.ShardWriter.CloseWriter | data/shard.py:107-110 | Closing finishes the open shard once |
| Shard.AppendLogs | data/shard.py:89-105 | Every append keeps the evidence truthful, logs the record if and only if it succeeds, and never rewrites finished evidence |
| ShardOperations.AppendIff | data/shard.py:89-105 | A record is stored if and only if the writer is open, its hour can be named, is not behind the writer's and has the open shard or a free name; the answer says whether an earlier hour ended |
| ShardOperations.AppendEventIff | data/shard.py:112-127 | An event is stored if and only if it is of the writer's boot, its order key advances and its record can be stored; only then does the remembered key move |
| ShardOperations.CloseIsFinal | data/shard.py:107-110 | A closed writer takes nothing and changes nothing any more |
| ShardOperations.EntriesDateTheirRecords | data/shard.py:89-178 | However a new writer is used, its manifest entries divide the stored records among them in order, and each is dated by the first and the last record of its shard |
| Shard.CloseThenReplay | data/shard.py:181-213 | A closed log replays exactly what was accepted, and an empty one is refused |
| Shard.WriteThenReplay | data/shard.py:89-110 | Records with hours that never move backwards, on free paths, are all accepted and replay exactly, in order, across all hourly shards |
| Shard.DamageNeverMisreads | data/shard.py:190-213 | Whatever happens to shard files, a replay yields a leading part of what the manifest promises; it finishes if and only if every listed shard still holds its bytes |
| Shard.ReplayRecords | data/shard.py:190-213 | The replay loop over the manifest equals its entry-by-entry meaning |
| OrderBindings.OrderBindingConflicts | data/shard.py:290-324 | A reason is reported if and only if two events of the window stand in the relation it names |
| OrderBindings.NonceReasonMeaning | data/shard.py:247-271 | Missing, mismatched and late allocations are reported exactly for tracked requests with that relation to the first allocation |
| OrderBindings.LeaseReasonMeaning | data/shard.py:274-287 | Instance and wallet mismatches are reported exactly against the first acquisition of the epoch in the window |
| OrderBindings.NoConflictIffClean | data/shard.py:290-324 | No order-request reason if and only if every tracked request has an earlier allocation of its account and instance, no nonce serves two orders, and requests match their leases |
| ReplayOrder.BindingConflicts | data/replay_order.py:16-32 | A conflict is reported exactly for an identifier bound twice within a venue |
| ReplayOrder.NoConflictIffOneToOne | data/replay_order.py:16-32 | No binding conflict if and only if the relation is one-to-one both ways within each venue |
| ReplayOrder.ObservationBindingEvidence | data/replay_order.py:35-59 | Bindings are exactly the observed ones; reasons are the conflicts and the observations whose first request does not precede them |
| EventReplay.Scan | data/shard.py:332-358 | The pass refuses exactly disordered distinct events, and otherwise its tables, duplicates and reasons agree with the log |
| EventReplay.ReplayEventWindow | data/shard.py:327-371 | The replay is the window's first occurrences in order, the window's repeats, the bindings, and exactly the justified freeze reasons, or the error that comes first |
| EventReplay.ReplayHolds | data/shard.py:327-371 | A replay returns every event received in the window, both ends included, exactly once and in the order of first delivery; every further delivery is a duplicate |
| EventReplay.ConflictStep | data/shard.py:227-244 | One more event adds a ledger-entry or lease-epoch conflict exactly when a different event already claims its subject |
| EventReplay.RedeliveryIgnored | data/shard.py:342-346 | Any number of copies inserted after their first occurrence change only the duplicate list, which gains exactly the copies in the window |
| EventLog.HourCheckNeverFires | data/shard.py:112-127 | An event that passes the key check is never refused for its hour |
| EventLog.AppendedLogReplays | data/shard.py:327-371 | A log written only by event appends replays to precisely the accepted in-window events, in order, without duplicates or order-key conflict |
| Nonce.SchemaErrorsIff | data/schema_nonce.py:52-96 | The check reports nothing exactly for a well-formed grant inside its window or a well-formed freeze |
| Nonce.ReplayLastAllocatedNonce | execution/nonce.py:65-85 | The replayed maximum bounds every allocation of the signer and is zero or one of them |
| Nonce.ReplayFreezeReason | execution/nonce.py:88-110 | Returns the one freeze of the signer, or none, and refuses exactly a wallet that is no digest and invalid or repeated freeze rows |
| Nonce.ReplaySignerNonceConflict | execution/nonce.py:148-169 | Refuses exactly a wallet that is no digest and invalid rows; otherwise reports the first allocation that follows a freeze or does not name its predecessor |
| Nonce.NonceAllocator.AllocateNonce | execution/nonce.py:308-335 | One call's new state, log and answer for every combination of freeze, inputs, fence and recorder |
| Nonce.CallMeaning | execution/nonce.py:308-335 | Each answer, what is remembered and the row recorded, by cause: fence lost freezes as fence_invalidated, a next nonce a day or more ahead of the clock as clock_backward, otherwise the grant is just above the larger of last nonce and clock |
| Nonce.EveryFreezeHasItsCause | execution/nonce.py:287-321 | On every run each freeze row was recorded by a call that had lost its fence or whose clock was behind, and its reason says which |
| Nonce.ValidatedIff | execution/nonce.py:122-145 | The conflict replay accepts the outcome, reason and nonce of a row exactly when the schema check does |
| Nonce.NonceAllocator.FreezeSigner | execution/nonce.py:292-306 | Memory freezes first; the row is added only if it was recorded |
| Nonce.RunIsOneChain | execution/nonce.py:65-169 | Over every run of allocations, failures, restarts and foreign rows the rows form one valid chain, every slice of the log replays its freeze and shows no conflict, and the replayed maximum is the live last nonce |
| Nonce.ChainFreezesOnce | execution/nonce.py:88-110 | On a chain a freeze row is the last row of its signer and has a valid reason |
| Nonce.SliceNeverBreaks | execution/nonce.py:148-169 | Cutting rows off either end of a log never creates a conflict |
| Nonce.GrantsIncrease | execution/nonce.py:317-335 | Any two grants of one run differ, the later being larger |
| Nonce.RecordedFreezeSurvives | execution/nonce.py:266-277 | A recorded freeze stays in force through every further step, restarts included |
| Nonce.UnrecordedFreezeIsForgotten | execution/nonce.py:292-306 | A freeze for any reason and at any time outlives a restart if and only if its row was recorded; otherwise the reloaded allocator is what it was before |
| NonceHandover.MoveRecords | execution/nonce.py:308-335 | Every call of every process keeps rows well-formed, and adds a grant or a freeze exactly when its inputs say so |
| NonceHandover.RunRemembers | execution/nonce.py:308-335 | Until a process grants over an unseen grant, allocations name their predecessors, and a process remembers the last of them if and only if it has seen every grant since it loaded |
| NonceHandover.ConflictIffCareless | execution/nonce.py:148-169 | With any processes on one log, interleaved anyhow and whatever their fences answer, the conflict replay finds a conflict if and only if a process granted although another had recorded a freeze or a grant since it loaded; over freezes alone it is an allocation after a freeze |
| NonceHandover.NewestGrantsApart | execution/nonce.py:211-224 | Fences that let only the process grant that loaded last leave no grant unseen by one that grants |
| NonceHandover.FreezeReplayIff | execution/nonce.py:88-110 | The freeze replay refuses the log if and only if a process recorded a freeze although another had recorded one since it loaded |
| NonceHandover.RefusalIsFinal | execution/nonce.py:107-108 | After a refusal no later move of any run loads a process |
| NonceHandover.LoadRecallsRecordedFreezes | execution/nonce.py:266-277 | A process that loads is frozen if and only if a freeze was recorded by then |
| NonceHandover.LateFreezeBreaksChain | execution/nonce.py:313-316 | A superseded process freezes late: its successor's next grant is an allocation after a freeze, and its successor's own freeze makes the log unusable |
| NonceHandover.LateGrantBreaksChain | execution/nonce.py:313-335 | A superseded process whose fence check came before records its grant after its successor's: the chain breaks |
| Lease.WriterLease.RevalidateLease | execution/writer.py:212-230 | Cancel-only passes unchecked; a replaced inode closes the lease and clears its authority before the row is written |
| Lease.WriterLease.AuthorizeAction | execution/writer.py:232-262 | Which actions each mode allows, and the row of a denial |
| Lease.WriterLease.ElevateToRiskIncreasing | execution/writer.py:264-282 | The mode rises only after its row was recorded |
| Lease.WriterLease.DemoteCancelOnly | execution/writer.py:284-301 | The mode falls before its row is recorded; pending and cancel-only are returned unchanged |
| Lease.WriterLease.DemoteFlattenOnly | execution/writer.py:303-318 | Only a risk-increasing lease is restricted, before its row is recorded |
| Lease.WriterLease.ReleaseLease | execution/writer.py:320-330 | State, row and answer of a release: a held lease is revalidated first, and whatever comes of it no lock and no mode remain |
| Lease.WriterLease.PromoteWriter | reconciliation/promotion.py:222-262 | The outcome of a promotion request in every mode, with and without a ready admission |
| Lease.WriterLease.EnforceContinuousAdmission | reconciliation/promotion.py:158-188 | A freezing admission demotes before it is returned |
| Lease.WriterLease.CompleteKillSwitch | reconciliation/promotion.py:143-155 | Completion demotes only a flatten-only lease |
| Lease.StepAdvances | execution/writer.py:212-330 | Every operation keeps the evidence lawful, never regains a mode and never loses a row |
| Lease.ModeNeverRegained | execution/writer.py:232-318 | Over every run the mode only moves forward, at most one promotion is recorded, and each row was recorded on the safe side of its change |
| Lease.RiskEnteredOnce | execution/writer.py:264-282 | Risk held at two moments of a run is held at all moments between |
| Lease.AuthorityNeedsPromotion | execution/writer.py:232-262 | On every run anything but a cancellation is authorized only under an unchanged lock with exactly one recorded promotion and no demotion to cancel-only; risk only with no demotion at all; modification never |
| Lease.FreezeAlwaysRevokes | reconciliation/promotion.py:98-188 | A freezing admission or kill switch leaves no risk or flatten authority, whatever the recorder and the lock file do; flattening leaves no risk |
| Lease.RecorderDecidesPromotionOnly | reconciliation/promotion.py:98-155 | A promotion applies if and only if it was recorded and every guard holds; a demotion applies whether or not it was recorded |
| LeaseOperations.StepExactly | execution/writer.py:212-330 | Mode, lock and row after any operation on a lease, for every state, answer of the inode and outcome of the recorder |
| LeaseOperations.ChecksAnswer | execution/writer.py:212-330 | Revalidation and authorization succeed if and only if the lease stands and its mode permits the action; a release succeeds if and only if nothing is held or the lease stands |
| LeaseOperations.PromotionAnswers | reconciliation/promotion.py:222-262 | A promotion is answered as applied if and only if the lease was pending, the admission ready, the lock unchanged and the row recorded |
| LeaseOperations.RestrictionsAnswer | reconciliation/promotion.py:98-155 | The kill switch's flattening and its completion succeed if and only if the demotion applies and its row was recorded |
| LeaseOperations.FreezesAnswer | reconciliation/promotion.py:98-188 | A kill-switch freeze or a continuous admission succeeds if and only if its time is proper and there was nothing to demote, or the demotion applied and was recorded |
| LeaseOperations.ReleaseIsFinal | execution/writer.py:320-330 | On every run a release leaves no mode and no lock whatever the inode and the recorder do, nothing is authorized from then on, and a released row is added if and only if the lease was held, revalidated and its recorder worked |
| LeaseWorld.AtMostOneActive | execution/writer.py:66-68 | At every moment of every run at most one lease passes revalidation with more than cancel-only authority |
| LeaseTakeover.RevalidationKeepsIff | execution/writer.py:212-230 | A look at the lock file keeps a holder if and only if it may only cancel or the path still names its file; otherwise it gives up lock and authority |
| LeaseTakeover.ReplacedFileHasOneActive | execution/writer.py:66-68 | When the file is replaced under its holder two processes hold locks, and only the one whose file the path names has authority |
| LeaseWorld.StepSound | execution/writer.py:147-230 | Every step of every process and of the environment keeps each lock with the one process that stands on it |
| LeaseWorld.LadderStep | execution/writer.py:188-205 | Every step keeps grants below the bound that the file and its writer imply, and increasing |
| LeaseWorld.LostHasCause | execution/writer.py:58-63 | A file's metadata was lost if and only if some step crashed its writer between truncating and writing, wrote only a part, or wrote more than is read back |
| LeaseWorld.EpochsStrictlyIncrease | execution/writer.py:188-205 | On a file that never lost its metadata each granted epoch is larger than every earlier one |
| LeaseWorld.HeldIsStanding | execution/writer.py:188-195 | On every run what a file holds is what it first held plus its writes, counted from zero after every loss |
| LeaseWorld.ReadRisesIff | execution/writer.py:188-190 | An acquisition is granted more than an earlier grant of the file if and only if the writes since the last loss have reached that grant |
| LeaseWorld.TornFileStartsOver | execution/writer.py:188-195 | After a crash between truncating and writing, the next acquisition is granted epoch 1 |
| LeaseWorld.CutFileStartsOver | execution/writer.py:58-63 | After an acquisition whose metadata was written short or is longer than 4096 bytes, and no crash, the next one is granted epoch 1 |
| Decimals.RoundExactIffFits | reconciliation/ledger.py:134 | Rounding to the context keeps the value if and only if the number has at most 28 significant digits |
| Decimals.HalfEvenNearest | reconciliation/ledger.py:134 | Rounding moves a coefficient by at most half of the dropped unit, and a tie goes to the even side |
| Decimals.AddExactIffFits | reconciliation/ledger.py:134 | Context addition is exact if and only if the exact sum fits |
| DecimalText.FixedRoundTrip | reconciliation/ledger.py:43-44 | Fixed-point text reads back as a number of the same value |
| DecimalText.FormatThenRead | reconciliation/ledger.py:32-44 | Formatting then reading always succeeds, and returns the number if and only if it fits |
| DecimalText.ReadThenFormat | reconciliation/ledger.py:32-44 | Reading then formatting gives back every accepted text |
| DecimalText.TextEqualityIsNumericEquality | reconciliation/ledger.py:32-40 | Accepted texts are equal if and only if their numbers are |
| DecimalText.TextRoundTrip | execution/order_serde.py:84 | A printed decimal reads back with the same sign, coefficient and exponent |
| Ledger.ConservationIffFits | reconciliation/ledger.py:128-134 | Every prefix of a fold is opening plus its deltas if and only if every partial sum fits |
| Ledger.OrderNeverMatters | reconciliation/ledger.py:128-134 | Two orderings of the same deltas give the same exact balance whenever the partial sums of both fit |
| Ledger.BoundedOrdersFit | reconciliation/ledger.py:128-134 | A bound on the sizes makes the partial sums of every ordering fit |
| Ledger.RoundingLosesValue | reconciliation/ledger.py:128-134 | Two deltas of 10^28 and 1 lose value and depend on their order |
| Ledger.FoldDeltas | reconciliation/ledger.py:124-134 | Accepts exactly deltas in the window with known assets and new entry ids, and folds each asset |
| Ledger.ReconcileBalanceLedger | reconciliation/ledger.py:111-141 | Succeeds exactly for reconcilable inputs with valid unknown ids, so the final validation can reject nothing else; the result is valid, and folded texts and applied ids are those of the deltas |
| Ledger.ValidateBalanceLedger | reconciliation/ledger.py:73-90 | Accepts exactly a ledger whose consistency flag is numeric equality of its balances |
| Ledger.FoldedBalanceIsOpeningPlusDeltas | reconciliation/ledger.py:128-135 | A folded balance reads as opening plus the sum of its asset's deltas when partial sums fit |
| Ledger.LedgerOrderNeverMatters | reconciliation/ledger.py:128-135 | Where partial sums fit, the folded text of an asset does not depend on the order of deltas |
| Ledger.ReconciliationIgnoresOrder | reconciliation/ledger.py:111-141 | Reordered deltas are accepted alike and apply the same entry ids, and where the partial sums of both orders fit every folded text is the same |
| OrderIdentity.StripQuantity | execution/orders.py:159-164 | The stripping loop stops and leaves the canonical triple |
| OrderIdentity.CanonicalIffSameNumber | execution/orders.py:158-164 | Two positive quantities share a canonical triple if and only if they are the same number |
| OrderIdentity.SameClientIdIffSameOrder | execution/orders.py:154-203 | Valid intents share a client order id if and only if they agree in every field, quantities as numbers |
| OrderIdentity.IntentIff | execution/orders.py:174-203 | An intent is built if and only if strategy and version are named, signal time and ordinal are not negative and the quantity is above zero |
| OrderIdentity.RequestIff | execution/orders.py:256-274 | A request is built if and only if the intent is valid, it is not recorded before its signal, and digests, epoch, writer and nonce are proper for its leg |
| OrderIdentity.SerializeRoundTrip | execution/order_serde.py:50-137 | A built request always serializes, and rehydrating it returns the same intent and record |
| OrderIdentity.RehydrateRoundTrip | execution/order_serde.py:107-137 | Whatever rehydrates serializes again to its event, the quantity reprinted, under the same client order id |
| OrderIdentity.RehydrateIff | execution/order_serde.py:107-137 | A durable event is read back if and only if its envelope and lease fields are proper, its quantity reads as a number above zero and its client order id is that of its fields |
| Submission.SendIffAbsent | execution/orders.py:284-353 | An order may be sent if and only if it is not frozen, is absent in queries all later than its record or signal, and its signal is fresh |
| Submission.DecideMeaning | execution/orders.py:313-353 | Each of the six answers is given if and only if the evidence demands it, freezing at the attempt limit and reconciling below it included; no answer if and only if intent, evidence, request, history, clock or limits are out of order |
| Submission.ReplayNeverTransports | reconciliation/legs.py:77-114 | Evidence rebuilt from a replay alone never leads to a transport |
| Submission.EvidenceMeaning | reconciliation/legs.py:77-114 | The evidence carries a status if and only if the replay has no freeze reason and its latest observation of the order is settled |
| Submission.ReplacementsAreNewOrders | execution/orders.py:356-371 | No two orders of a series of replacements share a client order id |
| Submission.ReplacementIff | execution/orders.py:356-371 | An order may be replaced if and only if it is valid and was seen cancelled or rejected by queries all later than its signal, and then by the next ordinal of the same order in the new quantity |
| Submission.Submitter.SubmitOrder | execution/submission.py:164-204 | One call's nonces, effects and answer; an answer that sends nothing is given if and only if the evidence demands it and changes nothing, and a failure sends nothing |
| Submission.AnswerWithoutTransport | execution/submission.py:164-181 | Freeze, reconcile, hold and reject-stale are answered if and only if the inputs are in order and the evidence demands it, and then nothing changes |
| Submission.AnswerResend | execution/submission.py:135-192 | A recorded order is sent again if and only if that is demanded, the lease authorizes it and account, wallet and nonce window fit its record |
| Submission.AnswerPersist | execution/submission.py:194-204 | A new order is recorded and sent, in this order and with its nonce, if and only if that is demanded, authorized, a nonce is granted where one is needed, and the request can be built and recorded |
| Submission.FailureSendsNothing | execution/submission.py:164-204 | A call that fails records no request and sends nothing |
| Submission.Submitter.SubmitPair | execution/submission.py:238-265 | Both legs run in order and both outcomes are kept; a pair that does not match changes nothing |
| Submission.PairIff | execution/orders.py:232-243 | Two legs match if and only if one sells on Hyperliquid and one buys on Bybit, both opening, the same number of the same symbol for the same signal |
| Submission.SubmitSafe | execution/submission.py:135-204 | Every call that is given its own durable request keeps the trace safe |
| Submission.TransportFollowsRecord | execution/submission.py:135-204 | Over every run each transport follows the one durable record of its client order id, at once or again after absence in queries all later than the record, and is sent by the account and wallet of the record while its nonce is inside the window |
| Submission.NoCarelessResend | execution/submission.py:164-204 | Over every run all transports of an order carry the same record, and any but the first needs absence in queries all later than the record |
| Submission.NoncesNeverShared | execution/submission.py:194-204 | Over every run transports that carry the same nonce carry the same request |
| Submission.PairLegsIndependent | execution/submission.py:238-265 | Whatever became of the first leg, the second is still given its own request |
| Fills.ParseFillsSurface | reconciliation/hl_fills.py:58-99 | The surface holds exactly the first report of every execution, and counts the rows not recognised and the rows that contradict the first report of their execution |
| Fills.SurfaceAlwaysValid | reconciliation/state.py:114-136 | Every surface the fill parsers build passes surface validation from the moment it was observed |
| Fills.MismatchMeaning | reconciliation/bybit_surface.py:277-291 | The mismatch count is zero if and only if no identity came with two states |
| Fills.BuildFilledQuantity | reconciliation/bybit_surface.py:321-348 | Within the bound the quantity is the side's share of the exact net size of the order's executions, each counted once as first reported, with the order's instrument and id and a time plus skew allowance no earlier than the order |
| Fills.QuantityIsNetSize | reconciliation/hl_fills.py:171-186 | The same for both venues, stated on the rows, the order's time and the skew allowance alone |
| Fills.RowsJoin | reconciliation/hl_fills.py:176 | Rows are read page by page, from the first to the last |
| Fills.FilledIsExact | reconciliation/hl_fills.py:171-186 | While the sizes as written stay within the bound the quantity is their exact aligned sum, each fill once, and nothing if that sum is negative |
| Fills.SignedSizeExactIff | reconciliation/hl_fills.py:181-182 | A signed size is exact if and only if it is a Bybit purchase or fits the context |
| Fills.QuantityDependsOnSet | reconciliation/hl_fills.py:146-186 | Without mismatches and within the bound the quantity and the states depend only on the set of fills |
| Fills.OidInjective | reconciliation/hl_fills.py:132-142 | Two canonical order ids name the same number only if they are the same text |
| Fills.OrderIdsIff | reconciliation/hl_fills.py:116-143 | The lookup fails if and only if the client id is empty or an observed id is no canonical unsigned 64-bit number; it finds nothing if and only if nothing was observed, and otherwise exactly the numbers observed |
| Fills.OneOrderIdPerClient | reconciliation/hl_fills.py:116-143 | In a replay without freeze reasons a client order has at most one Hyperliquid order id |
| Fills.FillCountsForOneClient | reconciliation/hl_fills.py:189-225 | In such a replay a fill is counted for at most one client order |
| Fills.BuildReplayedFilledQuantity | reconciliation/hl_fills.py:189-225 | No quantity while the replay freezes or before an order id was observed; otherwise the quantity of the client's ids, which within the bound is the exact net size of their executions |
| Startup.ValidateVenues | reconciliation/state.py:205-222 | Accepts if and only if every surface of both venues is structured, comparable with what was expected of it, and every ledger and frozen intent is valid |
| Startup.ConsistencyMeans | reconciliation/state.py:322-342 | The classifier answers true if and only if every surface is authoritative, both ledgers are clean and end at the balances' time, orders, positions and balances agree as sets and no expected fill is unknown to its venue; false if and only if usable evidence differs |
| Startup.ClassifyReconciliationConsistency | reconciliation/state.py:322-342 | Fails exactly on invalid inputs; otherwise answers if and only if the evidence is usable, and then whether both venues agree with what was expected |
| Startup.DecisionAlwaysBuilds | reconciliation/state.py:242-319 | The collected reasons never repeat, so building the decision never fails |
| Startup.ReadyIff | reconciliation/state.py:360-399 | No reason is collected if and only if nonce replay is clean, nothing is frozen, every surface is newer than startup and the classifier answers true |
| Startup.ReasonIff | reconciliation/state.py:242-399 | Every single reason is given if and only if the evidence gives it: surfaces only while no intent is frozen, ledgers only while no surface is at fault either, states only while no ledger is |
| Startup.DecideStartupAdmission | reconciliation/state.py:360-399 | Decides if and only if structure, wallet and nonce rows are valid and at most one freeze is recorded; each reason is in the decision if and only if the evidence gives it, and it is ready if and only if nothing speaks against it |
| Clock.ClockMeasuresHistory | reconciliation/clock.py:43-60 | After any accepted history the start is the first active observation since the last inactive one, and the duration is measured from it |
| Clock.AcceptedIff | reconciliation/clock.py:24-40 | A history is accepted if and only if its times are positive and never step back, equal times repeat the state, and no limit is negative |
| Clock.RepeatingChangesNothing | reconciliation/clock.py:43-60 | Repeating the last observation with its limit changes nothing |
| Clock.ExceededStays | reconciliation/clock.py:52-60 | Under a fixed limit an exceeded duration stays exceeded until an inactive observation |

## Left out

- WebSocket sessions, asyncio supervision, reconnect timing and real clocks: the models are fed the records and times they produce.
- gzip, fsync, sidecar files, `os.link` races and path resolution: shards are bytes in a store, and a digest is the bytes it was taken of.
- Field-by-field type checks, venue row parsers and error texts: rows arrive recognised, unrecognised or out of scope.
- Legacy unbound order events, which exist for replay compatibility only.
- Finite decision tables: the kill switch decision, the promotion combination table, probe verdicts.
- FX and mark valuation, exposure and net-delta arithmetic, cancel and dead-man binders, research code.
- The input digest of a replay, which is an injective function of the events the replay returns.
- The one configuration record that every collector log holds and its reader demands.
- The liveness snapshot of the sink (network clock, readiness flags, integrity flag), which no log or replay reads.
- Sorted tuples are modelled as sets and maps, so only their contents are stated, not their rendering order.
- Decimal spellings that the language also reads (underscores, surrounding space, `Infinity`, `NaN`) are read as no decimal, and the exponent range of the context is not bounded.
- How a contended acquisition compares its identity with the incumbent's: being refused and being given a cancel-only lease are both steps of the model. The row that records an acquisition is part of the acquisition, not of the lease's own rows.
- Inside a submission the lease is its answer, authority or none; how it answers is modelled on its own.
- The rendering of reasons to text; distinct reasons are distinct values.
- ShardWriter.AppendRecord: does not model file-system failures inside finalization, because they leave partial files that no later step of the writer reads.
- WriterLease.AuthorizeAction: does not distinguish a denial whose row was recorded from one whose row was not by its error, because both raise the same message.
- BuildFilledQuantity: does not model the validation of the requested coin and side names, because they are values of fixed sets here.
- ParseFillsSurface: takes page completeness and truncation as given, because response envelopes and cursors are read before any row is.
- EvaluateLog: takes the streams that a market frame samples, or that it cannot be read, as part of the frame, because decoding venue payloads is not modelled.
