# Verified model of the agent platform's gateway, history and artifact core

This project models the parts of Huf where several actors write the same record, or where one pass must
leave a strict shape behind, and proves what holds in every run:

- **The gateway event protocol** (`GatewayEvent`, `GatewayOutcomes`, `GatewayTimed`, `GatewayReplies`,
  `GatewayRuns`, `GatewayService`): one row per inbound message, written by ingest, queued workers, the
  stuck-event reaper, orphan recovery, revocation, dead-letter marking and replay, Flow completion,
  send-only reply retry and the check of finished jobs. A step relation over rows, clock, live jobs and
  sections that have read without a lock and not written yet; invariants over all interleavings, with exact
  conditions where one can be broken; the code's sections as methods on a document class, which can play any
  schedule of them.
- **Access entries** (`AccessEntries`, `AccessService`): pairing, approve, revoke, block, unblock, restore,
  STOP, START, expiry and cleanup, with the memory of an opt-out and the pairing cap.
- **Webhook delivery** (`WebhookBatch`, `ReplyStatus`, `OutboundThrottle`): the capped and redelivered batch
  loop, the delivery-status merge, the per-gateway send throttle.
- **Model history** (`HistoryRepair`, `HistoryReplay`): repair of tool-call pairing, and the expansion of
  stored rows into messages.
- **Smaller protocols**: the browser tool hand-off (`ClientTool`), the redirect loop (`Redirects`), the
  artifact rows of a message (`ArtifactSync`), the quota-bounded artifact store and its paging
  (`ArtifactStore`), and the model catalogue (`ModelCsv`, `CatalogueBuild`, `CatalogueUpsert`).

Each operation that changes state in the source is a method, proved equal to a specification function; the
properties are lemmas about that function, over single steps and over whole runs. What an operation leaves is
also stated in plain statuses, fields and numbers, apart from the function that computes it.

## What the proofs found

Some promises hold only under a condition. The code is modelled as it is; the condition is exact where
stated, and lemmas show runs that break the promise without it.

1. *Absorbing statuses.* Succeeded, Rejected, Recorded and Unrouted are left exactly by stale writes
   (`AbsorbingLeftIff`, `FirstBreakIsStale`): the second half of a section that read without a lock, landing on
   a status its first half would not have let pass. That is a revocation (line 1847 against 1872), a
   dead-letter mark (2379 against 2382), a worker's back-off after its rollback, the repair of a terminal
   state (2479 against 2490), and a completion that raises (2581); a stale claim of a reply retry leads there
   too. `StaleRevokeIsOverwritten`, `StaleRepairUndoesReplay` and `StaleClaimOverwrites` are such schedules.
   Without stale writes the statuses are absorbing if and only if replayed dead letters have no Flow Run and
   are not retrying (`ReplayBreaksIff`). Budgets, exactly-once ingest and once-only markers need no condition.
2. *Exits from Failed.* Besides stale writes there are three: replay of a dead letter, the late completion of
   a reaped event, and a reply retry that is in flight while recovery gives the event up
   (`FailedLeftIff`, `RecoveryDuringRetryExample`).
3. *Flow replies.* The bound (one, plus the reaps while Replying) holds in every run, stale writes and crashes
   included, in which no replay and no late requeue makes the event claimable without credit. Which replays do
   depends on where they are routed, and the rule is exact (`BoundBreaksIff`): a dead letter whose Flow failed
   without replying may go to its Flow again, but not to an agent.
4. *START.* It takes an opted-out entry back exactly when that entry is the sender's last saved live entry
   (`StartTakesBackIff`, `StartIsLost`); a second STOP overwrites the memory with "Opted out", so START then
   lands on Expired (`SecondStopForgets`).
5. *History repair.* A kept result is preceded by its declaration exactly when no id that keeps a declaration
   has a result in front of its first kept one (`PrecededIffNoEarlyResult`, `EarlyResultExample`).
6. *Batch cap.* A redelivery is meant to walk past what is stored and make progress. A message whose ingest
   leaves no row counts toward the cap again on every pass, so it does not always: the passes before the last
   one add nothing if and only if 500 messages that count stand in front of the first new one (`BlockedIff`,
   `FilteredHeadBlocks`); the last pass then dead-letters what stands behind them (`BlockedIsDeadLettered`).
   Without filtered messages, a payload is stored in full if and only if it has at most 500 new messages per
   remaining pass (`StoredInFullIff`).
7. *Artifact sync.* It leaves one row per parsed block exactly when the message's stored indices were unique
   and not negative (`SyncIsExactIff`).
8. *Idempotency key.* The hashed text of two gateways can coincide exactly when one name extends the other
   by a colon (`KeysClashIff`).
9. *Caps.* The pairing window is half-open: any four requests issued to one sender span at least 24 hours. The
   caps are checked and used without a lock. With at most k requests of a sender under way any 3 + k span a day
   (`OverlappingRequestsSpan`), and 2 + k can fall into two hours (`OverlapExceeds`), so the cap holds if and
   only if a sender's requests do not overlap (`CapHoldsIff`). Creations of artifacts likewise: k under way can
   exceed the quotas by exactly what k - 1 of the largest payloads add (`OverlappingStayWithin`,
   `OverlapAttains`), so the count quota holds if and only if k is 1 (`QuotasHoldIff`).
10. *Catalogue.* A second upsert changes nothing, for every earlier table, if and only if each hand-kept
   modality list that reaches the catalogue settles, that is, has no empty entry (`BuiltCatalogueSettlesIff`);
   a trailing comma is enough to make it write again (`TrailingCommaExample`).

## Assumptions

- One step is one committed section: the insert of an event with its routing; a section that reads
  `for_update`; a dead-letter replay and a recovery with the routing they trigger; a worker's Queued check with
  its first committed write. Every other read of an event without a lock is a step of its own, apart from its
  write.
- Actions on access entries (approve, revoke, block, STOP, START and so on) are single steps, although the
  source reads the entry without a lock. A pairing request and the creation of an artifact are both: whole, and
  split into check and insert.
- Any job may run at any time and any number of times; a job never lives longer than its 300 s limit.
- Cache counters and markers do not expire, except the retry claim, which is a clock value.
- Hooks, filters, route resolution and policies are arbitrary outcomes of a step; they write no event status.
- The idempotency hash is injective.

## Model

| member | source | states |
|---|---|---|
| GatewayEvent.StaysBounded | huf/ai/gateway_service.py:2173-2198 | every action keeps the persisted budgets: recoveries equal spent attempts and never exceed 3, one Flow Run and one menu prompt at most, at most 25 requeues |
| GatewayEvent.NeverUndone | huf/ai/gateway_service.py:2146-2198 | no write moves `modified` back, refunds an attempt or a requeue, replaces a Flow Run or clears the prompt marker |
| GatewayEvent.BusyRoundsFailIff | huf/ai/gateway_service.py:1761-1787 | an event whose conversation stays busy is failed by its 26th busy end and not before |
| GatewayEvent.ActingOutdatesListing | huf/ai/gateway_service.py:2173-2198 | a recovery that acts moves the row past the version it was listed with |
| GatewayEvent.OrphanFails | huf/ai/gateway_service.py:2219-2265 | a Queued orphan nobody else touches is Failed once stale passes outnumber its remaining attempts |
| GatewayOutcomes.RecoveredAsDelivered | huf/ai/gateway_service.py:2255-2259 | a Received orphan within budget ends in the status, cause and target that an uncut delivery with the same outcome gets, with one attempt spent |
| GatewayOutcomes.RecoveredInPlace | huf/ai/gateway_service.py:2244-2265 | a Queued orphan within budget stays Queued with one more attempt; a retrying reply stays, or fails when its parts cannot be rebuilt |
| GatewayOutcomes.RecoveryGivesUpIff | huf/ai/gateway_service.py:2185-2193 | an orphan out of attempts or time is failed, one that is not as listed is left alone |
| GatewayOutcomes.DeadlineIsAnHour | huf/ai/gateway_service.py:2194-2196 | the first recovery sets the deadline to an hour after its listing, later ones keep it |
| GatewayOutcomes.ReplayedAsDelivered | huf/ai/gateway_service.py:2440-2466 | a replayed dead letter ends where its outcome says, with no attempt spent and no second prompt |
| GatewayOutcomes.StatusIs | huf/ai/gateway_service.py:2604-2608 | the status every action leaves, in one table of plain statuses |
| GatewayOutcomes.SucceedsIff | huf/ai/gateway_service.py:2764-2847 | exactly which actions write Succeeded |
| GatewayOutcomes.RejectedIff | huf/ai/gateway_service.py:1839-1872 | exactly which write Rejected |
| GatewayOutcomes.RecordedIff | huf/ai/gateway_service.py:1967-2001 | exactly which write Recorded |
| GatewayOutcomes.UnroutedIff | huf/ai/gateway_service.py:2501-2534 | exactly which write Unrouted |
| GatewayOutcomes.QueuedIff | huf/ai/gateway_service.py:1761-1787 | exactly which write Queued, with at most 25 returns |
| GatewayOutcomes.RunningIff | huf/ai/gateway_service.py:2604-2692 | exactly which write Running |
| GatewayOutcomes.ReplyingIff | huf/ai/gateway_service.py:2546-2562 | exactly which write Replying |
| GatewayOutcomes.FailsIff | huf/ai/gateway_service.py:2303-2349 | exactly which write Failed |
| GatewayOutcomes.FailureCauses | huf/ai/gateway_service.py:2303-2321 | and exactly which of those the code reads back as reaped or as a dead letter |
| GatewayOutcomes.WorkerStarts | huf/ai/gateway_service.py:2604-2692 | the status, job and Flow Run each worker leaves |
| GatewayOutcomes.RetryingChanges | huf/ai/gateway_service.py:3026-3056 | exactly which actions mark a reply for retry, and which end that |
| GatewayOutcomes.RepliesAreCounted | huf/ai/gateway_service.py:2537-2583 | replies and reaps while Replying are counted one by one |
| GatewayOutcomes.RevocationSees | huf/ai/gateway_service.py:1847-1868 | a revocation remembers to reject exactly what it read as Received or Queued |
| GatewayOutcomes.RepairStartsIff | huf/ai/gateway_service.py:2469-2491 | the check of a finished job goes on to write exactly when the status differs from what the job saw or a delivery was lost |
| GatewayOutcomes.ClaimKeepsOthersOut | huf/ai/gateway_service.py:3156-3160 | a claimed retry keeps others out for ten minutes |
| GatewayOutcomes.ReapsIff | huf/ai/gateway_service.py:2303-2321 | which events the reaper fails, in plain times |
| GatewayOutcomes.ListedIff | huf/ai/gateway_service.py:2219-2240 | which events recovery lists, in plain times |
| GatewayOutcomes.ModifiedIs | huf/ai/gateway_service.py:2303-2321 | exactly which actions count as a write to the event |
| GatewayTimed.StaysTimed | huf/ai/gateway_service.py:2303-2349 | with the 300 s job limit every action that is not stale keeps at most one live job, consistent with the row |
| GatewayTimed.ReapedHasNoWorker | huf/ai/gateway_service.py:2303-2321 | an event the reaper may fail has no live job, since 300 s is below the 15 min cutoff |
| GatewayTimed.RetryIsAlone | huf/ai/gateway_service.py:3136-3159 | a reply retry that claims while its guard still holds finds no other job of the event at work |
| GatewayTimed.CompletionIsAlone | huf/ai/gateway_service.py:2546-2583 | a Flow completion that is not ignored finds no reply being sent |
| GatewayTimed.AbsorbingLeftIff | huf/ai/gateway_service.py:2604-2608 | Succeeded, Rejected, Recorded and Unrouted are left by an action exactly when it is a stale write |
| GatewayTimed.FailedLeftIff | huf/ai/gateway_service.py:2440-2466 | Failed is left exactly by replay of a dead letter, late success of a reaped event, a reply retry still in flight, or a stale write |
| GatewayTimed.LateCompletionIff | huf/ai/gateway_service.py:2546-2562 | a completion, successful or not, acts on a Failed event exactly when the reaper failed it; a failing one ends that |
| GatewayTimed.CarefulNeverLeaves | huf/ai/gateway_service.py:2604-2608 | no schedule without stale writes and unclean replays leaves an absorbing status |
| GatewayTimed.ReplayBreaksIff | huf/ai/gateway_service.py:2440-2466 | a dead letter has no Flow Run and is not retrying if and only if no replay of it, with any such schedule after it, leaves an absorbing status |
| GatewayTimed.ReplayWithFlowRunBreaks | huf/ai/gateway_service.py:2440-2466 | a replayed dead letter that has a Flow Run can leave Unrouted |
| GatewayTimed.ReplayWhileRetryingBreaks | huf/ai/gateway_service.py:3136-3175 | one still marked retrying, its retry in flight, claimed or only left over, can leave Succeeded |
| GatewayTimed.StaleRevokeIsOverwritten | huf/ai/gateway_service.py:1839-1872 | a revocation that read Queued rejects a running event, which then succeeds |
| GatewayTimed.StaleRepairUndoesReplay | huf/ai/gateway_service.py:2469-2491 | a job that saw Failed puts an event replayed to an end back to Failed |
| GatewayTimed.StaleClaimOverwrites | huf/ai/gateway_service.py:3136-3175 | a retry that passed its guard early claims late and overwrites a success |
| GatewayTimed.RecoveryDuringRetryExample | huf/ai/gateway_service.py:2268-2288 | a concrete run where a retry in flight revives an event recovery has failed |
| GatewayReplies.StaysPaid | huf/ai/gateway_service.py:2537-2583 | every action within the reply guard, stale or not, keeps the Flow replies paid for by reaps |
| GatewayReplies.GuardedStaysPaid | huf/ai/gateway_service.py:2546-2583 | every schedule within the guard stays within one reply plus the reaps while Replying |
| GatewayReplies.BoundBreaksIff | huf/ai/gateway_service.py:2537-2583 | of all actions exactly those outside the guard open a way beyond the bound that itself stays within the guard |
| GatewayReplies.FirstReplyRaises | huf/ai/gateway_service.py:2570-2583 | a reply that is delivered and then raises leaves a failed event without credit: the start of the next row |
| GatewayReplies.UncleanReplayRepliesTwice | huf/ai/gateway_service.py:2440-2466 | such a replay, of an event that has no credit left, ends with one reply too many |
| GatewayRuns.EveryRunIsSound | huf/ai/gateway_service.py:1881-1951 | over every interleaving: one row per key, rows never vanish or change key, budgets and markers hold |
| GatewayRuns.EventBudgets | huf/ai/gateway_service.py:2151-2198 | in any run from an empty table an event has at most 3 recoveries, 1 Flow Run, 1 menu prompt and 25 requeues, replays included |
| GatewayRuns.StoredAtMostOnce | huf/ai/gateway_service.py:1881-1951 | a message is stored exactly once over any run of deliveries, redeliveries and dead letters that stores it |
| GatewayRuns.DeliveryLands | huf/ai/gateway_service.py:1881-1951 | a first delivery leaves one row where its outcome says, or Received when cut off; later ones and transient errors change nothing |
| GatewayRuns.OrphanIsDelivered | huf/ai/gateway_service.py:2219-2265 | after any run, recovery within budget makes up for a cut-off delivery |
| GatewayRuns.ListingActsOnce | huf/ai/gateway_service.py:2173-2184 | of any number of reapers with the same listed version, at most one ever acts on it |
| GatewayRuns.EveryCarefulRunIsTimed | huf/ai/gateway_service.py:1724-1724 | the timed invariant holds after every run without stale writes and unclean replays |
| GatewayRuns.AbsorbingForGood | huf/ai/gateway_service.py:2604-2608 | over every such run the four final statuses stay |
| GatewayRuns.FirstBreakIsStale | huf/ai/gateway_service.py:1839-1872 | after any such run, the next event of whatever kind takes an event out of a final status if and only if it is a stale write to it |
| GatewayRuns.FailedIsLeftIff | huf/ai/gateway_service.py:2537-2583 | and out of Failed if and only if it is one of the three exits or a stale write |
| GatewayRuns.ReapableIsIdle | huf/ai/gateway_service.py:2303-2321 | after any such run a reapable event has no live job |
| GatewayRuns.FlowRepliesBounded | huf/ai/gateway_service.py:2546-2583 | in every guarded run, stale writes and crashes included, the Flow replies of an event are at most one plus the reaps while Replying |
| GatewayRuns.KeysClashIff | huf/ai/gateway_service.py:198-200 | two gateways can hash the same text exactly when they are equal or one name extends the other by a colon |
| GatewayRuns.KeyTextInjective | huf/ai/gateway_service.py:198-200 | for colon-free names the key text determines gateway and message |
| GatewayService.EventDoc.constructor | huf/ai/gateway_service.py:1898-1930 | an inserted event is Received with an empty history |
| GatewayService.EventDoc.TriageCas | huf/ai/gateway_service.py:1967-1979 | one caller wins Received to Recorded and the once-per-event marker; the others change nothing |
| GatewayService.EventDoc.ContinueIngest | huf/ai/gateway_service.py:2004-2135 | the row after routing, for each outcome of the rules |
| GatewayService.EventDoc.SpendRecoveryAttempt | huf/ai/gateway_service.py:2173-2198 | raced when the row is not the listed version; an attempt is spent exactly within budget and deadline |
| GatewayService.EventDoc.RecoverOrphan | huf/ai/gateway_service.py:2219-2288 | the row after recovery of one listed orphan |
| GatewayService.EventDoc.ReapOneStuck | huf/ai/gateway_service.py:2303-2321 | reaps exactly a stale Running or Replying row that is not retrying and has no active Flow Run |
| GatewayService.EventDoc.StartFlowForEvent | huf/ai/gateway_service.py:2501-2534 | creates a Flow Run only when the event has none; otherwise the row goes back to Running |
| GatewayService.EventDoc.ProcessGatewayEvent | huf/ai/gateway_service.py:2604-2692 | a worker changes only a Queued event, and how |
| GatewayService.EventDoc.FinishAgentRun | huf/ai/gateway_service.py:2764-2847 | how each end of an agent run leaves the event |
| GatewayService.EventDoc.FinishFlowEvent | huf/ai/gateway_service.py:2537-2583 | which completions claim the reply, and the row after each, raising ones included |
| GatewayService.EventDoc.RetryGatewayEvent | huf/ai/gateway_service.py:2440-2466 | only a Failed dead letter is replayed, and the row after it |
| GatewayService.EventDoc.ClaimReplyRetry | huf/ai/gateway_service.py:3156-3160 | a retry past its guard claims exactly when the claim is free, whatever the event has become |
| GatewayService.EventDoc.CommitReplyRetry | huf/ai/gateway_service.py:3026-3056 | how each end of a reply retry leaves the event |
| GatewayService.EventDoc.WriteUnlocked | huf/ai/gateway_service.py:2469-2491 | what a revocation, a dead-letter mark, a back-off, a finished job or a retry writes after its unlocked read, whatever the row has become |
| GatewayService.EventDoc.Play | huf/ai/gateway_service.py:2586-2601 | any legal schedule of the sections leaves the specified row; a careful one keeps a final status, a guarded one the reply bound |
| AccessEntries.OptOutIsLeftOnlyByStart | huf/ai/gateway_service.py:1424-1492 | an opted-out entry changes state under no action but a START of its sender |
| AccessEntries.StartTakesBackIff | huf/ai/gateway_service.py:797-803 | START takes an entry back exactly when it is the sender's last saved live one, and where to |
| AccessEntries.OptOutRemembers | huf/ai/gateway_service.py:1424-1460 | between STOP and START the entry remembers the last admin decision, and before any what STOP found, if anything |
| AccessEntries.StopToStart | huf/ai/gateway_service.py:712-803 | after STOP by any sender, any run and START, the entry STOP chose or created is on the last decision since, else the state at STOP if restorable, else Expired, provided it is still the last saved live one |
| AccessEntries.SoleStopToStart | huf/ai/gateway_service.py:712-803 | unconditionally so for a sender with no entry or a single live one and no request of their own in between |
| AccessEntries.SecondStopForgets | huf/ai/gateway_service.py:712-733 | STOP on an entry already opted out makes START land on Expired |
| AccessEntries.StartIsLost | huf/ai/gateway_service.py:692-709 | restoring another entry of the sender after the STOP makes START change nothing |
| AccessEntries.StaysOrdered | huf/ai/gateway_service.py:692-709 | every action keeps the save order of entries total |
| AccessEntries.BlockBlocks | huf/ai/gateway_service.py:1445-1460 | after Block an entry is Blocked, or opted out and remembering that |
| AccessEntries.RevokeRevokes | huf/ai/gateway_service.py:1424-1442 | after Revoke it is Revoked, unless blocked, or opted out and remembering that |
| AccessEntries.ApprovedIff | huf/ai/gateway_service.py:1309-1550 | an entry becomes Approved exactly by a timely approval, a restore from Revoked, an Add of a sender with nothing against it, or START |
| AccessEntries.RevokedIff | huf/ai/gateway_service.py:1424-1472 | exactly when it becomes Revoked |
| AccessEntries.BlockedIff | huf/ai/gateway_service.py:1445-1460 | exactly when it becomes Blocked |
| AccessEntries.OptedOutIff | huf/ai/gateway_service.py:712-733 | exactly when it becomes opted out |
| AccessEntries.ExpiredIff | huf/ai/gateway_service.py:797-803 | exactly when it expires |
| AccessEntries.PendingIff | huf/ai/gateway_service.py:1091-1105 | exactly when it becomes pending, and what a new request holds |
| AccessEntries.BlockedIsLeftIff | huf/ai/gateway_service.py:1445-1472 | a blocked entry is left exactly by its unblocking or its sender's STOP |
| AccessEntries.BlockedToApproved | huf/ai/gateway_service.py:1445-1493 | over every run, from Blocked to Approved only by an Unblock, or a STOP and a later START |
| AccessEntries.CleanupIs | huf/ai/gateway_service.py:1553-1575 | the daily job expires what is overdue and deletes exactly what has been expired for a week |
| AccessEntries.MayIssueIff | huf/ai/gateway_service.py:1043-1090 | a request is issued exactly when none is open, no code was sent in ten minutes, and both caps leave room, in plain numbers |
| AccessEntries.OpenIsAnswered | huf/ai/gateway_service.py:1059-1069 | an open request is kept and its code sent once |
| AccessEntries.StaysSingle | huf/ai/gateway_service.py:1059-1069 | whole actions keep at most one pending request per sender |
| AccessEntries.StaysAccounted | huf/ai/gateway_service.py:941-971 | every action keeps each issued request on record until it is too old to count |
| AccessEntries.PairingCap | huf/ai/gateway_service.py:1032-1105 | over every run of requests taken one at a time, any four issued to one sender span at least a day, expiry and cleanup included |
| AccessEntries.PairIsCheckThenInsert | huf/ai/gateway_service.py:1032-1105 | a whole request is its check with its insert right behind |
| AccessEntries.TurnsStayWithin | huf/ai/gateway_service.py:941-971 | with at most k requests of a sender under way, those and the ones issued in the last day are together at most 2 + k |
| AccessEntries.OverlappingRequestsSpan | huf/ai/gateway_service.py:1085-1105 | any 3 + k requests issued to that sender span at least a day, however long each takes from check to insert |
| AccessEntries.OverlapExceeds | huf/ai/gateway_service.py:1085-1105 | for each k, whatever the limit on open requests, a run from the empty table that issues 2 + k within 122 minutes |
| AccessEntries.CapHoldsIff | huf/ai/gateway_service.py:941-971 | the cap of 3 holds over every run if and only if requests of the sender do not overlap |
| AccessService.AccessTable.LiveSenderEntry | huf/ai/gateway_service.py:692-709 | finds the sender's live entry that was saved last |
| AccessService.AccessTable.ApprovePairing | huf/ai/gateway_service.py:1309-1323 | only a pending request that is not overdue is approved |
| AccessService.AccessTable.RevokeEntry | huf/ai/gateway_service.py:1424-1442 | revokes, or records the decision behind an opt-out; a blocked entry stays blocked |
| AccessService.AccessTable.BlockEntry | huf/ai/gateway_service.py:1445-1460 | blocks, or records the decision behind an opt-out |
| AccessService.AccessTable.UnblockEntry | huf/ai/gateway_service.py:1463-1472 | only a blocked entry, to Revoked |
| AccessService.AccessTable.RestoreEntry | huf/ai/gateway_service.py:1475-1493 | only a revoked entry, to Approved |
| AccessService.AccessTable.AddEntry | huf/ai/gateway_service.py:1496-1550 | refuses senders approved, blocked or opted out; else approves the live entry or a new one |
| AccessService.AccessTable.RecordOptOut | huf/ai/gateway_service.py:712-733 | STOP on the live entry, or on a new one |
| AccessService.AccessTable.RecordOptIn | huf/ai/gateway_service.py:797-803 | START on the live entry when it is opted out |
| AccessService.AccessTable.CreatePairingRequest | huf/ai/gateway_service.py:1032-1105 | the registry after a pairing request: re-sent, refused by cooldown or cap, or issued |
| AccessService.AccessTable.CheckPairing | huf/ai/gateway_service.py:1043-1086 | what its check leaves, and that it passes exactly when nothing is open and neither cooldown nor cap forbids it |
| AccessService.AccessTable.ExpireOrFind | huf/ai/gateway_service.py:1059-1069 | of any number of pending requests, the overdue ones expire up to the first that is open |
| AccessService.AccessTable.CleanupStale | huf/ai/gateway_service.py:1553-1575 | overdue requests expire; only entries expired for the retention time are deleted |
| WebhookBatch.Intake.HandleBatchedPayload | huf/ai/gateway_webhook.py:674-823 | rows, answer and deferral counter after one pass; at most 500 new messages |
| WebhookBatch.PassAccounts | huf/ai/gateway_webhook.py:689-764 | a pass loses no row and changes none but an open one into a dead letter; an acknowledged one without transient errors accounts for every message |
| WebhookBatch.FailingIff | huf/ai/gateway_webhook.py:712-717 | a pass over distinct messages fails exactly when it reached a new one with a transient error |
| WebhookBatch.GivingUpClosesRows | huf/ai/gateway_webhook.py:749-757 | what the last pass leaves behind has no open row any more |
| WebhookBatch.AcknowledgedInTime | huf/ai/gateway_webhook.py:749-764 | redelivered until acknowledged, a payload is acknowledged within 6 passes and every unfiltered message is then stored or dead-lettered |
| WebhookBatch.WalkExactly | huf/ai/gateway_webhook.py:689-716 | of distinct messages of any verdict, a walk ingests exactly those with fewer than 500 counted ones in front of them |
| WebhookBatch.WalkProgress | huf/ai/gateway_webhook.py:689-716 | a walk over distinct clean messages stores min(room, missing) of them and nothing else |
| WebhookBatch.PassProgress | huf/ai/gateway_webhook.py:689-764 | each pass that is deferred, or can store all that is missing, stores min(500, missing) new messages |
| WebhookBatch.LastPassKeepsTheRest | huf/ai/gateway_webhook.py:749-757 | the pass that gives up stores exactly 500 of the missing messages and dead-letters all the others |
| WebhookBatch.StoredInFullIff | huf/ai/gateway_webhook.py:282-286 | a payload of distinct clean messages is stored with no dead letter if and only if it has at most 500 new ones per remaining pass |
| WebhookBatch.WalkAddsNothingIff | huf/ai/gateway_webhook.py:695-698 | a walk adds no row if and only if nothing is new or the cap is used up in front of the first new message |
| WebhookBatch.BlockedIff | huf/ai/gateway_webhook.py:695-698 | while something is new, any number of passes before the last adds nothing if and only if 500 counted messages stand in front of the first new one |
| WebhookBatch.BlockedIsDeadLettered | huf/ai/gateway_webhook.py:749-757 | a blocked payload is deferred until the last pass, which dead-letters what stands behind the cap and stores nothing |
| WebhookBatch.FilteredHeadBlocks | huf/ai/gateway_webhook.py:689-716 | 500 filtered messages at the head are such a case |
| ReplyStatus.WinsIsTheChain | huf/ai/gateway_webhook.py:391-407 | the merge rule is the one chain unset < sent < failed < delivered < read < played |
| ReplyStatus.WinsTable | huf/ai/gateway_webhook.py:391-407 | which stored statuses each incoming one replaces |
| ReplyStatus.MergeIsMaximum | huf/ai/gateway_webhook.py:396-441 | any sequence of webhooks leaves the greatest status, and an error text exactly when it is failed |
| ReplyStatus.OrderIndependent | huf/ai/gateway_webhook.py:396-441 | two runs that carry the same statuses leave the same one |
| ReplyStatus.PermutationIsTheSame | huf/ai/gateway_webhook.py:396-441 | so does any permutation of a run |
| ReplyStatus.LastFailureExplains | huf/ai/gateway_webhook.py:427-438 | a failed reply carries the error text of the last failure reported |
| ReplyStatus.ReplyRow.UpdateReplyStatus | huf/ai/gateway_webhook.py:410-441 | the row after one webhook is the merge of row and webhook |
| OutboundThrottle.Throttle.ThrottleOutboundSend | huf/ai/gateway_service.py:297-308 | the slot table and the wait after one call |
| OutboundThrottle.SlotMoves | huf/ai/gateway_service.py:297-308 | after a send the gateway's slot is at least one interval later, whatever other gateways do |
| OutboundThrottle.SendsAreApart | huf/ai/gateway_service.py:297-308 | two sends of one gateway are at least 1/rate apart |
| OutboundThrottle.NextSlot | huf/ai/gateway_service.py:297-308 | a send goes out at its own time or one interval after the previous send, whichever is later |
| OutboundThrottle.FirstSendAndUnthrottled | huf/ai/gateway_service.py:297-308 | the first send of a gateway, and any without a rate, goes out at once |
| OutboundThrottle.WindowBound | huf/ai/gateway_service.py:297-308 | a window of length w holds at most floor(w * rate) + 1 sends of a gateway |
| OutboundThrottle.IdleIsNotDelayed | huf/ai/gateway_service.py:297-308 | a call after an idle interval is sent at once |
| HistoryRepair.RepairMessageSequence | huf/ai/conversation_manager.py:141-239 | the four passes compute the repair of the list |
| HistoryRepair.Survey | huf/ai/conversation_manager.py:158-173 | positions of declarations, and of results by id |
| HistoryRepair.KeepFulfilled | huf/ai/conversation_manager.py:175-184 | keeps exactly the declarations whose every id has a later result |
| HistoryRepair.RebuildOrphans | huf/ai/conversation_manager.py:186-202 | rebuilds exactly the results without kept or earlier declaration that have a record |
| HistoryRepair.BuildFinal | huf/ai/conversation_manager.py:204-231 | the list built from what the passes kept and rebuilt |
| HistoryRepair.RepairSettles | huf/ai/conversation_manager.py:141-239 | in every output each declaring assistant has a later result for each id and each result has a fulfilled declaration |
| HistoryRepair.FixedPointIffSettled | huf/ai/conversation_manager.py:141-239 | the repair leaves a list alone exactly when it obeys that rule |
| HistoryRepair.RepairIsIdempotent | huf/ai/conversation_manager.py:141-239 | repairing twice is repairing once, even if the records changed in between |
| HistoryRepair.ConversationKept | huf/ai/conversation_manager.py:204-231 | everything outside tool calls survives in order, with nothing added |
| HistoryRepair.FulfilledSurvives | huf/ai/conversation_manager.py:175-231 | a fulfilled declaration is in the output and still fulfilled there |
| HistoryRepair.RebuiltIsFulfilled | huf/ai/conversation_manager.py:19-50 | a rebuilt declaration stands right in front of its result, without text and with one call: the result's id, the record's tool and its arguments, or an empty object |
| HistoryRepair.ResultSurvivesIff | huf/ai/conversation_manager.py:175-231 | a result survives exactly when its id has a fulfilled declaration, or a record and a result before any declaration |
| HistoryRepair.NothingMadeUp | huf/ai/conversation_manager.py:204-231 | every output message is an input message or such a rebuilt declaration |
| HistoryRepair.SettledIffRule | huf/ai/conversation_manager.py:141-239 | the rule the results speak of, call by call |
| HistoryRepair.PrecededIffNoEarlyResult | huf/ai/conversation_manager.py:186-231 | every kept result is preceded by a declaration exactly when no kept id has an early result |
| HistoryRepair.SingleResultsArePreceded | huf/ai/conversation_manager.py:186-231 | in particular when no id has two results |
| HistoryRepair.EarlyResultExample | huf/ai/conversation_manager.py:186-231 | a list with two results of one id that keeps the early one in front of its only declaration |
| HistoryReplay.MessageToContext | huf/ai/conversation_manager.py:544-660 | the messages of one stored row, for every record kind |
| HistoryReplay.ReplayCombined | huf/ai/conversation_manager.py:581-634 | the group of a combined request-and-result row |
| HistoryReplay.GetConversationHistory | huf/ai/conversation_manager.py:488-521 | the expansion of the newest rows, as many as the limit or 1000, oldest first; of all rows when there are fewer |
| HistoryReplay.GroupShape | huf/ai/conversation_manager.py:581-634 | a combined row declares its calls in order, each answered right behind and in the same order |
| HistoryReplay.GroupFields | huf/ai/conversation_manager.py:581-634 | ids, names, arguments and contents of a replayed group: the stored text for the call that owns it, a placeholder for the others |
| HistoryReplay.ResolvedDetails | huf/ai/conversation_manager.py:523-542 | where a row without its own id finds it |
| HistoryReplay.RowsAlone | huf/ai/conversation_manager.py:544-660 | the message of rows outside tool calls, of tool rows, and none for excluded policies |
| HistoryReplay.AssistantRows | huf/ai/conversation_manager.py:635-660 | the calls or text of an assistant row |
| HistoryReplay.ExpandOne | huf/ai/conversation_manager.py:511-521 | the history of one row is its messages |
| HistoryReplay.ExpandConcat | huf/ai/conversation_manager.py:511-521 | the history of rows in sequence is their histories in sequence |
| HistoryReplay.EachCallDeclaredAndAnswered | huf/ai/conversation_manager.py:488-634 | over a whole history declared ids, answered ids and stored ids are the same list |
| HistoryReplay.ExpansionSettled | huf/ai/conversation_manager.py:488-634 | the expansion of plain and combined rows with non-empty ids obeys the provider's rule |
| HistoryReplay.ReplayIsFixedPointIff | huf/ai/conversation_manager.py:141-634 | that expansion is a fixed point of the repair exactly when no id is empty |
| ClientTool.FirstResultWins | huf/ai/client_side_tool.py:169-213 | after any run the waiter's payload is that of the first push, and it can time out only while nothing was pushed |
| ClientTool.PushesArePermitted | huf/ai/client_side_tool.py:256-281 | every push of any run is what a permitted submitter brought that found the stash |
| ClientTool.AnswersAreTrue | huf/ai/client_side_tool.py:283-316 | "recorded" is told only after the push and the marker, a refusal only without a push |
| ClientTool.TurnedAwayIff | huf/ai/client_side_tool.py:256-281 | exactly when a submitter is unreachable, expired, not permitted, or let in |
| ClientTool.SubmitterGoesOn | huf/ai/client_side_tool.py:283-316 | how one that was let in goes on |
| ClientTool.UnstashedNeverWaits | huf/ai/client_side_tool.py:132-146 | a waiter that cannot leave its request gives up at once |
| ClientTool.WaitEnds | huf/ai/client_side_tool.py:169-184 | the three ends of a wait |
| ClientTool.NoResultFails | huf/ai/client_side_tool.py:169-197 | without a result the call has failed |
| ClientTool.LateSubmitterPushesNothing | huf/ai/client_side_tool.py:256-275 | a submitter that first reads the stash after the waiter deleted it never pushes |
| ClientTool.LeavingCloses | huf/ai/client_side_tool.py:180-184 | the leaving waiter's delete shuts out later submitters; a failed delete does not, unless the stash was gone |
| ClientTool.MarkerEndsEarly | huf/ai/client_side_tool.py:283-307 | once the marker is written nobody else counts as early |
| ClientTool.PushesBounded | huf/ai/client_side_tool.py:283-307 | pushes are at most the submitters whose check preceded the first marker write, plus those whose later check failed |
| ClientTool.BothPushExample | huf/ai/client_side_tool.py:283-307 | two overlapping submitters can both push, so the bound is met |
| ClientTool.OneAtATimePushesOnce | huf/ai/client_side_tool.py:238-316 | submitters that do not overlap push at most once between them |
| ClientTool.ReportedAsSubmitted | huf/ai/client_side_tool.py:204-234 | the call row ends as the first pusher said, its error text cut at 140 characters |
| ClientTool.Handoff.SubmitClientToolResult | huf/ai/client_side_tool.py:238-316 | keys and answer after one uninterrupted submission |
| ClientTool.Handoff.CleanUp | huf/ai/client_side_tool.py:180-205 | what the waiter deletes on its way out |
| Redirects.RunHttpRequest | huf/ai/http_handler.py:122-266 | the requests sent are a run of at most 6 and the outcome is the one that run ends with; a success has at most 10 MB |
| Redirects.ReadBody | huf/ai/http_handler.py:232-248 | the body exactly when it is within the cap, however it is chunked |
| Redirects.MergeHeaders | huf/ai/http_handler.py:139-160 | the headers of the first request |
| Redirects.HeadersExactly | huf/ai/http_handler.py:139-213 | the headers of every request: all while the run has stayed at the base origin, the non-authorization ones afterwards |
| Redirects.AuthorizationStaysHome | huf/ai/http_handler.py:177-213 | with a base URL, no request to another origin nor any later one carries one of the five headers in any spelling; every other header stays with its value |
| Redirects.FirstUrlAsGiven | huf/ai/http_handler.py:122-129 | an absolute URL is requested as given |
| Redirects.FirstUrlJoined | huf/ai/http_handler.py:122-129 | a relative one is joined to the base URL by exactly one slash |
| Redirects.OutcomeMeans | huf/ai/http_handler.py:180-248 | what each outcome says about the last reply |
| Redirects.EveryHopPinned | huf/ai/http_handler.py:177-213 | every request goes to the addresses of the one look-up made for its URL |
| Redirects.RunsAgree | huf/ai/http_handler.py:176-213 | the requests of a call are determined by the network's answers |
| ArtifactSync.ParsedInDocumentOrder | huf/ai/artifact_extraction.py:141-167 | the parse lists every block found in document order, whatever the order of the three parsers |
| ArtifactSync.ArtifactTable.SyncMessageArtifacts | huf/ai/artifact_extraction.py:170-221 | the table after a sync |
| ArtifactSync.ArtifactTable.UpdateArtifactIfChanged | huf/ai/artifact_extraction.py:224-241 | one row after comparing its six fields, written only when one differs |
| ArtifactSync.SyncIsExactIff | huf/ai/artifact_extraction.py:170-221 | the message's rows are exactly one per parsed block, with its fields, if and only if indices were unique and not negative |
| ArtifactSync.SecondSyncWritesNothing | huf/ai/artifact_extraction.py:224-241 | a second sync writes nothing, in whatever order the rows are listed |
| ArtifactSync.ChangesAreWrites | huf/ai/artifact_extraction.py:187-241 | a sync that counts no write changed nothing |
| ArtifactSync.OnlyAgentMessages | huf/ai/artifact_extraction.py:170-186 | messages of others are not looked at |
| ArtifactSync.ExactIsLeftAlone | huf/ai/artifact_extraction.py:224-241 | a sync of an exact table writes nothing |
| ArtifactSync.OthersUntouched | huf/ai/artifact_extraction.py:187-221 | rows of other messages are not touched |
| ArtifactStore.ContextArtifacts.CreateContextArtifact | huf/ai/context_artifacts.py:193-260 | a payload within all three quotas is inserted, any other changes nothing |
| ArtifactStore.CreateAddsOne | huf/ai/context_artifacts.py:97-134 | a payload is admitted exactly when the store with it is within every quota; it then adds one artifact, its bytes and, unless inline, its file |
| ArtifactStore.LimitsAre | huf/ai/context_artifacts.py:97-134 | the quotas in plain numbers, and the overrides that replace them |
| ArtifactStore.ContextArtifacts.DeleteArtifactAndFile | huf/ai/context_artifacts.py:381-394 | file first, then row, stopping where a deletion fails |
| ArtifactStore.ContextArtifacts.PurgeExpiredContextArtifacts | huf/ai/context_artifacts.py:397-426 | the store after a purge that goes on past failures; the number returned is that of the artifacts gone |
| ArtifactStore.ContextArtifacts.DeleteConversationArtifacts | huf/ai/context_artifacts.py:429-460 | the store after a cascade that stops at the first failure |
| ArtifactStore.EveryRunWithinQuotas | huf/ai/context_artifacts.py:97-134 | over every run of creations one at a time, purges and cascades each conversation is within the quotas and no file is orphaned |
| ArtifactStore.OverlappingStayWithin | huf/ai/context_artifacts.py:212-253 | with check and insert apart and at most k creations of a conversation under way, it exceeds no quota by more than k - 1 of them can add |
| ArtifactStore.OverlapAttains | huf/ai/context_artifacts.py:212-253 | for every configuration that admits anything, one run reaches both bounds |
| ArtifactStore.QuotasHoldIff | huf/ai/context_artifacts.py:97-134 | the count quota holds over every run if and only if creations do not overlap; the byte quota also when as many of the largest payloads as the count bound allows fit in it |
| ArtifactStore.PurgeExactly | huf/ai/context_artifacts.py:397-426 | a purge removes exactly the artifacts whose time is before now and whose deletion gets through; the file goes even when the row then stays |
| ArtifactStore.CascadeExactly | huf/ai/context_artifacts.py:429-460 | a cascade without failures removes the conversation's artifacts with their files and nothing else |
| ArtifactStore.CascadeStops | huf/ai/context_artifacts.py:429-460 | what a cascade with a failure leaves |
| ArtifactStore.PageIs | huf/ai/context_artifacts.py:364-378 | one page in plain terms, for absent, negative and overlong offsets and limits |
| ArtifactStore.PagesAreTheLines | huf/ai/context_artifacts.py:364-378 | the pages read are the lines from the first offset on, cut up without loss or overlap |
| ArtifactStore.PagesJoinToText | huf/ai/context_artifacts.py:320-378 | pages of a fixed positive limit read until not truncated join to the text from the first offset |
| ArtifactStore.PagesNeeded | huf/ai/context_artifacts.py:364-378 | and the reading ends after exactly as many pages as the lines need |
| ArtifactStore.PageNumberIsQuotient | huf/ai/context_artifacts.py:364-378 | which is the lines divided by the limit, rounded up |
| ModelCsv.PartsOfEncode | huf/ai/model_catalogue_sync.py:25-30 | a written modality list reads back as the same entries |
| CatalogueUpsert.MergeModalities | huf/ai/model_catalogue_sync.py:25-30 | the merged list |
| CatalogueUpsert.AddMissingAdds | huf/ai/model_catalogue_sync.py:25-30 | the merge keeps what it had in front, then has everything wanted and nothing else |
| CatalogueUpsert.ModelTable.UpsertModels | huf/ai/model_catalogue_sync.py:33-70 | the table after an upsert, and as many writes as reported |
| CatalogueUpsert.UpsertIsIdempotentIff | huf/ai/model_catalogue_sync.py:33-70 | for distinct names a catalogue writes nothing the second time, for every earlier table, if and only if each of its lists settles |
| CatalogueUpsert.SettlingIff | huf/ai/model_catalogue_sync.py:25-30 | the lists that settle are those without empty entries, and the empty text |
| CatalogueUpsert.TrailingCommaExample | huf/ai/model_catalogue_sync.py:25-30 | a list with a trailing comma is rewritten |
| CatalogueUpsert.UpsertIsAdditive | huf/ai/model_catalogue_sync.py:33-70 | no row is deleted, none loses a modality or a filled field, rows outside the catalogue are not touched |
| CatalogueUpsert.ChangesAreWrites | huf/ai/model_catalogue_sync.py:33-70 | an upsert that counts no write changed nothing |
| CatalogueUpsert.CatalogueIsInTable | huf/ai/model_catalogue_sync.py:46-64 | afterwards each catalogue row has the catalogue's alias flag, its blanks filled, and exactly the modalities it had or the catalogue wants |
| CatalogueUpsert.NoOtherRows | huf/ai/model_catalogue_sync.py:33-70 | only catalogue rows appear |
| CatalogueUpsert.DuplicateNeverSettles | huf/ai/model_catalogue_sync.py:60-64 | two entries of one name that disagree on the alias flag make every upsert write twice |
| CatalogueBuild.Builder.BuildCatalogue | scripts/gen_model_catalogue.py:639-726 | the catalogue, or the first fault found, in the order of the checks |
| CatalogueBuild.BuildIsDistinct | scripts/gen_model_catalogue.py:646-717 | every successful build has distinct names |
| CatalogueBuild.BuildSucceedsIff | scripts/gen_model_catalogue.py:639-726 | a build succeeds exactly when no extra repeats a name, aliases are seeded and retired names replaced within their provider; and which fault comes first |
| CatalogueBuild.UsableIff | scripts/gen_model_catalogue.py:651-665 | which candidates are usable |
| CatalogueBuild.StoredNameIs | scripts/gen_model_catalogue.py:617-621 | the stored name of a key |
| CatalogueBuild.ModalityTexts | scripts/gen_model_catalogue.py:583-601 | the modality text of each mode |
| CatalogueBuild.RetiredIsReplaced | scripts/gen_model_catalogue.py:711-717 | every retired name is gone and maps to a seeded, non-retired model of its provider |
| CatalogueBuild.RepointSettles | scripts/gen_model_catalogue.py:711-717 | repointing settles in one step |
| CatalogueBuild.BuildNames | scripts/gen_model_catalogue.py:651-700 | the catalogue holds exactly the extras and the names of usable candidates, and no name is both |
| CatalogueBuild.BuildFromCandidate | scripts/gen_model_catalogue.py:651-709 | a candidate's model has the provider, limits and reasoning flag of the first usable candidate of its name, field by field, and is flagged exactly when a listed alias |
| CatalogueBuild.BuildFromExtra | scripts/gen_model_catalogue.py:696-709 | an extra is taken over as it stands, but for its modalities and alias flag |
| CatalogueBuild.BuildModalities | scripts/gen_model_catalogue.py:667-704 | the modalities are those of the entry, unless the last override of the name says others |
| CatalogueBuild.BuildExtraModalities | scripts/gen_model_catalogue.py:696-704 | likewise for an extra |
| CatalogueBuild.BuildSettlesIff | scripts/gen_model_catalogue.py:667-704 | the lists made from the model table always settle; all do exactly when the hand-kept ones that reach the catalogue do |
| CatalogueBuild.BuiltCatalogueSettlesIff | huf/ai/model_catalogue_sync.py:33-70 | the catalogue of a successful build, upserted in any order, changes nothing the second time, for every earlier table, if and only if its hand-kept lists settle |

## Left out

- Route resolution, admission policy, hooks, media, prompts, provider adapters and `fall_through`: they choose an outcome, which the model takes as arbitrary.
- Provider send hooks and multi-part replies: only the `retrying` mark, the per-event claim and the ends of a retry are modelled.
- A delivery-status webhook that overwrites the `retrying` mark of an event: `ReplyStatus` merges statuses of replies that are not waiting for a retry.
- Linked sender ids, room entries, keyword matching, pairing codes and their attempt limits.
- Purge of old rejected events, so keys stay in use for the whole run.
- Statuses, template updates, calls and account events of a batch payload: they run after the message loop and touch other records.
- GatewayService.EventDoc.FinishFlowEvent: the send itself is a separate step (`FlowReplySent`, `FlowReplyEnds`), since it happens outside the lock.
- GatewayService.EventDoc.FinishAgentRun: the requeue counter is read and advanced in one step, and its two-hour expiry is not modelled.
- GatewayService.EventDoc.CommitReplyRetry: the number of attempts a reply may be retried is not modelled; any retry may ask for another.
- WebhookBatch.AcknowledgedInTime: assumes no transient error, as the source answers those with a retry without end.
- ClientTool.PushesBounded: expiry of the keys is not modelled; all steps lie within their lifetime.
- ClientTool.Handoff.SubmitClientToolResult: takes a working cache; failing commands are in the step relation.
- Redirects.HeadersExactly: header names are compared with ASCII case folding only.
- Redirects.RunHttpRequest: an exception of the URL functions, and the decoding of the body as JSON or text, are not modelled.
- ArtifactStore.ContextArtifacts.CreateContextArtifact: a failing attach rolls the request back, so it is no step of its own.
- ArtifactSync.ParsedInDocumentOrder: the regular expressions are not modelled; blocks and their positions are given, positions distinct.
- CatalogueBuild.BuildIsDistinct: the final sort by provider and name is not modelled; no result depends on it.
- CatalogueUpsert.ModelTable.UpsertModels: a row whose write raises is skipped by the source; the model has no such failure.
- Redis, SQL and the job queue themselves; permission checks; audit rows, logs and realtime notices.
