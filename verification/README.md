# Verification model of the llama-swap pool proxy

This project models the stateful parts of the proxy in Dafny and proves what they promise over whole runs.
`dafny verify dfyconfig.toml` checks it.

**Prepaid billing.** The credit ledger keeps, per API key, `available = allowance - reserved - pending -
confirmedSum` (`CreditLedger.dfy`). Each mutex-protected method is one atomic step on one account. `LedgerRuns.dfy`
runs these steps beside a history of what happened (live holds, bills not yet logged, the debit log, the snapshots
home issued) and compares `available` with an ideal account that knows no log, no snapshots and no delays.
`RestartRuns.dfy` runs the same steps from an empty account whose old log is still being replayed, and
`ConfirmOrder.dfy` confirms pending debits in every order. `Confirm` has no caller in the repository, so its doc
comment is its contract: in log order, possibly re-reading old entries, with the amount `TrueUp` clamped. Home
is taken to net exactly the debits up to a snapshot's watermark into its balance, and never to lower the watermark as
the version rises. The gate (`CreditGate.dfy`) holds a
worst-case price on arrival and settles once on exit; `GateRuns.dfy` runs interleaved requests at any prices, and
`GateSteps.dfy` shows that the gate's own operations take exactly those steps. `Pricing.dfy` writes out 64-bit
wrap-around and truncating division. `Allowance.dfy` is the ingester of pushed snapshots.

**Durable debits.** `DebitEmitter.dfy` is the bounded queue with one writer, `DebitLog.dfy` the JSONL file with
recovery by truncation, and `LogRuns.dfy` runs the log through appends, failed appends that leave any part of their
line, crashes at any byte, restarts and pulls. The JSON encoder is a parameter. It is faithful when encoded events
contain no raw newline and a whole line decodes to the event it was made from, and strict when a line glued onto
unfinished ones does not decode.

**Peers.** `PeerAffinity.dfy` is rendezvous hashing over any score function, `PeerPicker.dfy` the load-aware pick with
an affinity discount, `PeerAdmission.dfy` the per-peer semaphore nested inside the in-flight counter, and
`PeerRanker.dfy` the pure ranker that must agree with the picker.

**Supporting algorithms.** `EventBus.dfy` is the event dispatcher, `MacroExpansion.dfy` the configuration's macros,
`History.dfy` the circular log buffer and the metrics list, `StreamScan.dfy` the backward scan of a streamed response,
`RateLimiter.dfy` the fixed-window limiter.

Where the source changes state in place the model is a class whose methods are proved against functions on values
(`LedgerSpec`, `GateSpec`, `LogFormat`, `EmitterSpec`, `EventSpec`, `PickSpec`, `IngestSpec`, `RateSpec`); the run
theorems are about those same functions.

Some promises are false as stated, or need a condition. The model keeps the code's behaviour and proves the condition:

- The ledger is exact, not only safe, if and only if no chargeable debit at or below the watermark is still to be
  confirmed (`AvailableOnEveryRun`).
- After a restart the log is replayed into an empty ledger. A replay that meets new, still pending traffic takes an
  old debit's cost out of the new bills' `pending`. What is lost that way is never more than what is owed for new
  traffic, nor than what has been replayed, and is gone once the new bills are confirmed (`AvailableAfterRestart`).
  Nothing is lost at any moment if and only if no old debit that costs something is replayed while anything is pending
  (`NeverLosesIffQuiet`; `ReplayOverstatesByBill` is a run that ends with 83 left and 90 offered).
- Confirmed in any order, pending debits leave `pending` by exactly the cost of the left-to-right maxima. All of them
  leave it, and the balance is right under a snapshot that nets them, if and only if they are confirmed in log order
  (`AllConfirmedIffInOrder`, `BalanceExactIffInOrder`).
- A failed append that leaves bytes behind does not stop the log. Recovery stays gap-free, in order and complete at
  every moment if and only if no operation spoils the file: none puts a whole line behind one that a failed append
  left whole, and none succeeds behind unfinished lines, but for the very event an earlier failure had left whole
  (`AlwaysIntactIffNeverSpoiled`, with `SyncFailureRepeatsSeq`, `TwoSyncFailuresRepeatSeq`, `WriteFailureLosesAcked`
  and `RetryIsHarmless`). Runs whose failed appends leave no bytes qualify wherever they crash
  (`CleanFailuresNeverSpoil`).
- A price is exact if and only if the 64-bit computation does not wrap, and too low otherwise; a hold covers every
  metering within its bounds under the same condition (`PriceExactIffFits`, `HoldCoversBoundsIffFits`,
  `WrappedReserveHoldsTooLittle`).
- The pull handler answers `high_water: 0` while the log is disabled. On unspoiled runs a puller that takes every
  returned head as its cursor holds the log up to that cursor at every moment if and only if it never pulls from a
  disabled log once it has pulled anything; otherwise it is sent the log again (`NaivePullerKeepsPlaceIff`, with such
  a run in `DisabledHeadIsNotACursor`). One that skips disabled answers always keeps its place (`PullerHoldsPrefix`).
- Removing a subscriber does not signal the condition it may be waiting on. A consumer removed while it waits returns
  if and only if the condition has been signalled since, by an event sent to the others or the end of a batch
  (`RemovedWaiterReturnsIff`, `RemovedConsumerLingers`). Publishers do not deadlock: while one waits some consumer has
  work to do, and once the consumers have worked off what they hold it has been woken and finds room
  (`WaitingPublisherHasWorker`, `WaitingPublisherGetsThrough`). With a limit of 0 or less nothing is ever published
  (`NoRoomPublishesNothing`).
- One macro pass from last to first is full recursive expansion for every macro list. It leaves no declared reference
  if and only if no macro refers to itself or to a later one (`NoDeclaredReferenceLeftIff`). In metadata it also keeps
  types as full expansion would if and only if no macro that is not a string is followed by one that shows as the empty
  text: such a pair turns an interpolated text into a typed value (`MetadataIsExpansionIff`, `LeakChangesType`).
- `Rank` sorts by the picker's weighted sum and always agrees with it (`HeadIsThePick`). The rank key it reports beside
  that, meant as a shared comparator, does not: the peer it prefers is the picker's if and only if some peer in the
  best loaded state of all comes before every peer in a worse one by weighted sum, then by position (`HeadsAgreeIff`,
  `HeadsDisagree`).
- The saturation test never claims room that is not there, but it counts queued and finishing requests against a
  peer. A yes is needless, with a slot free at the peer, if and only if its queued and its finishing requests together
  outnumber what it has in flight above the cap; where nobody queues beside a free slot, its finishing requests alone
  have to (`SaturatedMeansRoomElsewhere`, `NeedlesslySaturatedIff`, `NeedlessOnlyWhileFinishing`, `NeedlessYes`).
- A minute holds at most twice a client's limit less one, which every limit reaches (`AdmittedPerMinute`,
  `BoundIsReached`).
- A second `Close` of the emitter returns at once, while the first may still be draining (`DebitEmitter.Emitter.Close`).

## Model

| member | source | states |
|---|---|---|
| CreditLedger.KeyCredit.Hold | proxy/credit_ledger.go:84-96 | the hold is granted iff allowance less reserved, pending and confirmed sum is at least the cost, floored at 0, and then just that is reserved |
| CreditLedger.KeyCredit.Bill | proxy/credit_ledger.go:118-138 | the whole hold goes back and the cost clamped to it becomes pending |
| CreditLedger.KeyCredit.Confirm | proxy/credit_ledger.go:165-186 | at or below the high-water mark nothing changes; else pending falls, floored at 0, and the debit is remembered only above the watermark |
| CreditLedger.KeyCredit.AgeOut | proxy/credit_ledger.go:207-216 | visiting the map in any order leaves exactly the debits above the watermark, and lowers the running sum by the sum of the rest |
| CreditLedger.KeyCredit.SetAllowance | proxy/credit_ledger.go:199-217 | an older version is ignored, an equal or newer one sets the balance; a watermark never retreats |
| CreditLedger.Ledger.Reserve | proxy/credit_ledger.go:84-96 | check and hold are one step on the key's account, granted iff its four fields leave at least the cost, floored at 0; a denied hold is nil; no other key moves |
| CreditLedger.Reservation.Release | proxy/credit_ledger.go:100-111 | gives the hold back the first time and does nothing afterwards, or on a nil hold |
| CreditLedger.Reservation.TrueUp | proxy/credit_ledger.go:118-138 | resolves once, reports whether it did, and moves no other key |
| CreditLedger.Ledger.Confirm | proxy/credit_ledger.go:165-186 | the account step on one key, counting skipped re-reads |
| CreditLedger.Ledger.SetAllowance | proxy/credit_ledger.go:199-217 | the account step on one key |
| CreditLedger.Ledger.Available | proxy/credit_ledger.go:221-225 | reads a key's balance, 0 for an unknown key, and changes no account |
| LedgerSpec.SumSplitsAtWatermark | proxy/credit_ledger.go:207-216 | the confirmed debits' sum is the sum kept plus the sum aged out |
| LedgerRuns.StepKeepsInv | proxy/credit_ledger.go:68-217 | every operation keeps: reserved is the sum of live holds, pending the bills not confirmed, the confirmed map exactly the confirmed debits above the watermark |
| LedgerRuns.AvailableOnEveryRun | proxy/credit_ledger.go:68-217 | on every run, for every key, available is the ideal account less the debits home netted and Confirm has not reached; never too high, and exact iff there is no chargeable such debit |
| LedgerRuns.ReserveGrantedIff | proxy/credit_ledger.go:84-96 | on every run, for every key, a Reserve places a hold of exactly its cost under a new id iff the ideal account less the debits netted and not yet confirmed covers it; a refusal changes nothing |
| LedgerRuns.AdmissionNeverOverspends | proxy/credit_ledger.go:84-96 | right after any admitted Reserve, holds and debits together stay within the granted credit |
| LedgerRuns.ReleaseUndoesReserve | proxy/credit_ledger.go:84-111 | from any state a run can reach, a hold placed and given back leaves account and holds as they were |
| LedgerRuns.TrueUpCharges | proxy/credit_ledger.go:118-138 | trueing a hold up takes its cost within the hold, and nothing else, off the balance and the ideal account |
| LedgerRuns.NewestSnapshotCounts | proxy/credit_ledger.go:199-217 | the newest snapshot is accepted whenever it comes |
| LedgerRuns.CaughtUpIsExact | proxy/credit_ledger.go:165-186 | from any state a run can reach, confirming what is left in the log makes available the ideal account |
| LedgerRuns.ConfirmedSumNeverDrifts | proxy/credit_ledger.go:207-216 | on every run the running sum equals the sum of the confirmed set, whose seqs lie in (ackWatermark, confirmedHigh] |
| LedgerRuns.ReplayIsNoOp | proxy/credit_ledger.go:140-186 | re-reading any confirmed log entry changes nothing |
| LedgerRuns.RestartReconstructs | proxy/credit_ledger.go:165-217 | an empty ledger, the log replayed with any re-reads and one snapshot anywhere in between, ends at balance less the costs past the watermark |
| RestartRuns.AvailableAfterRestart | proxy/credit_ledger.go:68-217 | on every run from an empty account with its old log still to replay: available against the ideal account, with what replays have lost bounded by what is owed and by what was replayed |
| RestartRuns.NeverLosesIffQuiet | proxy/credit_ledger.go:165-186 | nothing is lost at any moment iff no chargeable old debit is replayed while anything is pending |
| RestartRuns.StepLosesIff | proxy/credit_ledger.go:165-186 | of all operations exactly that one loses |
| RestartRuns.AnyRunMayRestart | proxy/credit_ledger.go:52-66 | a restart can follow any run that began with the process |
| RestartRuns.LiveRunMayRestart | proxy/credit_ledger.go:52-66 | after a restart, another can follow at any moment, whatever traffic and replay there were |
| RestartRuns.ReplayOverstatesByBill | proxy/credit_ledger.go:165-186 | a run after a restart, an old debit of 10 replayed over a pending bill of 7, that ends with 83 left and 90 offered |
| ConfirmOrder.ConfirmGivesBackNetted | proxy/credit_ledger.go:165-217 | under a snapshot that nets a debit, confirming it gives back exactly its cost |
| ConfirmOrder.PendingAfterAnyOrder | proxy/credit_ledger.go:155-186 | confirmed in any order, pending falls by exactly the cost of the left-to-right maxima |
| ConfirmOrder.AllConfirmedIffInOrder | proxy/credit_ledger.go:155-186 | everything leaves pending iff the debits are confirmed in log order |
| ConfirmOrder.BalanceExactIffInOrder | proxy/credit_ledger.go:155-217 | under a snapshot that nets them all the balance is too low by the cost of the others, and right iff in log order |
| ConfirmOrder.OutOfOrderConfirmStrands | proxy/credit_ledger.go:155-186 | of two debits in the wrong order only the later one's cost comes back |
| Pricing.ComponentExactIffFits | proxy/pricing.go:83-88 | rounding up with 64-bit arithmetic is exact iff the sum before the division fits, and too low otherwise |
| Pricing.PriceExactIffFits | proxy/pricing.go:49-79 | a price is the least whole credits per component iff nothing wraps, and too low otherwise |
| Pricing.HoldCoversBoundsIffFits | proxy/pricing.go:44-79 | the reserved price covers the true price of everything within its bounds iff it did not wrap |
| Pricing.ReserveIsWorstCase | proxy/pricing.go:44-62 | a priced model reserves for the longest completion that its ceiling and the request's own cap allow; what is held covers everything allowed iff that price fits |
| Pricing.MeteredPriceExactIffFits | proxy/pricing.go:64-79 | metered tokens have a price iff the model does, the true one iff nothing wraps; negative counts cost nothing |
| Pricing.ReserveCoversActual | proxy/pricing.go:44-79 | when the reserved price fits, any in-bounds metering is priced exactly and within the hold |
| Pricing.WrappedReserveHoldsTooLittle | proxy/pricing.go:49-62 | a configured rate and a 16 KiB body whose reserve wraps to 3 credits, while one prompt token costs over a trillion |
| GateSpec.SettledAccount | proxy/credit_gate.go:126-165 | every settlement returns the whole hold and leaves exactly its bill, between 0 and the hold |
| CreditGate.Gate.Admit | proxy/credit_gate.go:95-111 | off iff not enforcing; else unpriced iff ledger, price book or rate is missing, insufficient iff the key's balance is below the price, and otherwise admitted: whatever an enforcing gate serves carries a live hold of the reserved price |
| CreditGate.Gate.GuardedAdmit | proxy/credit_gate.go:260-271 | the same without a fault; a fault denies, or serves un-metered under the canary policy, is counted and moves no account |
| CreditGate.CreditReservation.TrueUp | proxy/credit_gate.go:126-140 | settles once at the metered price, or at nothing if it has none; counts a pricing failure without one and a clamp above the reserve, for this model only; a nil or inert reservation changes nothing |
| CreditGate.CreditReservation.TrueUpReserved | proxy/credit_gate.go:160-165 | settles once at the full reserve; a nil or inert reservation changes nothing |
| CreditGate.CreditReservation.Release | proxy/credit_gate.go:146-151 | settles once at nothing; a nil or inert reservation changes nothing |
| CreditGate.CreditReservation.Resolve | proxy/credit_gate_wiring.go:109-119 | maps the captured outcome to one settlement; anomalies are recorded on a metered exit and on no other |
| CreditGate.CreditReservation.GuardedResolve | proxy/credit_gate.go:284-295 | a fault before the ledger releases the hold, is counted and leaves the anomalies alone; an inert reservation does nothing |
| GateRuns.EveryRunBalances | proxy/credit_gate.go:95-165 | on every interleaving an account is its start plus its outstanding holds and its bills |
| GateRuns.AllExitedReturnsEveryHold | proxy/credit_gate.go:95-165 | once all requests have exited, every hold is back and the balance is down by exactly the bills |
| GateRuns.SettledStaysSettled | proxy/credit_gate.go:284-295 | a request that settled stays settled at that bill |
| GateRuns.BillOnEveryRun | proxy/credit_gate_wiring.go:109-119 | on every run a finished request was billed 0 on a fault, no capture or a status other than 200; its full reserve on 200 without usage; else the metered price within the reserve of what it asked for |
| GateRuns.EveryRequestIsAccountable | proxy/credit_gate.go:95-111 | on every run a hold is the price of what its request asked for, and a bill the settlement of such a hold |
| GateRuns.InBoundsBillsExactly | proxy/credit_gate.go:126-140 | on every run metering within the reserved bounds bills the exact price and records no anomaly |
| GateRuns.ClampOnEveryRun | proxy/credit_gate.go:126-140 | on every run a metered exit finds a price, and records a clamp iff its bill falls short of it, or, if the reserve had wrapped below 0, iff the price passes the reserve |
| GateSteps.Arrival | proxy/credit_gate.go:260-271 | a guarded admission of an enforcing gate moves the ledger exactly as the arrival of a request moves the accounts of a run |
| GateSteps.Departure | proxy/credit_gate.go:284-295 | and a guarded resolution exactly as its exit |
| Ingestion.Validate | proxy/allowance.go:60-76 | accepts iff the version is set, every entry is named and not negative, and no key comes twice; reports the first fault |
| Ingestion.Ingester.Apply | proxy/allowance.go:145-178 | a push is applied whole iff it is such a snapshot of a version above the last, or else changes nothing but the reject count |
| Ingestion.Ingester.Freshness | proxy/allowance.go:182-189 | not expired iff some snapshot was accepted and the last is dated, not from beyond the skew and not past both limits; fresh iff also within the grace |
| IngestSpec.AcceptedIffRecord | proxy/allowance.go:151-163 | a push is accepted iff it is valid and above every valid version pushed before; lastVer rises exactly then |
| IngestSpec.LastVerIsHighest | proxy/allowance.go:151-163 | lastVer is the highest valid version pushed |
| IngestSpec.OnlyRecordsMatter | proxy/allowance.go:145-178 | among any traffic, every account, lastVer and lastTs are those of a run with only the record-high valid pushes |
| IngestSpec.BalanceIsLastAccepted | proxy/allowance.go:145-169 | a key's allowance and version are those of the last accepted snapshot naming it |
| IngestSpec.UnnamedHasNothing | proxy/allowance.go:145-169 | a key no accepted snapshot names has no allowance |
| IngestSpec.AllowanceNeverNegative | proxy/allowance.go:60-76 | whatever is pushed, no key's allowance is ever negative |
| IngestSpec.AccountVerBehind | proxy/credit_ledger.go:199-206 | the ledger's own version guard never drops an accepted entry |
| IngestSpec.EveryPushIsCounted | proxy/allowance.go:145-178 | accepted plus rejected is the number of pushes |
| IngestSpec.TrustedIff | proxy/allowance.go:108-123 | a snapshot is trusted iff dated, not from beyond the skew, and not past both limits |
| IngestSpec.TrustOnlyFalls | proxy/allowance.go:108-123 | trust only falls with time, but for snapshots dated beyond the skew |
| DebitLog.Log.Scan | proxy/debit_log.go:194-249 | the loop recovers the good lines up to the first torn or bad one, their size and their highest Seq |
| DebitLog.Log.Load | proxy/debit_log.go:194-249 | memory and file become what recovery keeps; a read or truncation error is reported |
| DebitLog.Log.constructor | proxy/debit_log.go:73-106 | opening recovers, and the log is open iff a path is configured and no fault comes up, a failing truncation counting only if there is something to truncate |
| DebitLog.Log.Append | proxy/debit_log.go:122-143 | an event is stamped with the next Seq and is durable before it is in memory; a failure leaves any part of its line and memory as it was; a disabled log changes nothing |
| DebitLog.Log.SinceWithHead | proxy/debit_log.go:152-162 | exactly the events past the cursor, and the head of the same snapshot |
| LogFormat.RecoverLines | proxy/debit_log.go:194-249 | intact lines followed by bytes of which nothing is kept recover to exactly the intact lines' events |
| LogFormat.GluedIsLost | proxy/debit_log.go:181-191 | of a line glued onto unfinished ones, and of anything behind it, nothing is kept |
| LogFormat.RecoverIdempotent | proxy/debit_log.go:194-249 | recovering any recovered file changes nothing |
| LogFormat.PastOfNumbered | proxy/debit_log.go:152-162 | on a gap-free log the unread events are the suffix past the cursor |
| LogRuns.AlwaysIntactIffNeverSpoiled | proxy/debit_log.go:122-143 | through any appends, failures, crashes and restarts recovery is gap-free, in order and complete at every moment iff no operation spoils the file |
| LogRuns.CleanFailuresNeverSpoil | proxy/debit_log.go:122-143 | runs whose failed appends leave no bytes never spoil it |
| LogRuns.SyncFailureRepeatsSeq | proxy/debit_log.go:133-138 | a failed sync and a success put one Seq on two durable lines |
| LogRuns.TwoSyncFailuresRepeatSeq | proxy/debit_log.go:133-138 | two failed syncs do too |
| LogRuns.WriteFailureLosesAcked | proxy/debit_log.go:133-138 | a write that fails one byte in makes recovery lose the next acknowledged event |
| LogRuns.RetryIsHarmless | proxy/debit_log.go:133-138 | a success behind unfinished lines is kept if its own line was left whole before them |
| LogRuns.EveryRunRecovers | proxy/debit_log.go:122-143 | on an unspoiled run recovery yields Seq 1..n in order with every acknowledged event in its slot, and memory is that but for one event left whole |
| LogRuns.LogOnlyGrows | proxy/debit_log.go:122-143 | on an unspoiled run the recovered log only grows at its end, so no Seq is given to two events |
| LogRuns.PullerHoldsPrefix | proxy/proxymanager.go:515-538 | on an unspoiled run a puller holds exactly the recoverable log up to its cursor, never past the durable head, and a pull leaves nothing in memory behind |
| LogRuns.NaivePullerKeepsPlaceIff | proxy/proxymanager.go:515-538 | on an unspoiled run a puller whose cursor is the returned head holds the log up to it at every moment iff it never pulls from a disabled log once it has pulled anything |
| LogRuns.DisabledHeadIsNotACursor | proxy/proxymanager.go:521-523 | a run with an outage on which that puller ends with one event twice |
| EmitterSpec.EmitterConserves | proxy/debit_emitter.go:71-117 | on every run, offered is appended, failed, dropped, buffered or in hand; the log order follows the offer order; after Close nothing is left; the log closes later |
| EmitterSpec.OfferIsQueuedIff | proxy/debit_emitter.go:88-102 | on every run an offer to an open emitter is queued last iff the channel has room, and is dropped and counted iff it is full |
| EmitterSpec.DroppedIsFullOffers | proxy/debit_emitter.go:88-102 | the drop counter is the number of offers that met a full channel |
| EmitterSpec.LogHoldsAllIff | proxy/debit_emitter.go:71-117 | once Close has returned the log holds everything offered, in order, iff no offer met a full channel and no append failed |
| EmitterSpec.ClosedAcceptsNothing | proxy/debit_emitter.go:88-102 | after Close nothing is accepted again |
| DebitEmitter.Emitter.Emit | proxy/debit_emitter.go:88-102 | queues at the tail while there is room, dropping nothing; drops and counts when full; nothing after Close |
| DebitEmitter.Emitter.WriterTurn | proxy/debit_emitter.go:71-83 | a turn of the writer keeps the invariant, loses nothing and comes nearer to an empty queue |
| DebitEmitter.Emitter.Close | proxy/debit_emitter.go:107-117 | the first call leaves queue and hand empty with everything accepted appended or failed; a later call returns at once |
| EventSpec.EveryEventDeliveredOnce | event/event.go:189-298 | on every interleaving handled, in process and queued make exactly what was published while subscribed; no queue passes the limit; a consumer that returned had handled all of it |
| EventSpec.StepKeepsInv | event/event.go:189-298 | each step keeps that |
| EventSpec.OfferIsSentIff | event/event.go:231-266 | on every interleaving an event offered now is published, last and at the tail of every subscribed queue, iff each of them has room; otherwise its publisher waits |
| EventSpec.WaitingPublisherHasWorker | event/event.go:231-266 | on every interleaving, while a publisher waits some consumer has events to work through and is not itself waiting |
| EventSpec.BatchEndsInSignal | event/event.go:211-217 | handling the rest of a batch signals once, with its last event, and touches no other consumer |
| EventSpec.WaitingPublisherGetsThrough | event/event.go:189-266 | on every interleaving, once the consumers have worked off what they hold, a publisher that waited has been woken and its event is published |
| EventSpec.NoRoomPublishesNothing | event/event.go:243-254 | with a limit of 0 or less no event is ever published |
| EventSpec.RemovedWaiterReturnsIff | event/event.go:189-298 | a consumer removed while it waits can return at a later moment iff the condition was signalled since |
| EventSpec.RemovedConsumerLingers | event/event.go:285-298 | an idle consumer that is removed does not return by itself |
| EventBus.Consumer.Append | event/event.go:255-262 | the queue gains the event, in place or in a larger copy, leaving the batch alone |
| EventBus.Consumer.Swap | event/event.go:205-209 | the two buffers trade places and never alias |
| EventBus.Consumer.HandleNext | event/event.go:211-214 | the next event of the batch is handled once |
| EventBus.Group.LongestQueue | event/event.go:236-241 | the largest queue length |
| EventBus.Group.Broadcast | event/event.go:231-266 | one attempt: sends to every subscriber and signals iff every queue has room, and otherwise changes no queue and signals nobody |
| EventBus.Group.Add | event/event.go:269-282 | a new consumer with empty buffers behind the others |
| EventBus.Group.Del | event/event.go:285-298 | stops the consumer and removes it if it is listed, leaving all buffers as they are |
| EventBus.Group.SwapOf | event/event.go:205-209 | one consumer's swap moves no other consumer's buffers |
| EventBus.Group.HandleOf | event/event.go:211-217 | nor does its handling, which signals exactly at the end of a batch |
| EventBus.Dispatcher.LowerBound | event/event.go:73-92 | the binary search finds the first key not below the type |
| EventBus.Dispatcher.FindGroup | event/event.go:73-92 | finds the group of the type, iff there is one |
| EventBus.Dispatcher.SubscribeTo | event/event.go:102-152 | a closed dispatcher and a group of another event type are refused; a type without a group gets one, one with a group keeps it, every other lookup is unchanged, the keys stay strictly sorted |
| EventBus.Subscribe | event/event.go:102-152 | the type's group, existing or new, gets one more consumer with empty buffers behind its others |
| EventBus.InsertedLookup | event/event.go:122-147 | inserting a key in place finds it and moves no other lookup |
| PeerAffinity.AffinePeer | proxy/peer_affinity.go:223-236 | the loop finds the rendezvous owner, or nothing without a key or a candidate |
| PeerAffinity.AffineOwns | proxy/peer_affinity.go:219-236 | the owner beats every other candidate by score, then by lower id |
| PeerAffinity.AffineIff | proxy/peer_affinity.go:219-236 | the peer a key is bound to is the one with the highest score, the lexicographically least id among several |
| PeerAffinity.OrderDoesNotMatter | proxy/peer_affinity.go:219-236 | every order of the candidates gives the same owner |
| PeerAffinity.RemovalRemapsOnlyItsKeys | proxy/peer_affinity.go:219-236 | losing a peer remaps exactly the keys it owned |
| PeerAffinity.AdditionMovesOnlyToNewcomer | proxy/peer_affinity.go:219-236 | a new peer takes keys and moves none elsewhere |
| PickSpec.ChosenRankIsBounded | proxy/peerproxy.go:405-492 | the chosen rank is within the bonus of every other, at the minimum unless it is a hit, and a hit is warm, bound and not saturated |
| PickSpec.ReasonIff | proxy/peerproxy.go:405-492 | a hit iff the bound peer is warm, not at the cap while another has room, and not undercut by more than the bonus; each spill iff its own condition holds; a hit takes the bound peer and everything else the first least loaded |
| PickSpec.CountersAreTallies | proxy/peerproxy.go:418-487 | on every run each counter is the number of picks its own condition held for |
| PickSpec.RunsStayBalanced | proxy/peerproxy.go:405-492 | on any run of picks every peer ever picked ranks within bonus + 2 of every other |
| PickSpec.WarmFleetSpread | proxy/peerproxy.go:405-492 | on a warm fleet in-flight counts spread by at most bonus/2 + 1 |
| PickSpec.SpreadIsReached | proxy/peerproxy.go:405-492 | a run that reaches that bound, for every bonus |
| PickSpec.EveryPickIsCounted | proxy/peerproxy.go:418-487 | hits, spills and keyless picks add up to the picks made |
| PeerPicker.PeerProxy.AdmissionSaturated | proxy/peerproxy.go:507-522 | true iff the peer is at the cap and some other candidate is below it |
| PeerPicker.PeerProxy.LeastRanked | proxy/peerproxy.go:439-446 | the first candidate of least rank |
| PeerPicker.PeerProxy.Select | proxy/peerproxy.go:439-491 | the choice among several candidates, with the reason whose condition holds |
| PeerPicker.PeerProxy.Pick | proxy/peerproxy.go:405-492 | reserves exactly the peer that condition selects, counts its reason and no other, and leaves every other peer alone |
| PeerAdmission.StepKeepsInv | proxy/peerproxy.go:252-337 | each dispatch, acquire, refusal, release and finish keeps both counters exact and holders within the cap |
| PeerAdmission.HoldersWithinInFlight | proxy/peer_admission.go:52-83 | on every reachable state holders are within the cap and within in-flight, which is the outstanding requests |
| PeerAdmission.ServedLeavesNothing | proxy/peerproxy.go:252-337 | a request dispatched, let in, served and returned leaves every counter as it was |
| PeerAdmission.RefusedLeavesNothing | proxy/peerproxy.go:252-337 | and so does one that is refused |
| PeerAdmission.SlotIffServingBelowCap | proxy/peer_admission.go:52-83 | on every run a queued request gets a slot iff its peer serves fewer than the cap |
| PeerAdmission.SaturatedMeansRoomElsewhere | proxy/peerproxy.go:494-522 | when the saturation test says yes for a candidate, another candidate has a free slot |
| PeerAdmission.OverDeclaresByNonHolders | proxy/peerproxy.go:494-522 | the test's count exceeds the slots taken by exactly the requests that hold none |
| PeerAdmission.NonHoldersAre | proxy/peerproxy.go:252-337 | in flight is exactly the slots taken, the requests queued and those that have given up or given back their slot and not yet returned |
| PeerAdmission.NeedlesslySaturatedIff | proxy/peerproxy.go:494-522 | a yes comes with a slot free at the peer iff its queued and its finishing requests together outnumber what it has in flight above the cap |
| PeerAdmission.NeedlessOnlyWhileFinishing | proxy/peerproxy.go:494-522 | where nobody queues beside a free slot, iff nobody queues and its finishing requests alone do |
| PeerAdmission.NeedlessYes | proxy/peerproxy.go:494-522 | a run on which that happens |
| PeerAdmission.Admission.TryAcquire | proxy/peer_admission.go:52-71 | unknown peers and disabled admission pass without a slot; else a slot is taken iff the peer is below the cap; a full peer queues iff there is a queue timeout, and refuses otherwise |
| PeerAdmission.Admission.Wake | proxy/peer_admission.go:72-83 | a queued request takes a free slot, is refused when its wait has ended, or waits on |
| PeerAdmission.Admission.Release | proxy/peer_admission.go:63-66 | gives one slot back |
| PeerRanker.Rank | proxy/scheduler.go:139-207 | the candidates in stable order of the picker's key, each with its fit: everyone fits, free memory stands for the loaded state |
| PeerRanker.HeadIsThePick | proxy/peerproxy.go:389-492 | the head is the peer the picker reserves without an affinity key or with affinity off, for one candidate or many |
| PeerRanker.StableOrderIsStable | proxy/scheduler.go:182-207 | ascending keys, ties in input order |
| PeerRanker.StableOrderIsPermutation | proxy/scheduler.go:182-207 | no candidate is left out |
| PeerRanker.StableOrderIsUnique | proxy/scheduler.go:182-207 | any stable order of all candidates is this one |
| PeerRanker.CmpIsTotalOrder | proxy/scheduler.go:73-80 | the rank key's comparison is a total order |
| PeerRanker.CmpIsLexicographic | proxy/scheduler.go:73-80 | the first part that differs decides, the higher one ahead |
| PeerRanker.KeyOrder | proxy/scheduler.go:73-161 | among loaded states the key puts the better state first, then the lesser load |
| PeerRanker.HeadsAgreeIff | proxy/scheduler.go:73-207 | on any fleet the key's first choice is the picker's iff some peer of the best loaded state precedes every peer of a worse one by rank, then position |
| PeerRanker.HeadsDisagree | proxy/scheduler.go:73-207 | a fleet on which they choose differently |
| MacroText.LifoIsExpansion | proxy/config/config.go:412-424 | one pass from last to first is full recursive expansion, for every list and text |
| MacroText.NoDeclaredReferenceLeftIff | proxy/config/config.go:412-424 | it leaves no declared reference in any text iff every macro refers only to earlier ones |
| MacroMeta.MetadataIsExpansionIff | proxy/config/config.go:775-819 | in nested metadata it is typed full expansion for every tree iff no such pair of macros leaks a type |
| MacroMeta.LeakChangesType | proxy/config/config.go:775-790 | a leak: an interpolated text comes out typed |
| MacroMeta.LeafShowsExpansion | proxy/config/config.go:775-790 | types apart, what a leaf shows is always full expansion |
| MacroMeta.OneReferenceTakesValue | proxy/config/config.go:780-784 | a leaf that is exactly one reference takes the macro's value |
| MacroLoading.Merge | proxy/config/config.go:392-410 | the nested loops build the merged list |
| MacroLoading.MergeResolves | proxy/config/config.go:392-410 | the merged list declares each name once, MODEL_ID first and the global names behind it in their order; a model's last definition over the global one |
| MacroLoading.Pass | proxy/config/config.go:412-434 | the loop expands every field, and the metadata with its types when no pair of macros leaks one |
| MacroLoading.Prepare | proxy/config/config.go:412-493 | a model loads iff the port is used only where allowed and no other reference is left; then each field is expanded with the port as the list's first entry and shows the port's number |
| MacroLoading.LoadsIff | proxy/config/config.go:437-493 | whether a model loads depends on the references its expanded fields have left and not on the port: the port in cmd, where cmd has it in cmdStop, proxy and metadata too, PID in cmdStop, and no other |
| MacroLoading.DecimalReads | proxy/config/config.go:446-446 | a port is shown as digits without a leading zero that read as its number |
| MacroLoading.LoadedShowsPort | proxy/config/config.go:437-462 | in a model that loads those digits stand for every reference to the port, as a number for a leaf that is just that, and nothing else changes |
| MacroLoading.LoadModels | proxy/config/config.go:376-501 | the load succeeds iff no macro is forbidden and no model has other references left, and yields each one's outcome, showing the port planned for it; a port is passed over only by a model that uses it |
| MacroLoading.PortsAreDistinct | proxy/config/config.go:437-462 | no two models that use a port share one |
| MacroLoading.PortTextsDiffer | proxy/config/config.go:437-462 | and no two show the same text for theirs |
| Recent.KeptIsLastOfAll | proxy/logMonitor.go:32-65 | any run of writes keeps the newest bytes of everything written |
| LogBuffer.CircularBuffer.Write | proxy/logMonitor.go:32-65 | appends to what was written and keeps the newest bytes, across wraps and oversized writes |
| LogBuffer.CircularBuffer.Put | proxy/logMonitor.go:32-65 | the new contents are the last bytes of the old ones and the input |
| LogBuffer.CircularBuffer.GetHistory | proxy/logMonitor.go:69-91 | exactly the last min(total, capacity) bytes of everything written |
| MetricsHistory.Metrics.Add | proxy/metrics_monitor.go:69-83 | ids number the metrics without a gap and the newest ones are kept |
| StreamScan.Scan | proxy/metrics_monitor.go:203-253 | ends, and stops at the payload of the last line that carries one |
| StreamScan.PayloadIff | proxy/metrics_monitor.go:221-249 | a line carries what follows "data:", trimmed, iff that is not empty, not "[DONE]" and usable |
| StreamScan.StepBack | proxy/metrics_monitor.go:209-219 | the bytes after the last newline decide, or else the lines before it |
| StreamScan.FoundIsLast | proxy/metrics_monitor.go:203-253 | after the line found, no line carries a payload |
| StreamScan.NothingFoundIff | proxy/metrics_monitor.go:203-253 | nothing is found iff no line carries a payload |
| RateLimiting.RateLimiter.Allow | proxy/rate_limiter.go:38-66 | one step on the client's window under its own limit, the override if it has one; no other client's moves |
| RateSpec.AdmittedPerMinute | proxy/rate_limiter.go:48-66 | any half-open minute holds at most twice the limit less one of a client's admitted requests |
| RateSpec.BoundIsReached | proxy/rate_limiter.go:48-66 | a run that reaches that bound, for every limit |
| RateSpec.OwnLimitGoverns | proxy/rate_limiter.go:38-51 | a client's override replaces the default: that bound and its being reached are for the override's value, and a limit that is not positive refuses nothing |
| RateSpec.RefusedOnlyWhenFull | proxy/rate_limiter.go:48-66 | a request is refused only if the minute up to it admitted the limit |
| RateSpec.ClientsAreIndependent | proxy/rate_limiter.go:48-66 | a client's window depends on its own requests alone |

## Left out

- Integer width outside pricing: ledger balances, seqs, versions and ports are unbounded.
- ReserveCoversActual: one direction; the exact condition is HoldCoversBoundsIffFits, against true prices.
- KeyCredit.Confirm: the pairing of each call with an earlier TrueUp is a premise of the runs, since nothing in the repository calls it.
- Admit: a panic inside the ledger after its done latch, which the code accepts as a stranded hold, is not modelled; faults happen before the ledger is reached.
- Wake: the timer and the client's context are a parameter.
- Broadcast: one attempt under the lock; the wait loop is the repeated attempts of EventSpec, where the condition variable is the number of times it was signalled. When the scheduler runs whom is not modelled.
- Subscribe: the goroutine that listens; panics are results, and whether a group holds the subscriber's type is a parameter.
- Interleaving: mutex-protected sections and channel operations are atomic steps; data races inside them are not modelled.
- Pick: the loaded-state cache is a fixed list of biases, and in-flight counts never drop during the runs of PickSpec.
- The affinity key's derivation from headers and bodies, and the hash behind the score.
- Rank: the library's stable sort is the insertion order that StableOrderIsUnique shows to be the only stable one.
- MacroText: text is characters and references, so two literals that fuse into a new reference are outside it, as are the length and character rules of macro names and values.
- LoadModels: models come in id order; YAML, environment substitution, comments in commands, groups, aliases and the proxy URL are not modelled; which of several leftover references is reported depends on map order and is one error here.
- Metrics.Add: a negative maximum, with which the source panics, and the metric's fields but for its tokens.
- Scan: trimming and JSON are parameters; what parseMetrics reads from the payload.
- Freshness: the clock is a parameter.
- Processes and process groups, HTTP handlers, routing, authentication, UI, deployment: plumbing, or one-branch reading.
