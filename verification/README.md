# Verification of the PerpCity SDK's hard core

A Dafny model of the parts of the SDK whose correctness is hardest to see by reading one function:

- **The nonce protocol.** Any number of concurrent `send` calls share one transaction pipeline behind a mutex and an
  unreliable chain: a broadcast may fail yet land, a receipt may time out yet mine. The pipeline and its nonce manager
  are classes; `send` is also a step system whose steps are the holds of the mutex and the answers to the awaits, so
  every interleaving is a run. A ghost ledger carries the last adopted count, the tickets out, and the nonces confirmed;
  a ghost chain carries the nonces it holds and the transactions still in doubt.
- **Batched reads.** The row multicalls, the deduplicated fee-growth `extsload`, the tick-funding reads and the merge by
  input index are shown to be one read per position, errors included. The tick bitmap enumeration is shown exact.
- **Smaller stateful cores.** The latency ring buffer, the newest-first log scan, the trailing stop over whole price
  histories, and the two-lane packing of a balance delta.

## How it is laid out

| file | models |
|---|---|
| `Wrappers`, `Errors` | result shapes and the transaction errors |
| `Nonce`, `NonceInterleaving` | the nonce manager as a class, and with each atomic operation its own step |
| `Pipeline`, `NonceLedger` | the pipeline as a class over its value, and its invariants over every run of operations |
| `SendProtocol`, `SendGuarantees`, `Drain` | concurrent sends: the invariant, what it promises, and the end of a drain |
| `ChainAgreement`, `NonceReuse`, `ChainCounterexamples` | the local sequence against the chain's |
| `SendTickets` | what a send asked for is what its ticket holds and the pipeline tracks |
| `SendScript`, `SendOutcomes`, `Send` | one `send` beside any others: the run its answers spell, what it returns and leaves, and the methods on the pipeline object with the receipt wait |
| `Rows`, `FeeGrowth`, `TickFunding`, `MakerEquity`, `MakerOutcomes` | the batched reads |
| `FeeInside` | what the fee growth inside a band means, over the pool's history |
| `TickMap`, `BalanceDelta` | the tick bitmap and the packed words |
| `Statistics`, `Latency`, `LogScan`, `PositionManager` | the smaller cores |

Every lemma turns Dafny's automatic induction off, so each proof is what its body says.

## What the code does that its comments do not say

Each of these is stated with an input that shows it, and with the exact condition under which the promise holds.

- The re-check before a count is adopted (`src/client/transactions.rs:117-121`) asks whether the flag is up and the
  pipeline drained, not whether the count is still current. What it adopts agrees with the chain exactly when no
  transaction is in doubt and the count does not exceed the one the chain would give at that moment:
  `ChainAgreement.AnAdoptionAgreesExactlyWhenSound`. A count read before another sender's resync, failed transaction and
  drain can break either half. `ChainCounterexamples.AStaleCountHidesAHole`: the flag goes down and a nonce the chain
  waits for is held by nobody. `ChainCounterexamples.AStaleCountForgetsADoubt`: the count is the chain's own at that
  moment, the flag goes down over a doubtful transaction, it lands, and its nonce is handed out again.
- The `pending` count is taken to step past whatever propagated (`src/client/transactions.rs:106-108`). A transaction
  that waits behind a gap is not counted, and its nonce is handed out again, though every adoption is sound:
  `ChainCounterexamples.AQueuedTransactionIsReused`. What follows an adoption hands out no nonce the chain holds exactly
  when nothing at or past the count was held or in doubt: `NonceReuse.AnAdoptionIsReuseFreeExactlyWhenClear`.
- `max_in_flight` is checked at `prepare` against what is in flight, not against what is being prepared
  (`src/hft/pipeline.rs:168`). The exact bound on what is in flight is `max_in_flight - 1` plus the most sends ever
  between `prepare` and `record_submission` together: `NonceLedger.InFlightBound`, reached on the run of
  `NonceLedger.InFlightBoundIsReached`.
- `fail` drops the answer of the rewind, so it can leave a hole with the flag down: the run of
  `NonceLedger.AFailHidesAHole`. It does exactly when something was acquired after the failed nonce:
  `NonceLedger.FailHidesAHoleExactlyWhenTheRewindIsBlocked`. `send` never calls it.
- `NonceManager::resync` alone is a swap and then a clear. A transaction tracked in between, and not let go of, is
  forgotten, and nothing else is: `NonceInterleaving.WhatIsTrackedSinceTheSwapIsLost`, shown by
  `NonceInterleaving.ALateClearIsReachable`. Behind the pipeline's mutex this cannot happen.
- A transport failure met while decoding is permanent by itself and retryable once it is fanned out over a chunk:
  `Rows.ADecodingFailureBecomesRetryable`. Every other failure keeps what it was: `Rows.FanningOutKeepsRetryability`.
- `tick_map` does not check how many words it is answered, twice. Too many bitmap words (`src/client/state.rs:891-906`)
  take the 32-bit products past their width, and a wrapped one can be a tick no spacing reaches:
  `TickMap.AnAnswerTooLongMakesATickUp`. The products of an answer fit exactly when its highest does:
  `TickMap.EveryProductFitsExactlyWhenTheHighestDoes`. Too few tick words (`src/client/state.rs:923-925`) drop the
  highest ticks without an error: `TickMap.AnAnswerTooShortDropsATick`. The map is complete exactly when there were as
  many words as ticks: `TickMap.TheMapIsCompleteExactlyWhenEveryTickWasAnswered`.
- A trailing percentage above 100% (long) or below -100% (short) makes the stop loosen as the anchor improves; nothing
  rejects it: `PositionManager.AStopLoosens`. The stop only tightens exactly otherwise:
  `PositionManager.TheStopOnlyTightens`.

## Model

| member | source | states |
|---|---|---|
| Nonce.NonceManager.Acquire | src/hft/nonce.rs:62-64 | hands out the counter and moves it one past |
| Nonce.NonceManager.Track | src/hft/nonce.rs:75-84 | the nonce is pending under its hash; an earlier entry of the nonce is replaced |
| Nonce.NonceManager.Confirm | src/hft/nonce.rs:87-89 | the entry is removed and returned, the counter stays |
| Nonce.NonceManager.Release | src/hft/nonce.rs:98-107 | the entry is removed; the counter is rewound, and that reported, exactly when the nonce is still the latest acquisition |
| Nonce.NonceManager.Resync | src/hft/nonce.rs:112-120 | the counter is the chain's count and nothing is pending |
| NonceInterleaving.InterleavingsAreExclusive | src/hft/nonce.rs:62-120 | on every interleaving of the atomic operations of any number of threads, with a resync started only while no nonce is owned: no two threads own one nonce, every owned nonce is behind the counter, and whatever is pending is owned by the thread that tracked it |
| NonceInterleaving.TrackingIsLostOnlyByALateClear | src/hft/nonce.rs:112-120 | one step loses a tracked nonce if and only if it is the clearing half of a resync while some thread has one |
| NonceInterleaving.WhatIsTrackedSinceTheSwapIsLost | src/hft/nonce.rs:112-120 | from the swap of a resync to its clear, over any steps in between, a tracked nonce is forgotten if and only if a thread tracked since the swap and did not let go |
| NonceInterleaving.ALateClearIsReachable | src/hft/nonce.rs:112-120 | the run of four steps that loses one |
| Pipeline.TxPipeline.constructor | src/hft/pipeline.rs:146-155 | nothing in flight, flag down, counter at the given nonce |
| Pipeline.TxPipeline.Prepare | src/hft/pipeline.rs:162-204 | refuses at the limit and without fees, in that order, with that error and changing nothing; otherwise the ticket has the counter's nonce, the request, its gas limit and the fees given, the counter moves by one and one more is prepared |
| Pipeline.TxPipeline.RecordSubmission | src/hft/pipeline.rs:208-223 | the ticket is consumed; the nonce is pending and the hash in flight, with the ticket's nonce, request and fees and the time given |
| SendTickets.TicketsHoldWhatWasAsked | src/client/transactions.rs:161-176 | from the step that prepares on, over any run, the ticket is for the request given, at the limit the send had resolved, with the fees of that moment |
| SendTickets.EntriesHoldWhatWasSent | src/client/transactions.rs:221-235 | from the step that records on, over any run, the entry by hash and the entry by nonce are of the ticket that was held and of the time of the record, whatever other sends do, until the send returns |
| SendTickets.WhatIsInFlightIsWhatWasAsked | src/client/transactions.rs:161-235 | the two joined: what is in flight under a send's hash is its request at the limit it resolved, with its fees and its time |
| Pipeline.TxPipeline.Resolve | src/hft/pipeline.rs:226-231 | the hash and its nonce leave tracking, the counter stays; an unknown hash changes nothing |
| Pipeline.TxPipeline.Fail | src/hft/pipeline.rs:234-239 | as resolve, with a rewind whose answer is dropped: the flag never changes |
| Pipeline.TxPipeline.AbandonPrepared | src/hft/pipeline.rs:249-255 | the ticket is consumed and the nonce rewound; a blocked rewind raises the flag |
| Pipeline.TxPipeline.MarkDesyncedPrepared | src/hft/pipeline.rs:265-268 | the ticket is consumed and the flag raised |
| Pipeline.TxPipeline.ResyncNonce | src/hft/pipeline.rs:296-300 | counter at the count, nothing pending, flag down; what is in flight and prepared is not touched |
| NonceLedger.EveryRunIsValid | src/hft/pipeline.rs:162-300 | on every run with tickets consumed once, fresh hashes and gated resync, `fail` included: tickets, nonces in flight and confirmed nonces are disjoint and between the base and the counter, the two maps are inverse, `preparing` counts the tickets, the in-flight bound holds |
| NonceLedger.InverseMapsHaveOneSize | src/hft/pipeline.rs:208-239 | the map by nonce and the map by hash, being inverse, have one size |
| NonceLedger.NoncesInFlightAreDistinct | src/hft/pipeline.rs:208-239 | two transactions in flight share a nonce only if they are the same, and none has a ticket's nonce |
| NonceLedger.NothingIsLost | src/hft/pipeline.rs:162-300 | conservation: flag down, the distance from base to counter is tickets plus in flight plus confirmed |
| NonceLedger.NoRunHidesAHole | src/hft/pipeline.rs:19-35 | on every run without `fail`, flag down, every nonce from the base to the counter is held, in flight or confirmed |
| NonceLedger.FailHidesAHoleExactlyWhenTheRewindIsBlocked | src/hft/pipeline.rs:234-239 | `fail` keeps that promise if and only if the flag was up, the hash unknown, or the nonce the latest acquisition |
| NonceLedger.AFailHidesAHole | src/hft/pipeline.rs:234-239 | a run from the start whose last operation is a `fail` that leaves a hole, flag down |
| NonceLedger.ARepairIsAResync | src/hft/pipeline.rs:285-300 | only a resync puts the flag down |
| NonceLedger.InFlightBound | src/hft/pipeline.rs:168-222 | at most `max_in_flight - 1 + peak` in flight; at most `max_in_flight` when sends prepare one at a time |
| NonceLedger.InFlightBoundIsReached | src/hft/pipeline.rs:168-222 | for every limit and every peak, a run that reaches the bound |
| SendProtocol.TheHashIsFresh | src/client/transactions.rs:221-235 | the hash `send` is about to record is not in flight |
| SendProtocol.SendIsLegal | src/client/transactions.rs:81-269 | `send` keeps the pipeline's terms at every step: its own ticket once, a fresh hash, a count adopted only when nothing holds a nonce, never `fail` |
| SendProtocol.EveryRunIsValid | src/client/transactions.rs:81-317 | on every interleaving of any number of sends, whatever the chain answers: the ledger's invariant, one live owner per ticket, one live awaiter per hash in flight, hashes that fit their nonces, honest errors |
| SendGuarantees.SendsAreBalanced | src/client/transactions.rs:161-269 | `preparing` is the number of sends between `prepare` and `record_submission`; in flight, by hash and by nonce, the number awaiting a receipt |
| SendGuarantees.EveryExitLetsGo | src/client/transactions.rs:161-317 | each single step that returns takes the sender's own ticket, or its own entry by hash and by nonce, out of the pipeline and nothing else |
| SendGuarantees.NothingIsLeftBehind | src/client/transactions.rs:161-317 | once every send has returned, by whatever exit, no ticket and nothing in flight remain and a resync is allowed |
| SendGuarantees.NoncesAreExclusive | src/client/transactions.rs:161-269 | no two sends hold one nonce, by ticket or in flight, and each is from the base to the counter |
| SendGuarantees.NoHoleIsSilent | src/hft/pipeline.rs:19-35 | flag down, every nonce since the last adopted count is held by a live send or was confirmed by a receipt, and they add up |
| SendGuarantees.InFlightIsBounded | src/hft/pipeline.rs:168-222 | the bound, in numbers of sends |
| SendGuarantees.ErrorsAreHonest | src/errors/transaction.rs:174-203 | an error carries a hash if and only if its send reached the broadcast, and it is the hash of what it broadcast |
| SendGuarantees.UnconfirmedRaisesTheFlag | src/client/transactions.rs:201-269 | a send that returns "broadcast, outcome unknown" returned in a step that left the flag up |
| SendGuarantees.OnlyAdoptionClearsTheFlag | src/client/transactions.rs:116-121 | on every run the flag goes down only by an adoption with nothing prepared or in flight |
| Drain.DrainingShortens | src/client/transactions.rs:91-104 | while desynced and not drained, a send at the gate is refused with the in-flight count, every step past the gate shortens what is left, nothing lengthens it |
| Drain.DrainEnds | src/hft/pipeline.rs:285-287 | every run with more working steps than were left passes a state in which a resync is allowed, however senders interleave and however many new ones call |
| Drain.DrainingCanWork | src/client/transactions.rs:161-269 | nothing is stuck: some sender past the gate has a step to take |
| Drain.DrainCanEnd | src/client/transactions.rs:161-269 | from any draining state a run of at most that many steps drains it |
| Drain.TheNextSendRepairs | src/client/transactions.rs:91-121 | a drained sequence is repaired by the next send, to the chain's count |
| ChainAgreement.EveryRunAgrees | src/client/transactions.rs:105-122 | on every run whose adoptions are sound, whatever else the chain answers: what is below the base, in flight or confirmed is held by the chain, and doubt is about nothing else |
| ChainAgreement.ACurrentAdoptionIsSound | src/client/transactions.rs:116-121 | a count no older than the pipeline is sound when adopted, and leaves the counter at the chain's own count |
| ChainAgreement.CurrentRunsAreSound | src/client/transactions.rs:105-122 | with a faithful chain and no pipeline step between a count's read and its adoption, every adoption is sound |
| ChainAgreement.TheChainHoldsTheSequence | src/client/transactions.rs:105-122 | with sound adoptions and the flag down, the chain holds every nonce below the counter except those with a ticket out |
| ChainAgreement.AnAdoptionAgreesExactlyWhenSound | src/client/transactions.rs:117-121 | a count of any age, once adopted, leaves the sequence in agreement with the chain if and only if nothing is in doubt and it does not exceed the present count |
| NonceReuse.NoNonceIsHandedOutTwice | src/hft/pipeline.rs:285-300 | on every run whose adoptions leave nothing held or in doubt at or past the count, no nonce the chain holds is handed out again |
| NonceReuse.ATakenNonceIsReused | src/hft/pipeline.rs:162-204 | a nonce at or past the counter that the chain holds, or may yet hold, is handed out again by enough further sends |
| NonceReuse.ReuseIsExactlyWhatIsAhead | src/client/transactions.rs:105-122 | from any state with the flag down and no nonce held, no run reuses a nonce if and only if nothing at or past the counter is held or in doubt |
| NonceReuse.AnAdoptionIsReuseFreeExactlyWhenClear | src/client/transactions.rs:116-121 | the same of what follows an adoption of any count |
| ChainCounterexamples.AQueuedTransactionIsReused | src/client/transactions.rs:105-122 | a run with a faithful chain and every adoption current and sound that hands out a queued nonce again |
| ChainCounterexamples.AStaleCountHidesAHole | src/client/transactions.rs:116-121 | a run with a faithful chain that adopts a stale count and hides a hole, flag down |
| ChainCounterexamples.AStaleCountForgetsADoubt | src/client/transactions.rs:116-121 | a run with a faithful chain, every adopted count the present one and nothing queued, that adopts over a doubt and hands its nonce out again |
| Send.Send | src/client/transactions.rs:81-317 | the outcome is decided by the answers and the pipeline found, cause by cause and error by error: gate, count, zero limit, simulation, in-flight limit, fees, signature, broadcast, timeout, success, out of gas at 95% of the limit the send went out with (the pinned one, or the estimate), revert; it leaves nothing of its own in the pipeline; and all of it is the end of the step-by-step script the answers spell |
| Send.FromTheGate | src/client/transactions.rs:83-122 | the same outcome from the gate on |
| Send.SimulateAndPrepare | src/client/transactions.rs:124-176 | the outcome of a send past the gate, by its answers, the counter and what is in flight |
| SendScript.SendKeepsValid | src/client/transactions.rs:81-317 | the script is a run, so a send leaves every invariant of the runs standing, whatever other sends hold |
| SendScript.OutOfGasIsNinetyFivePercent | src/client/transactions.rs:276-302 | out of gas means at least 95 in a hundred of a limit that is not zero |
| SendOutcomes.WhatASendReturnsAndLeaves | src/client/transactions.rs:81-317 | in the step system: which outcome a send ends with, for every cause; in flight, pending and preparing as it found them, the counter one past the nonce exactly when the nonce is spent or may be, the flag up exactly when it was turned away or its nonce is in doubt |
| SendOutcomes.AFailedSignatureCostsNothing | src/client/transactions.rs:191-204 | a send that fails to sign leaves the pipeline as it found it, or as the count it adopted repaired it |
| SendOutcomes.ASendSucceedsExactlyWhen | src/client/transactions.rs:81-317 | a receipt is returned if and only if the gate opens or is repaired, the limit is not zero, the simulation passes, a ticket is given, it is signed and broadcast, and the deciding poll has a receipt that succeeded; and it is that receipt |
| Send.Submit | src/client/transactions.rs:196-235 | the outcome of a send with a ticket, by the signature, the broadcast and the polls |
| Send.Await | src/client/transactions.rs:237-317 | the outcome of a submission, by the receipt of the poll that decided: timeout, success, out of gas at 95% of the ticket's limit, or reverted below it |
| Send.WaitForReceipt | src/client/transactions.rs:343-371 | the receipt of the first poll that has one or comes at or after the deadline, even late, or the timeout of this hash; at most sixteen polls |
| Rows.FanningOutKeepsRetryability | src/client/state.rs:186-243 | a shared failure is retryable exactly when the cause was, or was a transport failure met while decoding; sharing twice changes nothing |
| Rows.FanningOutKeepsTheCause | src/client/state.rs:206-243 | a transport cause and the block named are kept, anything else is a storage failure without a cause; which failures are retryable |
| Rows.ADecodingFailureBecomesRetryable | src/client/state.rs:208-214 | the failure whose retryability changes |
| Rows.GroupsAreSlices | src/client/state.rs:466-509 | the rows an id is decoded from are its own `CALLS` rows of the answer |
| Rows.JoinIsPointwise | src/client/maker_equity.rs:363-371 | reading chunk by chunk and joining puts at each position what the chunk holding it read there |
| Rows.BatchIsPointwise | src/client/state.rs:466-542 | for any length, any `CALLS` and any answers: output `i` carries id `i` and the decode of its own rows, or its own chunk's shared failure; a wrong-length answer shifts nothing |
| Rows.TruthfulBatchIsUnchunked | src/client/state.rs:466-542 | when every call is answered by itself, each id gets the decode of the replies to its own calls, whatever the chunk size |
| FeeGrowth.BandTicksAreTheBoundaries | src/client/maker_equity.rs:156-159 | the ticks read are the makers' boundaries, ascending, each once |
| FeeGrowth.NewLayout | src/client/maker_equity.rs:155-186 | the push-by-push layout and slots are the pool's word, one word per distinct tick numbered from 1, one per position |
| FeeGrowth.WordCountIsExact | src/client/maker_equity.rs:155-186 | the word count is 1 + distinct ticks + positions, and the number of slots |
| FeeGrowth.ReadFeeGrowth | src/client/maker_equity.rs:636-657 | an answer of any other length than the slots asked fails the read, a failed one with its own error; otherwise its words are indexed by the layout |
| FeeGrowth.NoTickIsMissing | src/client/maker_equity.rs:207-223 | whatever the node answers, an accepted answer has a word for every index a pending maker uses: the branch for a missing tick is never taken |
| FeeGrowth.EveryMakerGetsItsOwnWords | src/client/maker_equity.rs:142-223 | for any storage, every maker gets exactly the words at its own four slots |
| TickFunding.ReadTickFunding | src/client/maker_equity.rs:670-797 | exactly the ticks asked for are answered, each from its own two slots by the path taken; only "method not found" is remembered |
| TickFunding.EitherPathReadsTheSlots | src/client/maker_equity.rs:659-797 | with truthful answers a tick has its two stored words, on either path, exactly when the path answered for both its slots |
| TickFunding.AFailureIsTheTicksOwn | src/client/maker_equity.rs:659-797 | a tick that is not read fails with a failure of one of its own two slots, or of a proof that left one out |
| TickFunding.LastEntriesStand | src/client/maker_equity.rs:689-693 | where a proof repeats a key, its last entry stands |
| TickFunding.ATruthfulEndpointReadsTheStorage | src/client/maker_equity.rs:659-797 | an endpoint whose proofs are complete gives every tick asked its two stored words, whether it serves proofs, does not, or fails them |
| MakerEquity.ChunkEquities | src/client/maker_equity.rs:480-517 | one kind per id in input order: the two loops scatter each maker's result to its own input index |
| MakerEquity.MakersAreSpread | src/client/maker_equity.rs:490-510 | the makers stand in input order, row `i`'s where the number of makers before it says |
| MakerOutcomes.ChunkEqualsAlone | src/client/maker_equity.rs:480-630 | the batch refines one read per id: each row of a chunk has the outcome it would have alone |
| MakerOutcomes.OutcomesDoNotDependOnTheBatch | src/client/maker_equity.rs:480-630 | a row has one outcome, in whatever chunk and position it is read |
| MakerOutcomes.OutcomesAreExact | src/client/maker_equity.rs:68-80 | not a maker if and only if the row says so; a failed row, a rejected band, and a failed fee-growth or tick read each give their own error, the first of them; otherwise the outcome is that of the settle math on this maker's own row, ticks, delta lanes, tick reads, fee words and checkpoint |
| MakerOutcomes.AFeeGrowthFailureIsShared | src/client/maker_equity.rs:562-576 | a failed fee-growth read fails the chunk's open makers with the one cause and no other id |
| MakerOutcomes.ABadTickReachesOnlyItsMakers | src/client/maker_equity.rs:225-242 | whatever is answered about a tick, the makers that do not use it keep their outcomes |
| MakerOutcomes.OneOutcomePerId | src/client/maker_equity.rs:346-408 | one outcome per id, in order, under its own name, with its own chunk's kind |
| MakerOutcomes.OnlyTheMarketFailsTheCall | src/client/maker_equity.rs:346-355 | the call fails exactly when there are ids and the market-wide read failed, with its error; no ids ask for nothing |
| MakerOutcomes.BatchEqualsAlone | src/client/maker_equity.rs:346-630 | against a truthful node the whole batch is one read per id, for any number of ids |
| MakerOutcomes.TheBatchReadsTheChain | src/client/maker_equity.rs:346-797 | through multicalls, `extsload` and either tick-funding path, each id has the outcome of its own rows and its own stored words on the chain |
| MakerOutcomes.NotAMakerIsNoLiquidity | src/client/maker_equity.rs:522-539 | on the chain, an id is not a maker if and only if its row decodes without liquidity |
| FeeInside.InsideIsWhatAccruedInTheBand | src/math/maker_equity.rs:944-965 | over any moves of the tick and any growth, wrapping included, the growth inside a band moves by exactly what accrued while the tick was in it, so its distance from a checkpoint is what is uncollected |
| TickMap.EnumerationIsExact | src/client/state.rs:886-909 | for every spacing and any number of words whose products fit 32 bits: exactly the aligned ticks of the domain whose word was answered and whose bit is set |
| TickMap.TicksAscend | src/client/state.rs:886-909 | within that bound the ticks are strictly ascending |
| TickMap.EveryProductFitsExactlyWhenTheHighestDoes | src/client/state.rs:897-906 | the exact bound on the number of words answered |
| TickMap.AnAnswerTooLongMakesATickUp | src/client/state.rs:891-906 | two words too many, and a wrapped product is listed as a tick no spacing reaches |
| TickMap.NothingOverflows | src/client/state.rs:886-909 | no intermediate of the tick arithmetic leaves 32 bits |
| TickMap.TickMapIsThePools | src/client/state.rs:874-934 | a tick is in the map if and only if the pool has set its bit; its entry is that tick's stored word, the gross liquidity its lower half and the net its upper half in two's complement |
| TickMap.BitIsTheDigit | src/client/state.rs:900-903 | a bit of a word is the binary digit of its place |
| TickMap.TheMapIsCompleteExactlyWhenEveryTickWasAnswered | src/client/state.rs:914-933 | with any number of tick words answered, a set tick is in the map if and only if its position was answered; all are if and only if there were enough words |
| TickMap.AnAnswerTooShortDropsATick | src/client/state.rs:923-933 | a set tick, no tick word, an empty map |
| BalanceDelta.UnpackUndoesPack | src/convert.rs:286-303 | every pair of signed 128-bit amounts survives the round trip |
| BalanceDelta.PackUndoesUnpack | src/convert.rs:286-303 | every 256-bit word does |
| BalanceDelta.LanesAreIndependent | src/convert.rs:286-303 | changing one amount leaves the other's bits as they were: no sign leaks |
| BalanceDelta.TheLanesMakeTheWord | src/convert.rs:286-293 | a word is the first unpacked amount in its upper half and the bits of the second below |
| Statistics.AscendingIsUnique | src/hft/latency.rs:129-132 | an ascending sequence is determined by what it holds, so the sort of any rotation of the window is the same |
| Statistics.PercentileIsNearestRank | src/hft/latency.rs:160-171 | the percentile is a sample with at least `p` percent at or below it and fewer than `p` percent below |
| Statistics.SumsAndCountsJoin | src/hft/latency.rs:134 | what a sum and a count of samples are |
| Latency.LatencyTracker.Record | src/hft/latency.rs:93-109 | the tracker stands for the history with one more sample |
| Latency.LatencyTracker.RecordElapsed | src/hft/latency.rs:115-119 | the difference of the stamps, or zero, is recorded and returned |
| Latency.LatencyTracker.Stats | src/hft/latency.rs:124-146 | none without samples; else, field by field: how many there ever were, the lifetime extremes, and of the last `min(n, 1024)` the truncated average and the nearest-rank 50th, 95th and 99th percentiles |
| Latency.TheStatsDescribe | src/hft/latency.rs:124-146 | the same of the specification, from the history alone |
| Latency.LatencyTracker.Reset | src/hft/latency.rs:149-151 | the tracker stands for no samples |
| Latency.LiveSlotsAreTheWindow | src/hft/latency.rs:93-109 | the live slots hold, as a multiset, the last `min(n, 1024)` samples |
| Latency.StatsAreOrdered | src/hft/latency.rs:124-146 | `min <= p50 <= p95 <= p99 <= max`, and the average within any bounds of the window |
| Latency.ExtremesAreReached | src/hft/latency.rs:106-108 | the lifetime extremes are samples that were recorded |
| LogScan.ReadWindow | src/history/scan.rs:164-183 | a window is read completely, whatever widths its requests have; it fails if and only if a request that was needed does |
| LogScan.ScanAll | src/history/scan.rs:96-115 | windows carved at any widths give the range's logs in chain order; the scan fails if and only if the read of one of its windows does |
| LogScan.LatestLogs | src/history/beacon.rs:127-142 | the logs kept are the last `limit` of the forward scan, for every chunking; an error is returned if and only if a request that was needed failed, and it is that request's |
| LogScan.NewestIsTheEnd | src/history/beacon.rs:140-142 | the newest logs are the end of the logs, as many as asked for or all |
| LogScan.RangesJoin | src/history/scan.rs:85-115 | a range's logs are those of its parts in order; with `RangesByBlock`, those of its blocks |
| LogScan.LatestBeaconPrints | src/history/beacon.rs:118-143 | zero address, inverted range and zero limit first, in that order; then the prints of the newest logs |
| PositionManager.AnchorIsTheExtreme | src/hft/position_manager.rs:100-120 | over any history the anchor is the highest price of a long, lowest of a short, seed included; nothing else changes |
| PositionManager.PrecedenceOverAHistory | src/hft/position_manager.rs:140-193 | a check after any history reports stop-loss, else take-profit, else the trailing stop set off from the best price seen, each exactly when it is hit, under the position's ids and at the level that was hit |
| PositionManager.ACheckIsTheReport | src/hft/position_manager.rs:140-193 | one check reports the first level hit and its price, or nothing |
| PositionManager.TheStopOnlyTightens | src/hft/position_manager.rs:126-134 | a moving anchor moves the stop with it if and only if the percentage leaves it on the anchor's side of zero |
| PositionManager.AStopLoosens | src/hft/position_manager.rs:126-134 | a long trailing by 200% whose stop falls as its anchor rises |
| PositionManager.AnAnchorDoesNotFire | src/hft/position_manager.rs:100-193 | the trailing stop never fires on the price that sets its anchor |
| PositionManager.ActionsDoNotDependOnTheOrder | src/hft/position_manager.rs:262-276 | two walks of the map in different orders give the same actions |
| PositionManager.ChecksShowOwnPrices | src/hft/position_manager.rs:262-276 | through any run of checks a position sees its own market's prices, all and only those |
| PositionManager.Manager.Track | src/hft/position_manager.rs:214-216 | the position replaces any earlier one of its id |
| PositionManager.Manager.Untrack | src/hft/position_manager.rs:219-221 | the position is gone, and whether there was one is reported |
| PositionManager.Manager.CheckTriggersInto | src/hft/position_manager.rs:262-276 | every position sees its market's price; after what the buffer held come the reports of the positions that have one, each once, at the level that was hit, and no others |

## Left out

- The node, signing, ABI decoding and the keccak of storage slots: answers and decoders are parameters, slots are named by what they are hashed from, and pinned-read errors arrive already classified.
- Settle math other than the fee growth inside a band, swap math and the market-wide read (`src/math/`, `src/client/maker_equity.rs:419-475`): the settle math is an uninterpreted function of one maker's inputs.
- `sync_nonce` in the middle of sends (`src/client/mod.rs:259-269`), which replaces the whole pipeline, and users calling `fail_tx`, `resolve_tx` or the nonce manager directly during a send; `fail` is kept in the pipeline's invariants.
- Cancellation of a future inside `send`: every await is assumed to return.
- `GasLimitCache`, the simulation cache and the classification of simulation failures: a simulation is answered with a limit or one of its failures.
- `stuck_txs`, `prepare_bump`, `peek`, `pending_snapshot`: reads that would only add easy members.
- Wrap-around of 64-bit nonces and counters: they are naturals. `preparing` is an integer, shown never to be negative.
- Floating point: the position manager's prices are exact reals, and out-of-gas is compared over reals.
- `get_mut` of a tracked position: it could change a position's id under its key.
- The width search and failure classification of `eth_getLogs` (`src/history/scan.rs`): a request is answered with the number of blocks accepted in the end, at least one, or a failure.
- The index mask `& 1023` of the latency buffer is written `% 1024`.
- Concurrency within one batch (`buffered`, `join!`): answers arrive in the order the combinators promise.
- PositionManager.Manager.CheckTriggersInto: the caller's buffer is passed in and returned rather than changed in place.
- Latency.LatencyTracker.Reset: the buffer is cleared in place rather than replaced.
- `StateCache`, `FeeCache`, decode tables, `contracts.rs`, `cctp.rs`, logging and serialization.
