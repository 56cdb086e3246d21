# Verified model of tau's money, messages and publishing

tau is a hosted coding agent: it charges credits for model calls, streams what a
job does to browsers, publishes the apps it builds, and has a terminal client.
This project models the parts of it that keep state or transform data in ways that
are easy to get wrong, and proves what they are for.

The state changes are modelled twice: as functions on values, about which the
theorems are proved, and as classes whose methods change fields step by step as the
program does and are proved against those functions.

- **Credits.** `Pricing` prices tokens and spends buckets. `CreditLedger` says what
  each ledger operation does to the six tables, and `CreditEffects` states it again in
  full, operation by operation, with the cause of each refusal. `CreditLaws` proves
  the table invariants over every history, `CreditAudit` draws conservation,
  reconciliation and cross-table agreement from them, `CreditReplay` exactly-once
  effects and the additivity of metering, `CreditFirsts` when an operation is accepted
  and exactly when its first attempt is enough. `CreditLocks` splits the transactions
  into statements and proves every interleaving serialisable and every reply true, and
  `CreditProgress` that a transaction nobody blocks goes through. `CreditService` is
  the writers themselves.
- **The bus.** `EventStream` is one job's replayable stream and a client that
  reconnects; `Rendezvous` is its question-and-answer meeting point; `Bus` is the
  shared object.
- **App backends.** `AppBackend` models one project's role, log group and function
  with the calls each operation makes, any of which may be the last; `AppHosting`
  makes those calls.
- **The edge registry.** `EdgeRegistry` states what the routing store should hold
  and proves that reconciliation converges; `EdgeSync` is the batched client, the
  push and the reconciler.
- **The terminal agent.** `AgentLoop` and `AgentSession` are the tool-call loop,
  `ChatAdapter` the protocol translation and the assembly of streamed fragments,
  `Scrollback` the transcript on the screen.
- **Smaller parts.** `Gate` is the concurrency gate, `SitePath` the path from a
  request to an object key, `Csv` the export format.

Things from outside appear as parameters: clocks as the times passed in, a failing
service or a dying process as the number of calls it lives to make, model and tool
behaviour, text encodings, hashes and decoders as functions. The record hash of the
edge registry is taken to be injective. Timeouts are steps that may happen at any
moment. A unique violation rolls its transaction back.

Four findings are stated as theorems. Keeping only the first attempt at each keyed
operation is not the same as exactly once, because a refused attempt may be accepted
later: it is the same if and only if no repeat meets its guard before its operation
is done (`FirstAttemptsSufficeIff`, with an input that fails in
`FirstAttemptsAreNotEnough`). What always holds is that attempts after an accepted
one change nothing (`RepeatsChangeNothing`). The reconciler reports drift on an
account whose history is in order but has a priced shadow row, or whose signup row
has not been backfilled, and only then (`ReconcileReports`, with the two inputs in
`ShadowMeteringDrifts` and `InterruptedSignupDrifts`). A table with no column, or
with a row that has no cells, does not survive the CSV round trip, and every other
one does (`CsvRoundTrip`). A first publish that dies between creating its function and
limiting it leaves the function without its concurrency limit for good, since the
publishes that follow take the other branch (`FunctionIsLimitedIff`).

## Model

| member | source | states |
|---|---|---|
| `Pricing.RatesAreWhole` | server/src/lib/pricing.ts:28-64 | every listed rate, and the rate for a model that is not listed, is a whole number of micro-credits a token |
| `Pricing.MillionTokensCostTheRate` | server/src/lib/pricing.ts:28-78 | a million tokens cost a listed model's own rate and any other model's the default one; counts of zero or less cost nothing |
| `Pricing.CostIsExact` | server/src/lib/pricing.ts:67-78 | the division in `costMicro` never rounds: the price times a million is the tokens times the rates, and it is never negative |
| `Pricing.CostIsAdditive` | server/src/lib/pricing.ts:67-78 | two turns cost together what they cost apart |
| `Pricing.SpendBuckets` | server/src/lib/pricing.ts:142-155 | the bucket loop conserves credits for all integers and, with no bucket overdrawn, leaves what the closed form `Spend` says |
| `Pricing.SpendMeaning` | server/src/lib/pricing.ts:136-155 | a spend takes the least of the amount and the balance, overdraws nothing, and touches a bucket only when every cheaper one is empty |
| `Pricing.SpendTwice` | server/src/lib/pricing.ts:142-155 | spending twice leaves what spending the sum once leaves, and debits the same |
| `Pricing.SplittingABillChangesNothing` | server/src/lib/pricing.ts:142-155 | two lists of costs with the same sum leave the same buckets |
| `Pricing.SpendingOrderIsIrrelevant` | server/src/lib/pricing.ts:142-155 | spending the same costs in another order leaves the same buckets |
| `Pricing.DebitIsMinimum` | server/src/lib/credits.ts:313-332 | what a debit takes is the least of the cost and the opening balance |
| `CreditLaws.PostKeepsLaw` | server/src/lib/credits.ts:313-371 | a row posted with the account state it explains keeps every invariant of the tables: balances, audit column, holds, usage, promos, keys |
| `CreditLaws.EnsureKeepsLaw` | server/src/lib/credits.ts:132-168 | opening an account, its backfilled signup row included, keeps every invariant and leaves the account open |
| `CreditLaws.MeterKeepsLaw` | server/src/lib/credits.ts:279-381 | metering a turn, enforced or in shadow mode, replayed or not, keeps every invariant |
| `CreditLaws.FlatKeepsLaw` | server/src/lib/credits.ts:411-475 | a flat charge keeps every invariant, whatever the amount |
| `CreditLaws.GatewayKeepsLaw` | server/src/lib/credits.ts:520-598 | gateway metering keeps every invariant, the pairing of usage rows with their debits included |
| `CreditLaws.RedeemKeepsLaw` | server/src/lib/credits.ts:662-731 | redeeming a code keeps every invariant, the counter and its maximum included |
| `CreditLaws.BonusKeepsLaw` | server/src/lib/credits.ts:739-811 | a bonus grant keeps every invariant |
| `CreditLaws.PlanKeepsLaw` | server/src/lib/credits.ts:819-873 | a plan cycle, its expiry row and its grant row together, keeps every invariant |
| `CreditLaws.ReserveKeepsLaw` | server/src/lib/credits.ts:190-242 | a reserve keeps every invariant, the cap on active holds included |
| `CreditLaws.SettlingLowersTheCount` | server/src/lib/credits.ts:624-641 | settling, which takes no account lock, never raises a user's number of active holds |
| `CreditLaws.EveryHistoryKeepsLaw` | server/src/lib/credits.ts:132-873 | every invariant holds after every sequence of ledger operations from an unused database |
| `CreditAudit.CreditsAreConserved` | server/src/lib/credits.ts:279-381 | after any history the buckets are not negative and hold the booked rows, plus what shadow rows priced, plus a signup grant not yet written |
| `CreditAudit.KeysStayUnique` | server/prisma/schema.prisma:872-892 | no two ledger rows of any history carry the same idempotency key |
| `CreditAudit.ReconcileReports` | server/src/lib/credits.ts:891-945 | the reconciler reports no drift if and only if the signup row is there and no shadow row has a price; otherwise the drift is exactly those two; a missing account is reported as not in order |
| `CreditAudit.InterruptedSignupDrifts` | server/src/lib/credits.ts:132-168 | from an unused database, a signup stopped between its two statements leaves an account that does not reconcile, off by the signup grant |
| `CreditAudit.ShadowMeteringDrifts` | server/src/lib/credits.ts:313-371 | from an unused database, one priced shadow turn on an account whose signup row is there leaves a drift of its price |
| `CreditAudit.BalanceAfterIsRunningSum` | server/src/lib/credits.ts:345-371 | a row's `balanceAfter` is the running sum of its account if and only if no priced shadow row and no missing signup row precede it |
| `CreditAudit.EnforcedHistoryReconciles` | server/src/lib/credits.ts:891-945 | with enforcement on and signups uninterrupted, every row carries its running sum and no account has drift |
| `CreditAudit.HoldsAgreeWithLedger` | server/src/lib/credits.ts:334-359 | each hold has consumed exactly the sum of the enforced debits that name it |
| `CreditAudit.UsageAgreesWithLedger` | server/src/lib/credits.ts:538-582 | each gateway usage row has exactly one ledger row, which takes its cost or, short of that, all there was |
| `CreditAudit.PromosAgreeWithLedger` | server/src/lib/credits.ts:662-731 | a promo's counter is its number of redeemers, never over its maximum, and each redemption has its one ledger row |
| `CreditAudit.RepliesAreTrue` | server/src/lib/credits.ts:190-811 | after any history every reply is so: the balance it names is the balance there is, what it says was taken or granted is what moved, a flat price is taken whole or not at all, a replay takes nothing |
| `CreditAudit.ConcurrencyIsCapped` | server/src/lib/credits.ts:190-242 | when every reserve passes the same positive cap, nobody ever has more active holds than that |
| `CreditEffects.OpeningGrantsOnce` | server/src/lib/credits.ts:132-168 | opening an account gives it its 300 credits and its grant row, whichever of the two is missing, and changes nothing else |
| `CreditEffects.PlanCycleResets` | server/src/lib/credits.ts:819-873 | a new plan cycle in full: the unused plan credits expire with a row of their own if there are any, 5000 credits replace them under the cycle's key, free and bonus credits stay, and nothing else in the database changes |
| `CreditEffects.BonusIsGranted` | server/src/lib/credits.ts:739-811 | a bonus not granted before goes whole to the bonus bucket, with its row and reply |
| `CreditEffects.CodeIsRedeemed` | server/src/lib/credits.ts:662-731 | an accepted redemption puts the code's credits in the bonus bucket, counts one use and records the redeemer, and changes nothing else |
| `CreditEffects.TurnIsCharged` | server/src/lib/credits.ts:279-381 | a turn metered for the first time takes its debit from the buckets and adds just that to the hold's consumption; its row names job, hold and turn, and the reply says whether the hold is used up |
| `CreditEffects.TurnIsShadowed` | server/src/lib/credits.ts:313-371 | in shadow mode a turn leaves a row at its full price and changes nothing else |
| `CreditEffects.RequestIsCharged` | server/src/lib/credits.ts:520-598 | a gateway request charged for the first time leaves its debit, its row and its usage row at the full cost |
| `CreditEffects.PriceIsTaken` | server/src/lib/credits.ts:411-475 | a flat price that can be paid is taken whole; in shadow mode only its row is written |
| `CreditEffects.HoldIsMade` | server/src/lib/credits.ts:190-242 | an accepted reserve for a new job makes a hold of just the ceiling asked for with nothing consumed |
| `CreditEffects.HoldIsSettled` | server/src/lib/credits.ts:624-641 | settling ends the hold, keeps its amount, user and consumption, and touches nothing else |
| `CreditEffects.RefusalsHaveCauses` | server/src/lib/credits.ts:190-873 | an operation is refused with an error if and only if that error's cause is in the tables: too many holds before too little balance, an unearned, unknown, inactive, expired, used-up or already redeemed code told apart; and a refusal changes nothing |
| `CreditReplay.TakesEffectOnce` | server/src/lib/credits.ts:290-304 | a keyed operation changes the database if and only if it is accepted and was not carried out before |
| `CreditReplay.DoneIsNoOp` | server/src/lib/credits.ts:426-427 | an operation already carried out changes nothing, even with another payload |
| `CreditReplay.RepeatsChangeNothing` | server/src/lib/credits.ts:290-304 | any history with arbitrary retries leaves every table as it is when each operation stops being sent once accepted |
| `CreditReplay.RunIsChargedItsTotal` | server/src/lib/credits.ts:313-359 | a run metered turn by turn, with no grant in between, takes the least of the balance and its total cost, free before plan before bonus |
| `CreditReplay.TotalIsPriceOfTotals` | server/src/lib/pricing.ts:67-78 | the costs of a run's turns add up to the cost of its total tokens |
| `CreditReplay.SplittingARunChangesNothing` | server/src/lib/credits.ts:279-381 | however a run's tokens are split into turns it leaves the same buckets and the same hold |
| `CreditFirsts.GuardIsExact` | server/src/lib/credits.ts:190-873 | each operation is accepted if and only if its guard holds of the tables before it: cap, balance and hold for a reserve, an open account for metering and plans, the promo row for a redemption, the amount for a bonus |
| `CreditFirsts.FlatIsAcceptedIff` | server/src/lib/credits.ts:411-475 | a flat charge is accepted if and only if the amount is positive and it was made before, is in shadow mode, or can be paid |
| `CreditFirsts.FirstsAreEnough` | server/src/lib/credits.ts:290-304 | from any database, keeping only first attempts changes nothing when no repeat meets its guard before its operation is done |
| `CreditFirsts.FirstAttemptsSufficeIff` | server/src/lib/credits.ts:190-873 | from an unused database, where no two users share a name or a job, keeping only first attempts leaves the same database if and only if no repeat meets its guard before its operation is done |
| `CreditFirsts.LateSuccessIsLost` | server/src/lib/credits.ts:411-475 | from any database and with any sharing of names: when some repeat is the first to carry its operation out and nobody else's row stands for it, first attempts alone leave another database |
| `CreditFirsts.FirstAttemptsAreNotEnough` | server/src/lib/credits.ts:411-475 | such a history exists: a charge that is refused, a grant that makes it payable, the same charge again |
| `CreditFirsts.SharedNamesCanHideIt` | server/src/lib/credits.ts:739-811 | where two users send one name the equivalence fails: a late success may change nothing that is not made up for later |
| `CreditLocks.CommitIsSerial` | server/src/lib/credits.ts:112-117 | what a transaction writes at commit, and the reply it gives, are what the whole operation would do on the database of that moment |
| `CreditLocks.OthersStillKnow` | server/src/lib/credits.ts:112-117 | a commit under the account lock leaves true whatever another transaction has read of its user |
| `CreditLocks.OthersStillRemember` | server/src/lib/credits.ts:674-676 | and, with the promo row's lock held for a redemption, whatever it has read of a hold or of a promo row |
| `CreditLocks.Serialisable` | server/src/lib/credits.ts:112-117 | any interleaving of the statements of concurrent transactions, rollbacks anywhere, ends in the database of the committed operations made whole in commit order |
| `CreditLocks.ConcurrentExecutionsKeepTheLaw` | server/src/lib/credits.ts:112-873 | every table invariant holds of every concurrent execution, redemptions included |
| `CreditLocks.ConcurrentReservesAreCapped` | server/src/lib/credits.ts:190-242 | no interleaving of reserves that pass one cap, with settles anywhere, gives a user more active holds |
| `CreditLocks.RacingRedemptionsAreCounted` | server/src/lib/credits.ts:674-711 | however many redemptions of a code race, its counter is the number of its redeemers, never over its maximum |
| `CreditLocks.RacingGrantsCountOnce` | server/src/lib/credits.ts:825-863 | plan grants that race past the duplicate check made before the lock leave one row a key, and the database is the one without the repeats; the one that counts expires what was left of the old cycle and grants the new one, and changes nothing else |
| `CreditLocks.ConcurrentRepliesAreTrue` | server/src/lib/credits.ts:190-811 | in every concurrent execution, what each caller is told of balance, charge, grant or reservation is so at the moment its transaction commits |
| `CreditProgress.UndisturbedGoesThrough` | server/src/lib/credits.ts:112-117 | in any state of the system, executing the start of a transaction whose rows are free and its next eight statements ends with its locks given back: with database and reply of the whole operation if its guard holds, and without a trace otherwise |
| `CreditService.CreditStore.EnsureBillingAccount` | server/src/lib/credits.ts:132-168 | the statements open the account and its missing signup row, and no more |
| `CreditService.CreditStore.ReserveInTx` | server/src/lib/credits.ts:190-242 | reserving commits the hold the specification says, or puts every table back and names the error |
| `CreditService.CreditStore.Meter` | server/src/lib/credits.ts:279-381 | metering leaves account, ledger and hold as specified, with the reply for a replay, a shadow debit, or a debit |
| `CreditService.CreditStore.ChargeFlat` | server/src/lib/credits.ts:411-475 | a flat charge commits whole or not at all |
| `CreditService.CreditStore.MeterGateway` | server/src/lib/credits.ts:520-598 | gateway metering writes usage row, account and ledger row together or not at all |
| `CreditService.CreditStore.Settle` | server/src/lib/credits.ts:624-641 | an active hold becomes settled; anything else is left alone |
| `CreditService.CreditStore.Redeem` | server/src/lib/credits.ts:662-731 | each refusal leaves every table as it was; success counts, records and grants |
| `CreditService.CreditStore.GrantBonusCredits` | server/src/lib/credits.ts:739-811 | a bonus is granted once a name, to the bonus bucket |
| `CreditService.CreditStore.GrantPlanCycle` | server/src/lib/credits.ts:819-873 | the old plan balance expires and the new one is granted, under one key |
| `CreditService.CreditStore.ReconcileAccount` | server/src/lib/credits.ts:891-945 | the loop over the ledger computes the reconciliation of the account |
| `CreditService.CreditStore.SweepStuckHolds` | server/src/lib/credits.ts:983-1017 | the sweep settles and counts exactly the active holds of jobs that have ended whose settle does not throw, and lists exactly the others |
| `EventStream.CounterStaysAhead` | server/src/lib/bus.ts:159-183 | whatever index is emitted, the counter is the least number above it and every index handed out, and counts as activity |
| `EventStream.ReplayAgrees` | server/src/lib/bus.ts:226-249 | what a subscriber is sent from a watermark is a resync or exactly the frames not applied yet, never a gap |
| `EventStream.SubscriberIsSent` | server/src/lib/bus.ts:226-249 | any subscriber from any index: a resync if and only if nothing is buffered and it has seen a frame, or the ring starts beyond its next frame or ends before its last; otherwise exactly what is newer |
| `EventStream.ReplayIsExact` | server/src/lib/bus.ts:226-249 | in terms of the frames published and the client's, when it is told to resync and when it is sent exactly what it lacks |
| `EventStream.ReconnectingIsExact` | server/src/lib/bus.ts:226-249 | after any run a client of this lifetime that has read no resync is told to resync if and only if the ring has dropped its next frame, or starts with it and an index before it was burnt; otherwise it is sent exactly the frames it lacks |
| `EventStream.ResyncOnlyWhenDropped` | server/src/lib/bus.ts:226-249 | with no index burnt, if and only if it is more than 10000 frames behind |
| `EventStream.StrangersResync` | server/src/lib/bus.ts:232-240 | a client ahead of all that is buffered is told to resync, and one that has seen nothing is sent nothing of an empty buffer |
| `EventStream.ReconnectingCatchesUp` | web/src/features/project/useJobStream.ts:71-131 | with no index burnt, a client that connects and reads all it is sent has then applied every frame there is, unless it was more than 10000 behind: then, and only then, it is told to resync |
| `EventStream.FreshPageCatchesUp` | web/src/features/project/useJobStream.ts:71-131 | a page loaded anew sees every frame of its lifetime as long as the ring still has them all, whatever went before |
| `EventStream.OpenConnectionsAreServed` | server/src/lib/bus.ts:226-249 | exactly the connections opened and not closed since are sent anything |
| `EventStream.StepKeepsInv` | server/src/lib/bus.ts:159-249 | publish, claim, sweep, connect, disconnect and delivery keep the buffer, the wires and the client in agreement |
| `EventStream.DeliveryIsExact` | web/src/features/project/useJobStream.ts:71-131 | a client that reconnects at any moments and reads no resync has applied exactly the frames up to its watermark, in order, each once, and all of them once a connection has nothing unread |
| `EventStream.RingHoldsTheTail` | server/src/lib/bus.ts:165-183 | the ring is always the last RING_MAX frames of its lifetime, all below the counter |
| `EventStream.IndicesAreDense` | server/src/worker/lib/publish.ts:11-16 | with every index allocated and emitted in one step, frame i has index i |
| `EventStream.IndicesAreCounted` | server/src/lib/bus.ts:159-183 | over any run the counter is the number of frames published plus the number of indices burnt in this lifetime, so none is handed out twice, and the activity clock is the time of the last of them |
| `EventStream.ResidencyIsMarked` | server/src/lib/bus.ts:267-289 | over any run a job is resident from its last marking to the next clearing, and at no other time |
| `EventStream.ResidentBuffersSurvive` | server/src/lib/bus.ts:427-443 | while a job is resident no sweep ends its buffer, its frames or its counter |
| `EventStream.SweepForgetsExactly` | server/src/lib/bus.ts:427-443 | a sweep forgets the buffer if and only if the job is not resident and has been quiet for over an hour |
| `EventStream.RecentFramesSurvive` | server/src/lib/bus.ts:427-443 | a published frame's buffer is not forgotten within the hour, whatever is swept, resident or not |
| `EventStream.OneTerminalClaim` | server/src/lib/bus.ts:194-199 | while a job is resident exactly one terminal claim succeeds if any is made, and none once one has |
| `EventStream.SweptBufferLosesFrames` | server/src/lib/bus.ts:427-443 | after a sweep of a job that is not resident, a client at any watermark drops the first frame published next |
| `Rendezvous.StepKeepsInv` | server/src/lib/bus.ts:342-443 | register, clear, push, wait, timeout, cancel and sweep keep every invariant of the rendezvous |
| `Rendezvous.RendezvousIsSafe` | server/src/lib/bus.ts:364-425 | waiters and buffered answers are never both there, and every buffered answer was pushed under the question now active |
| `Rendezvous.OnlyOpenQuestionsAreAnswered` | server/src/lib/bus.ts:364-393 | over any run, the answers taken in are exactly those to the question open when they came |
| `Rendezvous.NoWaitIsLost` | server/src/lib/bus.ts:396-425 | until the job is swept every wait ever begun has ended or stands in the queue |
| `Rendezvous.AnswerEndsLongestWait` | server/src/lib/bus.ts:381-393 | an answer to the open question ends the longest wait with it and leaves the others in order |
| `Rendezvous.TimeoutEndsTheWait` | server/src/lib/bus.ts:405-422 | a queued wait that times out ends with no answer, the others wait on in order, and nothing else changes |
| `Rendezvous.AnswersAreServedInOrder` | server/src/lib/bus.ts:381-425 | answers reach waits first in, first out on both sides, each at most one, and each answer taken in was served, is buffered, or was thrown away, exactly one of the three |
| `Rendezvous.WaitsSettleOnce` | server/src/lib/bus.ts:405-424 | a settled wait never settles again |
| `Rendezvous.CancelIsFinal` | server/src/lib/bus.ts:342-350 | a cancel ends every wait with no answer, and until the sweep no wait queues and no answer is taken in |
| `Rendezvous.EarlyAnswerIsKept` | server/src/lib/bus.ts:389-404 | an answer that arrives before the wait is the one the wait gets |
| `Bus.InProcessBus.NextIndex` | server/src/lib/bus.ts:159-163 | hands out the counter and advances it, for this job only |
| `Bus.InProcessBus.Emit` | server/src/lib/bus.ts:165-183 | pushes, trims the ring, keeps the counter ahead and reaches every subscriber of this job and no other |
| `Bus.InProcessBus.Publish` | server/src/worker/lib/publish.ts:11-16 | allocating and emitting together is the publish of the stream model |
| `Bus.InProcessBus.ClaimTerminal` | server/src/lib/bus.ts:194-199 | succeeds if and only if no terminal frame was claimed, and marks it claimed |
| `Bus.InProcessBus.Subscribe` | server/src/lib/bus.ts:226-249 | the new subscriber is sent exactly the replay the stream model says |
| `Bus.InProcessBus.RegisterQuestion` | server/src/lib/bus.ts:364-367 | this job's room becomes the one the rendezvous says, every other room stays |
| `Bus.InProcessBus.ClearQuestion` | server/src/lib/bus.ts:373-378 | clears the question only if it is the active one, with its buffered answers |
| `Bus.InProcessBus.PushUserResponse` | server/src/lib/bus.ts:381-393 | an answer is refused, handed to the longest waiter, or buffered, and settles at most that one wait |
| `Bus.InProcessBus.WaitForUserResponse` | server/src/lib/bus.ts:396-425 | a wait is refused, answered at once, or queued |
| `Bus.InProcessBus.Timeout` | server/src/lib/bus.ts:407-422 | a timer settles its wait with no answer and takes it off the queue, unless it has settled |
| `Bus.InProcessBus.RequestCancel` | server/src/lib/bus.ts:342-350 | the loop over a copy of the waiters, each taking itself off the list, settles all of them and empties the room |
| `Bus.InProcessBus.Sweep` | server/src/lib/bus.ts:427-443 | forgets exactly the jobs that are idle and not resident |
| `AppBackend.SurvivesMore` | server/src/lib/lambdaApps.ts:465-513 | one more call, made where the order of the calls allows it, leaves no unsafe point to crash at |
| `AppBackend.RunSurvives` | server/src/lib/lambdaApps.ts:465-644 | a publish, refresh, prune or removal is safe to cut off after any of its calls |
| `AppBackend.EveryHistoryIsSafe` | server/src/lib/lambdaApps.ts:417-644 | after any operations, each cut off anywhere: a function has its role, its log group and the right to write to it, whatever exists has a live row, every alias is on a version that exists, no URL outlives its alias |
| `AppBackend.RoleIsNeverMissing` | server/src/lib/lambdaApps.ts:501-503 | the branch for a function whose role has gone is never taken, and a function is always found by its row |
| `AppBackend.SettableMore` | server/src/lib/lambdaApps.ts:115-151 | which environments can be set, variable by variable: no name Lambda keeps for itself, and 4096 bytes for all |
| `AppBackend.PublishCompletes` | server/src/lib/lambdaApps.ts:465-513 | after any history a publish under a fresh id is never refused and ends with its alias on a new version of exactly the given code and environment, with a URL |
| `AppBackend.OtherDeploymentsAreUntouched` | server/src/lib/lambdaApps.ts:465-609 | at every crash point of an operation the deployments it is not about, kept ones included, keep version, code, environment and URL |
| `AppBackend.RefreshCompletes` | server/src/lib/lambdaApps.ts:524-541 | a refresh replaces the environment and keeps code and URL, and until its last call the old version serves |
| `AppBackend.PruneCompletes` | server/src/lib/lambdaApps.ts:569-609 | a prune leaves an alias if and only if it is no deployment's or one of a deployment to keep, with its URL, and a version if and only if such an alias is on it |
| `AppBackend.PruneSparesKept` | server/src/lib/lambdaApps.ts:569-609 | for any listings and at every crash point of a prune each deployment to keep is as it was |
| `AppBackend.RemovalLeavesNothing` | server/src/lib/lambdaApps.ts:616-644 | a removal that completes leaves nothing, whatever went before, a removal cut off included |
| `AppBackend.LimitIsSetOnce` | server/src/lib/lambdaApps.ts:483-541 | once there is a function no publish, refresh or prune, cut off anywhere, changes whether it is limited |
| `AppBackend.FunctionIsLimitedIff` | server/src/lib/lambdaApps.ts:483-510 | a function is limited, until it is removed, if and only if the publish that made it got past the call that sets the limit, whatever publishes, refreshes and prunes follow |
| `AppHosting.Hosting.PublishBackend` | server/src/lib/lambdaApps.ts:465-513 | a bad environment or missing configuration changes nothing; otherwise the calls made are a prefix of the publish's, all of them if it succeeds, and the reply names what was made |
| `AppHosting.Hosting.RefreshBackendEnv` | server/src/lib/lambdaApps.ts:524-541 | a bad environment, an unknown deployment, a missing role or a missing version changes nothing and says so, in that order; otherwise the calls made are a prefix of the refresh's |
| `AppHosting.Hosting.PruneBackend` | server/src/lib/lambdaApps.ts:569-609 | the two loops make the prune's calls for the listings they got, and count them |
| `AppHosting.Hosting.RemoveBackend` | server/src/lib/lambdaApps.ts:616-644 | the calls made are a prefix of the removal's, all of them if it succeeds |
| `EdgeRegistry.RecordsAgree` | server/src/lib/edgeRegistry.ts:108-122 | a project is served at all of its addresses or at none, always under host keys |
| `EdgeRegistry.AddressesShareOneRecord` | server/src/lib/edgeRegistry.ts:98-122 | all addresses of a project share one record, right in every field, but for the redirect, which only the default address has, to a primary domain, and never while suspended |
| `EdgeRegistry.AddressesAreAll` | server/src/lib/edgeRegistry.ts:108-122 | a project with a name is listed at its default address and at each of its domains, in order, and one without nowhere |
| `EdgeRegistry.RecordsAreRight` | server/src/lib/edgeRegistry.ts:84-122 | from a row and the ready deployments: there is a record if and only if the project is suspended or its live deployment has files, and every field of it, the API address and the redirect to the first primary domain included |
| `EdgeRegistry.FilterDropsNoRecord` | server/src/lib/edgeRegistry.ts:368-371 | a project with a record is selected by the reconciler's query |
| `EdgeRegistry.QueryIsTight` | server/src/lib/edgeRegistry.ts:368-371 | and a project selected is, empty names apart, one that has a record once the right deployment is ready |
| `EdgeRegistry.QueryIsEnough` | server/src/lib/edgeRegistry.ts:368-377 | what the selected projects want is what all projects want |
| `EdgeRegistry.WantedIsExact` | server/src/lib/edgeRegistry.ts:372-377 | with every hostname owned once, the wanted map holds a record at a key if and only if some project has it there |
| `EdgeRegistry.LastOwnerWins` | server/src/lib/edgeRegistry.ts:372-377 | where two projects claim a hostname the later one listed has it, unless it serves nothing there |
| `EdgeRegistry.Converges` | server/src/lib/edgeRegistry.ts:379-387 | comparing hashes writes a key if and only if its entry differs or has no hash, and leaves the host keys equal to what is wanted |
| `EdgeRegistry.EveryHistoryIsConsistent` | server/src/lib/edgeRegistry.ts:201-388 | pushes, removals and reconciliations stopped anywhere leave value and hash in step at every host key, and touch no other key |
| `EdgeRegistry.PushesTakeEffect` | server/src/lib/edgeRegistry.ts:279-293 | a push that stops after so many writes and removals has made just those, in order |
| `EdgeRegistry.ChangesTakeEffect` | server/src/lib/edgeRegistry.ts:213-217 | a change of the database leaves the store as it is, and giving up hostnames takes just those out of the host keys |
| `EdgeRegistry.ReconciliationConverges` | server/src/lib/edgeRegistry.ts:364-388 | after any such history an undisturbed reconciliation, as one more event of it, makes the host keys the records of all projects, writes and removes only what differs, and a second one has nothing to do |
| `EdgeRegistry.SyncIsComplete` | server/src/lib/edgeRegistry.ts:279-293 | a push writes exactly the records of its projects and removes exactly the addresses that serve nothing |
| `EdgeRegistry.PushMakesCurrent` | server/src/lib/edgeRegistry.ts:279-293 | a push of any projects that goes through leaves each of their addresses as the database has it, where no hostname has two owners, and every other key alone |
| `EdgeSync.CloudflareKv.PutMany` | server/src/lib/edgeRegistry.ts:201-211 | batches of a thousand, in order: a failure leaves a whole number of batches written |
| `EdgeSync.CloudflareKv.RemoveMany` | server/src/lib/edgeRegistry.ts:213-217 | the same for removals |
| `EdgeSync.ListRecords` | server/src/lib/edgeRegistry.ts:108-122 | the loop lists the default address and then each custom domain |
| `EdgeSync.SyncRows` | server/src/lib/edgeRegistry.ts:279-293 | puts before removals, each as far as the store lets it |
| `EdgeSync.Differences` | server/src/lib/edgeRegistry.ts:380-382 | selects each wanted key whose listed hash differs, once |
| `EdgeSync.ReconcileEdge` | server/src/lib/edgeRegistry.ts:364-388 | reports a tally only if it got to the end, with the exact numbers; otherwise some of the repair is done and nothing else |
| `AgentLoop.LoopKeepsPaired` | cli/src/agent/loop.ts:66-124 | for every behaviour of model and tools: at most maxSteps requests, the conversation only grows, and each message with tool uses is followed by one answering exactly those ids in order |
| `AgentLoop.LoopFollowsTheModel` | cli/src/agent/loop.ts:66-124 | the loop request by request: the reply is taken down block for block but for blank text, every tool it asks for is run and answered, the model is asked again with the results, and the loop ends if and only if a request fails, asks for no tool, or was the last allowed |
| `AgentLoop.UsesOfKept` | cli/src/agent/loop.ts:95-114 | dropping blank text keeps every tool call of the reply, in order |
| `AgentLoop.ToolsAreRun` | cli/src/agent/loop.ts:114-161 | the results are those of the tools asked for, in order: what the tool returned, its refusal, or what went wrong, each with its id and marked as an error or not |
| `AgentLoop.ToolsAnswer` | cli/src/agent/loop.ts:114-161 | an unknown tool, a refusal, a crash and a success each give one result with the id asked |
| `AgentLoop.LoopAsksNothing` | cli/src/agent/loop.ts:66-124 | the loop puts no words into the user's mouth and takes none away |
| `AgentLoop.LoopReportsInOrder` | cli/src/agent/loop.ts:71-123 | steps never nest, text streams only inside a step, and every step that begins ends |
| `AgentLoop.IterationReports` | cli/src/agent/loop.ts:71-123 | what is reported of one request: the step with all its deltas, then the failure or the tools |
| `AgentLoop.EachToolIsReported` | cli/src/agent/loop.ts:126-161 | what is reported of a tool: that nobody knows it, or that it began and how it ended |
| `AgentLoop.LoopReportsResults` | cli/src/agent/loop.ts:126-161 | what the reporter is told of tool outcomes is what the conversation records, in the same order |
| `AgentLoop.LoopReturnsLastSaid` | cli/src/agent/loop.ts:69-123 | the text returned is that of the last message in which the model said anything |
| `AgentSession.Session.RunTool` | cli/src/agent/loop.ts:126-161 | each way a tool can end gives the result and the reports the specification says |
| `AgentSession.Session.RunAgentLoop` | cli/src/agent/loop.ts:66-124 | the loop leaves the conversation, the reports, the text and the number of requests of the specification |
| `AgentSession.Session.Send` | cli/src/agent/session.ts:258-279 | a turn appends the user's message and then does what the loop does, with at most fifty steps |
| `ChatAdapter.ToOpenAIMessages` | cli/src/providers/openai-compatible.ts:119-171 | the loops over messages and results build the translation |
| `ChatAdapter.TranslationKeepsPairs` | cli/src/providers/openai-compatible.ts:119-171 | a paired conversation is translated so that tool entries follow their calls at once, same ids, same order, and stand nowhere else |
| `ChatAdapter.WirePairedMeans` | cli/src/providers/openai-compatible.ts:119-171 | being so paired means that the entries right behind an assistant entry answer its calls one by one, all of them, and that every tool entry stands in such a place |
| `ChatAdapter.SystemComesFirst` | cli/src/providers/openai-compatible.ts:119-125 | the system text comes first and only there |
| `ChatAdapter.EveryRequestIsPaired` | cli/src/agent/loop.ts:76-85 | every request the loop sends is so paired, whatever the model and the tools did before it |
| `ChatAdapter.TranslationKeepsActs` | cli/src/providers/openai-compatible.ts:119-171 | the translation says, calls and answers what the conversation does, message by message, nothing lost and nothing added |
| `ChatAdapter.Chat` | cli/src/providers/openai-compatible.ts:72-113 | the loops over chunks and fragments assemble the content and show the deltas of the specification |
| `ChatAdapter.OnlyProjectionsMatter` | cli/src/providers/openai-compatible.ts:72-111 | two streams with the same text and, index by index, the same fragments come to the same content |
| `ChatAdapter.OneBlockPerIndex` | cli/src/providers/openai-compatible.ts:100-111 | one tool block for each index that has a fragment, in increasing order, spelled by that index's fragments alone |
| `ChatAdapter.CallIsSpelled` | cli/src/providers/openai-compatible.ts:90-111 | the call of an index has the last id and name its fragments gave and all their arguments in order, and nothing of another index |
| `ChatAdapter.SplittingChangesNothing` | cli/src/providers/openai-compatible.ts:90-96 | wherever a stream is cut its content is the same: an arguments fragment in two pieces, in one chunk or in two with the text divided between them |
| `ChatAdapter.DeltasAreTheText` | cli/src/providers/openai-compatible.ts:86-89 | the deltas shown are the non-empty contents of the chunks in order, and together the text kept |
| `Scrollback.ReduceAgrees` | cli/src/tui/state.ts:46-147 | an action in order keeps the streaming entry last and equal to its deltas, and only appends to what is committed |
| `Scrollback.ScreenAgrees` | cli/src/tui/state.ts:46-147 | after any trace in order the streaming entry, if there is one, is the last and only one and says what the step has streamed |
| `Scrollback.CommittedOnlyGrows` | cli/src/tui/app.tsx:166-172 | what is committed after part of a trace is a prefix of what is committed later |
| `Scrollback.ScreenTellsTheStory` | cli/src/tui/state.ts:46-147 | the screen says what happened and nothing else, in order: every message, notice, tool result and error and every letter streamed |
| `Scrollback.StatusFollowsTools` | cli/src/tui/state.ts:46-147 | the status names the tool running now, and otherwise says `Thinking` |
| `Scrollback.GapsFollowTools` | cli/src/tui/state.ts:58-73 | after any actions an assistant entry has a gap above it if and only if the entry before it is a tool's |
| `Scrollback.IndexIsNeverStale` | cli/src/tui/state.ts:46-147 | after any actions at all the streaming index is that of an entry being streamed, so the branches for a stale index are never taken, and there is none once a step or turn has ended |
| `Scrollback.EverySessionIsInOrder` | cli/src/tui/app.tsx:132-145 | whatever user, model and tools do, the trace is in order and the app is idle between inputs |
| `Scrollback.SessionsKeepWhatWasSaid` | cli/src/tui/app.tsx:132-145 | nothing the user says is lost or made up: the trace has each input once, in order, and the conversation each question word for word |
| `Scrollback.ScrollbackIsAppendOnly` | cli/src/tui/app.tsx:166-172 | so at every point of every session all but the streaming entry is printed, what is printed has only grown, the screen tells the story so far, and between turns nothing is left streaming |
| `Gate.ConcurrencyGate.Enter` | server/src/lib/kimi.ts:18-20 | a task takes a permit if there is one, and else joins the end of the queue |
| `Gate.ConcurrencyGate.Exit` | server/src/lib/kimi.ts:23-27 | a task's permit goes straight to the head of the queue, or is given back |
| `Gate.EveryRunKeepsInv` | server/src/lib/kimi.ts:13-29 | every interleaving of arrivals, hand-overs, resumptions and endings keeps permits, queue order and the place of every task |
| `Gate.AtMostTheLimit` | server/src/lib/kimi.ts:13-29 | running and handed-over tasks are together `active`, never over the limit; nobody waits with a permit free; queued tasks go on in order of arrival |
| `Gate.NobodyIsForgotten` | server/src/lib/kimi.ts:13-29 | with a positive limit a waiting task always has one ahead that will let it in, and when all have ended the gate is as new |
| `Gate.EveryStepGetsOn` | server/src/lib/kimi.ts:13-29 | each ending of a running task, and each permit taken up, brings the gate one step nearer to everybody having finished |
| `Gate.EverybodyFinishes` | server/src/lib/kimi.ts:13-29 | from any point of any run with a positive limit everybody who has come can be let in and finish, in just as many steps as are left, after which the gate is as new |
| `Gate.ZeroLimitBlocks` | server/src/lib/env.ts:73-73 | with no permits, and only then, a lone task waits with nobody to wake it |
| `SitePath.WalkResolves` | edge/src/sites.ts:26-37 | the stack machine computes the dot-segment resolver of section 5.2.4 of RFC 3986 with empty segments collapsed |
| `SitePath.NormalizesAsPromised` | edge/src/sites.ts:26-45 | the front page if nothing is left, a directory's index page if the request ends with a slash or its last name has no dot, and otherwise the resolved path itself |
| `SitePath.NormalizeSitePath` | edge/src/sites.ts:26-45 | the loop computes the normalised path |
| `SitePath.SplitOfJoin` | edge/src/sites.ts:30-39 | splitting joined segments gives the segments back |
| `SitePath.NormalizedIsClean` | edge/src/sites.ts:26-45 | for any decoder at all, a non-empty path with no empty, `.` or `..` segment, whose last segment has a dot |
| `SitePath.SecondPassChangesNothing` | edge/src/serve.ts:219-221 | on a result with no percent sign the second normalisation changes nothing |
| `SitePath.KeyStaysInside` | edge/src/sites.ts:15-17 | under an allowed prefix every key is the prefix, a slash and ordinary names, so it stays inside the deployment |
| `SitePath.AllowedPrefixes` | edge/src/serve.ts:139-145 | a prefix is allowed if and only if it is non-empty ordinary names under the directory of published sites |
| `SitePath.ExtensionMeans` | edge/src/sites.ts:134-138 | a request has an extension if and only if the last name of its path, before any query, has a dot |
| `SitePath.FindObject` | edge/src/serve.ts:215-228 | the object served is the request's own or, for a path with no extension, the front page, always inside an allowed prefix |
| `Csv.ValueIsRead` | server/src/lib/databaseExport.ts:16-27 | a strict reader gets back any value, whatever it holds, and stops where it ends |
| `Csv.QuotedOnlyWhenNeeded` | server/src/lib/databaseExport.ts:16-27 | a value is written as it is if and only if it has no quote, comma or line break |
| `Csv.CsvRoundTrip` | server/src/lib/databaseExport.ts:29-31 | a strict reader of section 2 of RFC 4180 recovers a table if and only if it has a column and no row is without cells |
| `Csv.EveryTableIsRead` | server/src/lib/databaseExport.ts:29-31 | and of any table at all it recovers that table, but for an empty cell in each row that had none |
| `Csv.CsvIsInjective` | server/src/lib/databaseExport.ts:29-31 | two such tables are written alike only if they are the same |

## Left out

- Ledger keys are modelled by their parts: a caller's own key is taken not to spell a key the ledger generates.
- The `reserved` column, which these operations never move, and the token-usage table with its per-job reconciliation.
- Trimming and upper-casing promo codes; creation times; the distinction between kinds of missing rows in error texts.
- In the step machine each job belongs to one user, and a reserve that finds its hold active is recorded as the account opening it amounts to, with the reply it gives.
- In the step machine promo codes are neither made nor edited, and a redemption's statements on the promo row (read, redemption row, counter) are one step under its lock.
- The rebuild a browser does after a resync: the delivery theorem covers a client until it reads one.
- Indices allocated and emitted later out of order: for those only `CounterStaysAhead` is stated.
- The bus's dispatch queue, run registry details, runner counters and listener clean-up.
- AWS itself: every publish of code is taken to make a new version number, calls either happen or do not, and retries and waits while a role becomes usable are left out. Log retention is not tracked.
- A publish racing a removal of the same project; other projects, whose names never meet.
- Cloudflare's own behaviour beyond keyed puts and removals; paging of listings.
- Loops over maps visit keys in some order, not in insertion order; nothing stated depends on it.
- The stop reason of a completion, the request's tool list and token limit, and the parsing of tool arguments, which is a parameter.
- `tool.summarize` is taken to return; a tool is found by its name alone.
- The `clear` action is in the reducer but not in the traces the append-only theorems speak of.
- Reply bodies, headers, the badge, redirects and rate limits of the edge; slugs are not checked in `FindObject`.
- CSV values other than strings: nulls, dates, bytes and objects are turned into text before the part that is modelled.
- Encryption, key rotation, quotas, domain validation, wording of labels, rendering and the web pages.
