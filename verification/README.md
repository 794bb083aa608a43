# Custody service: ledger, queue, assets and treasury

This project models a custody service that pays crypto transfers out of provider vaults and proves
what its handlers keep over whole runs. Every handler that changes rows is a method of a class that
assigns the same fields in the same order, and is proved against a value-level step function. The
properties are lemmas about those steps.

* `Basics.dfy`: optional values, `SELECT`-like row queries, sums, ASCII case folding.
* `Ledger.dfy`: vaults, assets, wallets with `balance` and `pending`, transfers; the three guarded
  UPDATEs (reserve, release, deduct); what a wallet-selection query may answer; the ledger invariant.
* `Steps.dfy`: one event per database transaction. `Decide` says which row an event rewrites and
  which UPDATE it issues, `Apply` commits it, `Run` folds it over a list of events.
* `Outcomes.dfy`: what every event leaves in the tables, in literal words, field by field and without the
  functions that decide it.
* `ExactLedger.dfy`, `Drift.dfy`, `Conservation.dfy`, `Lifecycle.dfy`: theorems over all runs.
* `Queue.dfy`: the passes over transfers that wait for balance.
* `CustodyService.dfy`: the endpoints, broker consumers, webhook handlers and queue loops, in place.
* `Resolver.dfy`: the provider-asset lookups and the cache in front of them.
* `AssetSync.dfy`: the two-phase asset upsert and the session it runs in.
* `SyncOutcomes.dfy`: which contract and which asset of the provider every row of a synced table comes from.
* `Lock.dfy`: the Redis lock as a timed protocol of many processes.
* `Pager.dfy`: the loop over the provider's pages.
* `Treasury.dfy`: the two treasury reports.
* `PrimaryVaults.dfy`: which vault is the primary of its type.

Conventions. Amounts are integers in units of 10^-18 (the columns are `Numeric(36, 18)`). Row numbers
are ids and, for transfers, also the `created_at` order. Ties of `ORDER BY` and everything the
provider, Redis or the network answers are inputs of an event. An `Admissible` event has a positive
requested amount (the code does not check it) and a selection answer that is truthful for the state.
`stranded` is history kept for the specification: the transfers that became final while their
reservation stayed on the wallet. Case folding is that of the ASCII letters.

What the proofs bring out about the code:

* A transfer created with an automatic source already holds its reservation, so the approve endpoint
  never changes a row: it answers `pending` while the stored status stays `pending_approval`
  (`Lifecycle.ApproveChangesNothing`).
* Reject releases only from `pending`, cancel likewise, a refused broadcast and a completion whose
  UPDATE matches no row release nothing, and a creation answered with the raw word for a final status is
  final from birth. These five, and no others, leave a reservation behind (`Lifecycle.StrandsExactly`),
  although the cancel endpoint's comment promises that a reservation is freed
  (`Lifecycle.CancelLeavesReservation` and `Lifecycle.BirthLeavesReservation` are instances).
* The signing endpoint, the `transfer.rejected` consumer and the provider webhooks do not look at the
  status. A step breaks the ledger exactly when such a message revives a settled transfer or moves its
  money a second time, or when a provider answers a creation with the raw status `pending_balance`
  (`ExactLedger.StepExact`; `ExactLedger.RepeatedWebhookBreaksLedger` is an instance). Over any run the
  pending amount is then off by exactly the amounts of those messages (`Drift.RunDrift`).
* Without overwrites a step lets balances and completed payouts drift apart exactly when a message takes
  a bound transfer out of `completed`, a COMPLETED webhook deducts for an already completed transfer or
  fails to deduct for another, or a provider answers a creation with the raw status `completed`
  (`Conservation.StepConservesIff`; `Conservation.RepeatedWebhookSkews` is an instance).
* The approved consumer also broadcasts transfers that still wait for balance. They complete without any
  wallet paying (`Conservation.UnpaidIff`; `Conservation.WaitingTransferCompletesUnpaid` is an instance).
* The three resolver calls share one cache. It is safe for queries whose fields have no colon, whose
  contract is not spelled `NATIVE`, whose network is neither empty nor spelled `MAINNET`, and whose native
  symbol is the one symbol of its blockchain and network, as long as native calls are grounded in the
  provider's list (`Resolver.CacheIsTransparent`). In general it is safe exactly when no other query with
  the same key finds another asset (`Resolver.TransparentIff`). `Resolver.ColonsCollide` and
  `Resolver.UnlistedCoinIsFound` are instances of the failures.
* The COMPLETED webhook of a transfer between own vaults moves the balances and leaves the transfer open
  with its reservation. It can be completed afterwards exactly if the source covers the amount once more,
  and then the source pays twice (`Conservation.InternalCompletionIff`;
  `Conservation.ArrivedTransferIsStuck` is an instance).
* Once no wallet can serve any of the oldest waiting transfers that a pass examines, every later pass
  examines the same ones and never reaches the others (`Queue.HeadBlocksRest`; `Queue.SmallWaitsForBig`
  is an instance).
* The pass after a balance sync commits after each success only and loses the retries counted after the
  last one (`Queue.KeptPassIsPrefix`, `Queue.KeptLosesOnlyRetries`).
* Sessions do not flush on their own (app/storage/database.py:104-107), so the token phase of the asset
  sync does not see the rows it has just added. Two token contracts with one new target give two rows.
  If the database accepts them the table is no longer sound and every later run over the same contracts
  fails; if they stand for one provider asset it refuses them and the whole phase is lost
  (`AssetSync.SyncKeepsTableIff`, `AssetSync.RerunIff`; `AssetSync.SharedAddressBreaksTable` and
  `AssetSync.RepeatedContractIsRefused` are instances).
* A process that entered on a Redis error, or overstayed its lease, deletes a key it does not hold
  (`Lock.StrangerRemovesIff`; `Lock.ErrorLetsTwoIn` and `Lock.OverstayingLetsTwoIn` are instances).
* The vault import counts vaults that a later rollback removes (`PrimaryVaults.ReportIsHonestIff`;
  `PrimaryVaults.RollbackLosesImport` is an instance).

## Model

| member | source | states |
|---|---|---|
| ExactLedger.StepExact | app/dao/transfer.py:174-256 | from an exact ledger, one admissible step leads to an exact ledger if and only if it is not one of the harmful ones |
| ExactLedger.RunExact | app/dao/transfer.py:174-256 | over every harmless run, balance overwrites included, each wallet's `pending_amount` is the sum of its live bound transfers plus the stranded ones |
| ExactLedger.ReleaseNeverFails | app/dao/transfer.py:201-225 | on such runs the release of any transfer that still holds a reservation passes its guard |
| ExactLedger.TouchStepExact | app/api/transfer.py:715-883 | a rewrite of an existing transfer keeps the ledger exact unless it undoes a settlement |
| ExactLedger.AppendStepExact | app/api/transfer.py:76-388 | a creation keeps the ledger exact unless a bound transfer is born waiting |
| ExactLedger.TreasuryKeepsPending | app/dao/webhook/update.py:63-97 | balance overwrites, internal moves and administration never touch `pending_amount` or a transfer |
| ExactLedger.TouchGap | app/dao/transfer.py:201-256 | a rewrite moves a wallet's deviation from its ledger by the UPDATE's effect less the change of the row's own shares |
| ExactLedger.DecideTouchShape | app/api/transfer.py:603-883 | every rewrite keeps request id, amount and key, binds only from waiting to reserved, and moves only the row's own amount on its own wallet |
| ExactLedger.RepeatedWebhookBreaksLedger | app/dao/webhook/service.py:101-154 | a second COMPLETED webhook for one transfer deducts another transfer's reservation |
| Drift.StepDrift | app/dao/transfer.py:174-256 | from any state whose stranded transfers are final and bound, one admissible step moves each wallet's deviation from its ledger by exactly the amount a harmful message or an orphaned reservation is worth |
| Drift.RunDrift | app/dao/webhook/service.py:101-228 | over every admissible run, harmful steps included, the deviation afterwards is the one before plus those amounts |
| Drift.RepeatedWebhookDrift | app/dao/webhook/service.py:207-228 | the repeated COMPLETED webhook costs the wallet exactly the amount in reservations |
| Ledger.SelectionExact | app/dao/transfer.py:41-171 | selection succeeds iff a matching wallet of an active HOT vault has enough available, reports no wallet iff none matches, and is determined up to ties in (primary, available) |
| Ledger.OwingIsCovered | app/dao/transfer.py:201-225 | under the invariant a transfer that holds a reservation is covered by its wallet's pending amount |
| Conservation.PayIsSafe | app/dao/transfer.py:174-256 | no single reserve, release or complete raises a deficit or breaks solvency, and complete leaves the available balance unchanged |
| Conservation.AnyCallsAreSafe | app/dao/transfer.py:174-256 | any sequence of these calls, stray or repeated, keeps 0 <= pending <= balance and never widens a deficit |
| Conservation.RunSolvent | app/dao/transfer.py:51-81 | every run without balance overwrites keeps every wallet solvent, whatever messages are repeated |
| Conservation.CompletionSucceeds | app/dao/transfer.py:228-256 | in a clean state the completion UPDATE of a transfer that holds a reservation passes both guards |
| Conservation.StepConservesIff | app/dao/webhook/service.py:182-228 | a step without overwrite keeps every wallet's balance plus its completed payouts if and only if it is not one of the skewing ones |
| Conservation.RunConserves | app/dao/transfer.py:228-256 | from any state, over every run without overwrites and skewing steps, each wallet's balance falls by exactly the amounts of the transfers bound to it that completed |
| Conservation.RepeatedWebhookSkews | app/dao/webhook/service.py:207-228 | a second COMPLETED webhook lowers the balance without any new payout |
| Conservation.UnpaidIff | app/api/transfer.py:791-836 | a step completes a transfer that no wallet pays for exactly when it completes an open unbound one, a COMPLETED webhook meets an unbound one or a failing guard, or a creation is answered `completed` |
| Conservation.TimelyUnpaidIff | app/dao/webhook/service.py:207-228 | on timely runs from a clean state exactly the unbound transfers complete unpaid |
| Conservation.WaitingTransferCompletesUnpaid | app/broker/consumer.py:257-261 | a transfer that waits for balance is broadcast and completed while every wallet stays as it was |
| Conservation.InternalCompletionIff | app/dao/webhook/service.py:293-344 | after the webhook of an own-vault transfer its completion goes through exactly when the source's balance covers both the moved amount and the transfer's, and then it is charged both; otherwise completing changes nothing |
| Conservation.ArrivedTransferIsStuck | app/api/transfer.py:791-836 | six of ten units arrive at the other vault and the transfer can no longer be completed |
| Conservation.TimelyRunIsUnskewed | app/api/transfer.py:791-836 | from a clean state, runs whose messages never address a settled transfer contain no skewing step |
| Conservation.EveryCompletionSucceeds | app/api/transfer.py:791-836 | in such a run every completion request for an open transfer ends in `completed` |
| Lifecycle.FinalIsAbsorbing | app/models/transfer.py:180-195 | over every run of status-guarded steps a final transfer keeps its whole row |
| Lifecycle.GuardsStopAtFinal | app/api/transfer.py:715-733 | no status-guarded handler does anything to a final transfer |
| Lifecycle.GuardedIsHarmless | app/broker/consumer.py:257-265 | guarded steps satisfy the hypothesis of the exact ledger |
| Lifecycle.SettledAtMostOnce | app/dao/transfer.py:201-256 | no two steps of a harmless run release or deduct for the same transfer |
| Lifecycle.RunWellFormed | app/api/transfer.py:306-332 | in every reachable state waiting means unbound, and pending or awaiting approval means bound |
| Lifecycle.BindingIsWriteOnce | app/dao/transfer.py:384-405 | over every run a bound transfer keeps its wallet, and every transfer its amount |
| Lifecycle.ReservesAtMostOnce | app/dao/transfer.py:478-509 | no two steps of a run reserve balance for the same transfer |
| Lifecycle.ApproveChangesNothing | app/api/transfer.py:603-708 | in every reachable state the approve endpoint leaves the whole state as it is |
| Lifecycle.StrandsExactly | app/broker/consumer.py:237-311 | for every transfer after the step, the new one included: it is left behind by the step exactly if it was live and bound and the step is one of the four, or it was born final |
| Lifecycle.BirthLeavesReservation | app/api/transfer.py:170-171 | a creation answered `failed` is final at once and keeps its reservation on the wallet |
| Lifecycle.CancelLeavesReservation | app/api/transfer.py:843-883 | cancelling a transfer that awaits approval leaves its reservation on the wallet |
| Queue.ILikeIgnoresCase | app/dao/webhook/service.py:384-395 | ILIKE on a blockchain name without wildcards is equality ignoring case |
| Queue.ILikePercent | app/dao/webhook/service.py:384-395 | in an ILIKE pattern a percent sign stands for any characters |
| Queue.ILikeOneCharacter | app/dao/webhook/service.py:384-395 | an underscore stands for one character, and a backslash takes the next one as it is |
| Queue.WaitingExactly | app/dao/transfer.py:424-434 | a pass without an asset picks up every transfer in `pending_balance`, in creation order |
| Queue.WaitingForExactly | app/dao/webhook/update.py:170-182 | for every asset, which transfers a pass picks up; all its wallets can serve if the blockchain has no escape, and no others if it has no wildcard either |
| Queue.PassTreatsAll | app/api/transfer.py:902-966 | after a pass every examined transfer is pending on an active HOT wallet of its key, or waits with one more retry and exceeds what every such wallet has left |
| Queue.PassShrinks | app/dao/transfer.py:41-171 | a pass never raises an available balance and leaves all other transfers alone |
| Queue.PassAddsUp | app/dao/transfer.py:478-509 | total pending grows by exactly the sum of the processed amounts |
| Queue.SecondPassReservesNothing | app/api/transfer.py:912-930 | a second pass over any leftovers reserves nothing and changes no wallet |
| Queue.IdlePassIff | app/dao/transfer.py:478-509 | a pass reserves nothing exactly when no wallet can serve any of its transfers as it begins |
| Queue.HeadBlocksRest | app/api/transfer.py:912-930 | then every later pass with that limit examines the same transfers, reserves nothing and leaves all others as they are |
| Queue.SmallWaitsForBig | app/api/transfer.py:912-930 | with a limit of one a small transfer that the wallet could serve waits for ever behind a large one |
| Queue.KeptPassIsPrefix | app/services/balance_sync.py:192-234 | what a pass with a commit after each success keeps is the pass over the examinations up to the last success |
| Queue.KeptLosesOnlyRetries | app/services/balance_sync.py:197-234 | a pass that commits after each success only loses retry counts, and nothing else, of the whole pass |
| Queue.FifoDominance | app/services/balance_sync.py:179-195 | if a pass skips an earlier transfer and reserves a later one for the same asset, the earlier amount is strictly larger |
| Queue.GroupRows | app/dao/transfer.py:435-446 | the keys are exactly the keys present, and each group is the front of that key's queue, in order |
| Queue.GroupWaiting | app/dao/transfer.py:424-446 | the same for all waiting transfers, oldest first |
| Queue.GroupedKeys | app/dao/transfer.py:424-446 | a key is in the grouped view iff a transfer waits for it |
| Queue.GroupedExact | app/dao/transfer.py:424-446 | its group is ascending, within the limit, of transfers that wait for it, and leaves out only ones younger than all of a full group |
| Steps.FindTransferExact | app/dao/webhook/service.py:157-179 | a webhook means the one transfer with its transaction, or, only if no transfer has it, the one with its non-empty external id; several candidates are as good as none |
| Outcomes.WebhookFailure | app/dao/webhook/service.py:182-204 | REJECTED, BLOCKED, FAILED, CANCELLED and TIMEOUT fail the transfer; a bound one gives its reservation back if pending covers it, and the balance stays |
| Outcomes.WebhookCompletion | app/dao/webhook/service.py:207-228 | COMPLETED completes the transfer; a bound one takes the amount from both counters if both cover it |
| Outcomes.WebhookProgress | app/dao/webhook/service.py:131-139 | every other word moves no wallet: BROADCASTING, the three words for signing, and words that keep the status |
| Outcomes.WebhookUnknown | app/dao/webhook/service.py:118-125 | a transaction that names no single transfer changes nothing |
| Outcomes.StatusWords | app/enums/status.py:13-24 | a raw status is one of the nine of the service exactly when it spells it |
| Outcomes.FinalStatuses | app/models/transfer.py:180-195 | which statuses are final and which can be cancelled |
| Outcomes.StatementsSpelled | app/dao/transfer.py:174-256 | guard and effect of the three UPDATEs on balance and pending amount |
| Outcomes.MatchesSpelled | app/dao/transfer.py:51-81 | a wallet serves an asset iff its vault is an active HOT one, the blockchains agree ignoring case and the contracts are equal |
| Outcomes.SelectionSpelled | app/dao/transfer.py:51-158 | the chosen wallet covers the amount, and no sufficient wallet of a primary vault, or with more available among equals, is passed over; otherwise the largest available amount is reported |
| Outcomes.CreateAutoSpelled | app/api/transfer.py:306-332 | the fields of a row created with an automatic source, with and without a wallet |
| Outcomes.CreateFromSpelled | app/api/transfer.py:126-171 | when an explicit-source creation gets its row, and every field of it |
| Outcomes.CreateFromRefused | app/api/transfer.py:83-118 | a creation whose source will not do changes nothing |
| Outcomes.ApproveSpelled | app/api/transfer.py:603-708 | approval touches only an unbound transfer that awaits it: bound and reserved, or sent to the queue |
| Outcomes.RejectSpelled | app/api/transfer.py:715-750 | rejection ends every transfer that is not final and releases from `pending` only |
| Outcomes.SignSpelled | app/api/transfer.py:757-784 | signing is recorded whatever the status, with the transaction id unless that is empty |
| Outcomes.CompleteSpelled | app/api/transfer.py:791-836 | completion pays out, or does nothing if the transfer is final or not covered |
| Outcomes.CancelSpelled | app/api/transfer.py:843-883 | cancellation is for the three early statuses and releases from `pending` only |
| Outcomes.RejectedMessageSpelled | app/broker/consumer.py:100-140 | a rejected message ends the transfer whatever its status and releases what it can |
| Outcomes.ApprovedMessageSpelled | app/broker/consumer.py:237-311 | a signed approval of an early transfer records the provider's id and `broadcasting`, or `failed`; no money moves |
| Outcomes.ExamineSpelled | app/dao/transfer.py:478-509 | an examined waiting transfer is bound to the selected wallet or gets one more retry |
| Outcomes.ExamineServes | app/dao/transfer.py:478-509 | with a truthful answer the examined transfer is reserved on a wallet that serves it, or no such wallet covers it |
| Outcomes.BalancesSpelled | app/dao/webhook/service.py:293-344 | an overwrite sets the balance; an own-vault move sets the destination and lowers the source, not below zero; pending amounts stay |
| Outcomes.UnknownRequest | app/dao/transfer.py:312-327 | a request id that no transfer, or more than one, has changes nothing |
| CustodyServices.CustodyService.ReserveBalance | app/dao/transfer.py:174-198 | reserves iff balance less pending covers the amount; then pending rises by it and the balance stays; nothing else changes |
| CustodyServices.CustodyService.ReleaseReserve | app/dao/transfer.py:201-225 | releases iff pending covers the amount; then pending falls by it and the balance stays; nothing else changes |
| CustodyServices.CustodyService.CompleteTransferBalance | app/dao/transfer.py:228-256 | deducts iff pending and balance both cover the amount; then both fall by it; nothing else changes |
| CustodyServices.CustodyService.ChooseHotWallet | app/dao/transfer.py:51-158 | the loop finds a best sufficient wallet, or the largest available, or that there is none |
| CustodyServices.CustodyService.SelectAndReserveHotWallet | app/dao/transfer.py:41-171 | the selected wallet matches and covers the amount, which becomes pending on it and on nothing else |
| CustodyServices.CustodyService.UpdateTransferWithWallet | app/dao/transfer.py:384-405 | binds the wallet and sets the status to pending |
| CustodyServices.CustodyService.ReserveUpfront | app/api/transfer.py:239-304 | reserves on a selected wallet; only if no wallet serves the asset is one opened, and the selection repeated |
| CustodyServices.CustodyService.ReserveAndRecord | app/api/transfer.py:239-332 | for a new request id: the reservation and the row that goes with it |
| CustodyServices.CustodyService.CreateExternalTransfer | app/api/transfer.py:194-388 | a repeated request id is a conflict that changes nothing; otherwise, after at most one activation, the new row awaits approval on a selected wallet whose pending rose iff some matching wallet covers the amount, and else waits in the queue unbound while every wallet stays |
| CustodyServices.CustodyService.CreateFromWallet | app/api/transfer.py:76-186 | the exact reply for every failing check, in the order of the checks; done only with the one new row, and otherwise nothing changes |
| CustodyServices.CustodyService.CheckSource | app/api/transfer.py:83-118 | which check fails first: missing vault or asset, repeated request id, no wallet, several wallets, too little available; otherwise the one wallet |
| CustodyServices.CustodyService.CheckDestination | app/api/transfer.py:456-491 | a missing vault or wallet is not found, several wallets are an error, an address off the whitelist or no destination is a bad request |
| CustodyServices.CustodyService.SendFromWallet | app/api/transfer.py:126-186 | reserves first, records the provider's answer with its raw status, and restores the wallets when the provider refuses or gives no id |
| CustodyServices.CustodyService.CreateExternalTransferDirect | app/api/transfer.py:76-186 | done iff vault and asset exist, the request id is new, the one wallet of both covers the amount and the provider gives an id; then the fields of the new row and the raised pending amount |
| CustodyServices.CustodyService.CreateInternalTransfer | app/api/transfer.py:396-575 | the same, and done only if the destination is an existing vault with exactly one wallet of the asset or a whitelisted address; in every other case nothing changes |
| CustodyServices.CustodyService.ApproveTransfer | app/api/transfer.py:603-708 | the selection is truthful for the blockchain, contract and amount of the transfer; every table afterwards is the one the approve step leaves; not found iff no such request, done iff it awaited approval |
| CustodyServices.CustodyService.RejectTransfer | app/api/transfer.py:715-750 | every table afterwards is the one the reject step prescribes; refused iff the transfer is final |
| CustodyServices.CustodyService.UpdateTransferSigning | app/api/transfer.py:757-784 | every table afterwards is the one the signing step prescribes, whatever the status was |
| CustodyServices.CustodyService.CompleteTransfer | app/api/transfer.py:791-836 | every table afterwards is the one the completion step prescribes; a server error iff the deduction's guard fails, and then nothing changes |
| CustodyServices.CustodyService.CancelTransfer | app/api/transfer.py:843-883 | every table afterwards is the one the cancel step prescribes; done iff the status is cancellable |
| CustodyServices.CustodyService.HandleTransferRejected | app/broker/consumer.py:100-140 | every table afterwards is the one the rejected-message step prescribes, whatever the status was |
| CustodyServices.CustodyService.HandleTransferApproved | app/broker/consumer.py:237-311 | every table afterwards is the one the approved-message step prescribes: broadcasting or failed, and only from the three early statuses |
| CustodyServices.CustodyService.HandleTransferFailed | app/dao/webhook/service.py:182-204 | releases if it can, and fails the transfer |
| CustodyServices.CustodyService.HandleTransferCompleted | app/dao/webhook/service.py:207-228 | deducts if it can, and completes the transfer in any case |
| CustodyServices.CustodyService.ProcessOutgoingTransfer | app/dao/webhook/service.py:101-154 | every table afterwards is the one the webhook step leaves, which the rows on webhooks spell out; found iff the lookup finds a transfer |
| CustodyServices.CustodyService.UpdateWalletBalance | app/dao/webhook/update.py:63-97 | writes the balance and leaves the pending amount alone |
| CustodyServices.CustodyService.SyncTreasuryBalances | app/services/balance_sync.py:71-168 | the reported balances are written one by one, and the answer counts the reports that differed from the balance they met |
| CustodyServices.LastReportCounts | app/services/balance_sync.py:71-168 | every wallet ends with the balance of its last report |
| CustodyServices.UnreportedStays | app/services/balance_sync.py:71-168 | a wallet without a report stays as it was |
| CustodyServices.OverwritesKeep | app/dao/webhook/update.py:63-97 | reports change nothing but balances |
| CustodyServices.CustodyService.ProcessInternalTransfer | app/dao/webhook/service.py:293-368 | the destination balance is set, the source lowered but not below zero |
| CustodyServices.CustodyService.ProcessPendingBalanceTransfer | app/dao/transfer.py:478-509 | the selection is truthful for its blockchain, contract and amount, and the tables afterwards are those of the examination |
| CustodyServices.CustodyService.ProcessBatch | app/api/transfer.py:925-960 | the loop is a pass with truthful selections, and its counters count them |
| CustodyServices.CountChosenExact | app/api/transfer.py:925-960 | the counter is the number of selections that found a wallet |
| CustodyServices.CustodyService.ProcessQueue | app/api/transfer.py:902-966 | a pass over the oldest waiting transfers |
| CustodyServices.CustodyService.ProcessPendingBalanceQueue | app/dao/webhook/service.py:371-439 | a pass over the ten oldest waiting for the deposited asset, with truthful selections and its count |
| CustodyServices.CustodyService.CommitEachSuccess | app/services/balance_sync.py:192-234 | the loop hands back the rows as of its last success |
| CustodyServices.CustodyService.ProcessPendingQueueAfterSync | app/services/balance_sync.py:171-234 | a pass over the twenty oldest, of which everything up to the last success is kept |
| Resolver.TwoLookupsAgree | app/services/custody/fireblocks/resolver.py:71-89 | for every list and non-empty contract both lookup loops find the same asset, skipping the wrong kind of network |
| Resolver.JoinInjective | app/services/custody/fireblocks/resolver.py:27-28 | the joined key is injective on fields without a colon |
| Resolver.SameKeySameAnswer | app/services/custody/fireblocks/resolver.py:27-57 | proper queries of all three kinds with one key have one uncached answer while native calls are grounded |
| Resolver.HistoryCoherent | app/services/custody/fireblocks/resolver.py:30-132 | any history of proper calls of all three kinds, native ones grounded, and clears keeps every entry an uncached answer for its key |
| Resolver.CacheIsTransparent | app/services/custody/fireblocks/resolver.py:30-132 | after any such history the next call answers as it would without a cache |
| Resolver.TransparentIff | app/services/custody/fireblocks/resolver.py:30-132 | for arbitrary histories a query of any kind is always answered right iff every query with its key finds nothing or the same asset |
| Resolver.ColonsCollide | app/services/custody/fireblocks/resolver.py:27-28 | with colons two assets share a key and the second resolves to the first's id |
| Resolver.NativePathAgreesIff | app/services/custody/fireblocks/resolver.py:91-128 | the native path answers what the general path answers exactly when the provider lists the mapped id in its spelling |
| Resolver.NativeCallSpoilsIff | app/services/custody/fireblocks/resolver.py:91-128 | a native call makes the next answer about the same coin wrong exactly when it is not so grounded |
| Resolver.UnlistedCoinIsFound | app/services/custody/fireblocks/resolver.py:105-113 | a coin the provider does not list is unknown to the general path until a native call caches it |
| Resolver.FindAssetByContractOrCurrency | app/services/custody/fireblocks/service.py:195-290 | the three scans return the first match of the applicable kind; a coin of the dev table is looked up there on a test network, one of the prod table on a main network, and the listed asset is the answer |
| Resolver.IsTestSpelled | app/services/custody/fireblocks/service.py:204-211 | an asset is of a test network iff its id, type or native asset has TEST in it, in any case |
| Resolver.ContractLookupSpelled | app/services/custody/fireblocks/service.py:213-240 | the first asset of the right kind of network with the contract as its own or its issuer's address, in any case |
| Resolver.NativeLookupSpelled | app/services/custody/fireblocks/service.py:241-288 | the asset the table of the network names, or else the first without address that goes by the currency |
| Resolver.FireblocksAssetResolver.Resolve | app/services/custody/fireblocks/resolver.py:30-57 | the key is spelled from blockchain, contract or NATIVE, and network or MAINNET; a key that is there is the answer, an answer is stored, a failure is not |
| Resolver.FireblocksAssetResolver.ResolveByContract | app/services/custody/fireblocks/resolver.py:59-89 | the same over the resolver's own loop, with the network spelled TESTNET or MAINNET |
| Resolver.FireblocksAssetResolver.ResolveNative | app/services/custody/fireblocks/resolver.py:91-128 | without a cached answer a test network takes the id of the dev table and a main network that of the prod table, if it is there and not empty, and otherwise what the general lookup finds; the answer is stored |
| Resolver.FireblocksAssetResolver.ClearCache | app/services/custody/fireblocks/resolver.py:130-132 | the cache is as it was before any call |
| AssetSync.PutAllClosedForm | app/services/custody/fireblocks/sync.py:109-171 | the first phase leaves each old row with the last write to its key and flushes one row per new native |
| AssetSync.StageAllForm | app/services/custody/fireblocks/sync.py:181-276 | the second phase leaves each visible row with the last write to its key and adds one row for every write whose key was not there at its start, repeated ones included |
| AssetSync.SyncKeepsNatives | app/services/custody/fireblocks/sync.py:109-171 | one native per blockchain and network and natives without contract are kept by every sync, from tables with broken tokens too |
| AssetSync.HistoryKeepsNatives | app/services/custody/fireblocks/sync.py:34-286 | that holds of every table any history of syncs leaves |
| AssetSync.SyncKeepsTableIff | app/services/custody/fireblocks/sync.py:181-276 | a sound table stays sound exactly unless both phases commit two token contracts with one target the table lacks |
| AssetSync.ParentsAreNative | app/services/custody/fireblocks/sync.py:216-286 | every committed token that is written, even with clashes, is linked to the native row of its own blockchain and network, or to nothing when there is none |
| AssetSync.SyncIsIdempotent | app/services/custody/fireblocks/sync.py:34-286 | repeating a sync, with the database deciding alike, leaves the whole table as it is |
| AssetSync.RerunIff | app/services/custody/fireblocks/sync.py:233-243 | after a committed run a second one changes nothing and succeeds exactly when the first had no two contracts with one new target |
| AssetSync.RepeatedAssetLosesTokens | app/models/asset.py:85-91 | two contracts for one new provider asset lose the whole second phase under every database that keeps its constraints |
| AssetSync.SharedAddressBreaksTable | app/services/custody/fireblocks/sync.py:191-193 | two coins sharing an address, one reached by address and one by name, are committed, break the table and make the next run fail |
| AssetSync.RepeatedContractIsRefused | app/services/custody/fireblocks/sync.py:191-193 | one new contract listed in two spellings is never committed |
| AssetSync.AssetTable.SyncFireblocksAssets | app/services/custody/fireblocks/sync.py:34-286 | from any table that syncs leave, with any answers of the database: the table afterwards, when it succeeds, and the exact created, updated and skipped counts |
| SyncOutcomes.CoinsWritten | app/services/custody/fireblocks/sync.py:109-171 | once the first phase is committed the last contract for a coin leaves its one native row with the asset id, currency, names, network and decimals of the table of natives and the provider |
| SyncOutcomes.TokensWritten | app/services/custody/fireblocks/sync.py:181-276 | after a committed sync a contract for a token has a row with the fields of the provider's asset found by address, else by name, unless a later contract took over an old row |
| SyncOutcomes.OldTokensHaveContracts | app/services/custody/fireblocks/sync.py:245-256 | every old row that a contract is stored under has the fields of one such contract |
| SyncOutcomes.NewTokensHaveContracts | app/services/custody/fireblocks/sync.py:257-273 | every token row added has the fields of one contract and its provider asset |
| SyncOutcomes.NewCoinsHaveContracts | app/services/custody/fireblocks/sync.py:148-165 | every coin row added has the fields of one contract and its coin |
| SyncOutcomes.OthersStay | app/services/custody/fireblocks/sync.py:34-286 | rows of other providers and rows no contract names stay; so do tokens unless the sync succeeds, and everything without the first commit |
| SyncOutcomes.SucceedsExactly | app/services/custody/fireblocks/sync.py:233-243 | a sync succeeds iff both phases are accepted and no contract is stored under an address that two rows already share |
| SyncOutcomes.SpellsExactly | app/services/custody/fireblocks/sync.py:18-31 | how the test network of each blockchain is spelled |
| SyncOutcomes.IndexedById | app/services/custody/fireblocks/sync.py:64-72 | the asset listed last with an id is the one found by it |
| SyncOutcomes.NotIndexedById | app/services/custody/fireblocks/sync.py:64-72 | nothing is found by an id that is not listed |
| SyncOutcomes.IndexedByAddress | app/services/custody/fireblocks/sync.py:74-76 | the asset listed last with an address, its own or its issuer's, is the one found by it in lower case |
| SyncOutcomes.NotIndexedByAddress | app/services/custody/fireblocks/sync.py:74-76 | nothing is found by an address no listed asset has |
| AssetSync.AssetTable.UpsertToken | app/services/custody/fireblocks/sync.py:233-273 | the lookup sees flushed rows only; it updates the one row, adds a row, or raises on several |
| AssetSync.AssetTable.FindParent | app/services/custody/fireblocks/sync.py:216-231 | the parent cache and the fallback query together give the position of the blockchain's native row, or none exactly when the table has none |
| Lock.StepSafe | app/services/redis_client.py:102-141 | one enter, exit or tick keeps the lock safe exactly when it is not careless |
| Lock.EnterSpelled | app/services/redis_client.py:102-131 | what entering leaves for each state of Redis and of the key |
| Lock.ExitSpelled | app/services/redis_client.py:133-141 | which exits delete the key |
| Lock.MutualExclusion | app/services/redis_client.py:102-141 | over every interleaving of careful processes at most one is inside, and the key exists iff one is |
| Lock.StrangerRemovesIff | app/services/redis_client.py:133-141 | from any world with an unexpired key the exit of a process that does not hold it removes it exactly when Redis takes the delete and the process entered on an error or overstayed |
| Lock.StepOwners | app/services/redis_client.py:102-141 | a step lets a non-owner into deleting position exactly when it enters on an error or overstays a lease |
| Lock.OnlyHoldersRemove | app/services/redis_client.py:102-141 | over every run without those, Redis going away included, an exit removes the key only if its process holds it |
| Lock.ErrorLetsTwoIn | app/services/redis_client.py:127-131 | from a safe world an error entry and its exit let two processes in together |
| Lock.OverstayingLetsTwoIn | app/services/redis_client.py:133-141 | overstaying once lets two later processes in together |
| Lock.DistributedLock.Enter | app/services/redis_client.py:102-131 | with Redis up and a lease of some length it enters iff no unexpired key is there, and then sets one for that long; otherwise it goes ahead and sets none |
| Lock.DistributedLock.Exit | app/services/redis_client.py:133-141 | the key goes iff the object believes it holds it, was connected and Redis takes the delete |
| Pager.GetVaults | app/services/custody/fireblocks/service.py:118-158 | against every pager with finitely many paths it terminates, requests no path twice and returns the pages of the chain up to its end or first repeat |
| Pager.ChainIsUnique | app/services/custody/fireblocks/service.py:118-158 | that chain is determined by the pager and the first path |
| Pager.ChainSpelled | app/services/custody/fireblocks/service.py:118-158 | it starts at the first path, repeats none, follows every non-empty next-link and stops only where there is none or it links back |
| Pager.PagesInOrder | app/services/custody/fireblocks/service.py:118-158 | the accounts of each page stand in the answer in page order; a malformed page adds none |
| Treasury.TableIsExact | app/api/treasury.py:587-612 | one row for every key present, and each column is the sum of the wallets with that key and type |
| Treasury.RowsSpelled | app/api/treasury.py:587-612 | the hot, warm and cold figures of a row are what the active vaults of that type hold in its asset |
| Treasury.RowsAreThose | app/api/treasury.py:587-601 | an asset has a row iff an active HOT, WARM or COLD vault has a wallet in it |
| Treasury.ColumnsAddUp | app/api/treasury.py:587-612 | a column and the wallets without an asset add up to everything of the type |
| Treasury.LinkedReportsAgree | app/api/treasury.py:486-626 | with every wallet linked to its asset, as the schema demands, the columns equal the overview's balances and the rows its total |
| Treasury.ReportsAgree | app/api/treasury.py:587-590 | in general they differ by exactly the wallets that the report skips |
| Treasury.PercentagesSumToHundred | app/api/treasury.py:506-515 | the percentages of the reported types sum to 100 when the total is positive |
| Treasury.SummarySpelled | app/api/treasury.py:506-530 | a type has a summary iff it has an active vault; its balance is what those hold |
| Treasury.ShareSpelled | app/api/treasury.py:511-515 | the share is the balance in percent of the total, and zero without a total |
| Treasury.TargetSpelled | app/api/treasury.py:486-501 | the target is the non-zero one set last by an active vault of the type |
| Treasury.NoTargetSpelled | app/api/treasury.py:486-501 | it is zero if none sets one |
| Treasury.CountSpelled | app/api/treasury.py:492-495 | the count is the number of active vaults of the type |
| Treasury.HealthSpelled | app/api/treasury.py:516-524 | critical more than twenty points from the target, healthy within ten or without a target, a warning between |
| Treasury.KeyNamesAsset | app/api/treasury.py:592 | the joined row key names one asset when blockchain and currency have no slash |
| Treasury.GetTreasuryOverview | app/api/treasury.py:465-562 | totals, summaries and the overall health |
| Treasury.GetBalancesByAsset | app/api/treasury.py:565-626 | the dict loop builds the exact table |
| PrimaryVaults.StepPrimaries | app/api/treasury.py:352-364 | every step keeps each type at one active primary at most and takes the last one away exactly when it unseats it |
| PrimaryVaults.RunPrimaries | app/services/treasury_bootstrap.py:27-107 | the same over every run of create, update, bootstrap and import; exactly one stays exactly one while nothing unseats it |
| PrimaryVaults.KindFromNameSpelled | app/api/treasury.py:771-781 | the type is the first of HOT, WARM, COLD and the three words for operational that the name has in it, in any case |
| PrimaryVaults.CreateSpelled | app/api/treasury.py:38-172 | when a vault is added, its fields, and which primary it replaces |
| PrimaryVaults.UpdateSpelled | app/api/treasury.py:317-368 | the flag of every row after an update |
| PrimaryVaults.BootstrapWithLeader | app/services/treasury_bootstrap.py:27-38 | an active primary HOT vault is handed back if it is the only one, and nothing changes |
| PrimaryVaults.BootstrapWithHots | app/services/treasury_bootstrap.py:40-53 | the only active HOT vault is promoted; several are left alone |
| PrimaryVaults.BootstrapWithNothing | app/services/treasury_bootstrap.py:55-112 | with no active HOT vault one is added under the provider's id, if that is new |
| PrimaryVaults.ImportNext | app/api/treasury.py:755-799 | what one more reported vault does to the session and to the counters |
| PrimaryVaults.CreatedPrimaryIsAlone | app/api/treasury.py:53-63 | a created primary is the only active one of its type, from any table |
| PrimaryVaults.PromotedIsAlone | app/api/treasury.py:352-364 | a promoted vault is the only primary of its type, from any table |
| PrimaryVaults.BootstrappedIsAlone | app/services/treasury_bootstrap.py:27-107 | the vault the bootstrap hands back is the only active primary HOT vault, from any table |
| PrimaryVaults.ReportIsHonestIff | app/api/treasury.py:755-799 | the reported number of imported vaults is the true one iff no insert failed after another succeeded |
| PrimaryVaults.RollbackLosesImport | app/api/treasury.py:795-799 | a failing second insert takes the first one along, which is still reported |
| PrimaryVaults.VaultTable.CreateTreasuryVault | app/api/treasury.py:38-172 | the create step; a failure restores the old primary |
| PrimaryVaults.VaultTable.UpdateTreasuryVault | app/api/treasury.py:317-368 | the update loop demotes every other primary of the type |
| PrimaryVaults.VaultTable.BootstrapDefaultHotWallet | app/services/treasury_bootstrap.py:19-112 | the bootstrap step and the vault it hands back |
| PrimaryVaults.VaultTable.SyncVaults | app/api/treasury.py:740-808 | the import loop with its rollbacks and counters |

## Left out

- CustodyServices.CustodyService.HandleTransferApproved: the handler commits twice; it is modelled as one step.
- CustodyServices.CustodyService.ProcessBatch: exceptions raised while publishing a processed transfer, and the commits inside the pass, are not modelled; a pass is one uninterrupted loop.
- CustodyServices.CustodyService.ProcessInternalTransfer: the lowered source balance (app/dao/webhook/service.py:335) is not flushed when the pass it triggers makes its first selection, so the code can select against the old balance; here the pass sees the new one.
- CustodyServices.CustodyService.ProcessPendingBalanceQueue: commits and publishing inside the pass, and the unflushed source balance just named.
- CustodyServices.CustodyService.ProcessPendingQueueAfterSync: exceptions inside the pass; other sessions cannot interleave between two transfers of a pass.
- Queue.ILike: PostgreSQL rejects a pattern that ends in a backslash; here the backslash stands for itself.
- CustodyServices.CustodyService.CreateExternalTransfer: how an asset is activated in the primary HOT vault (app/services/treasury_bootstrap.py:115-211) is an input: unavailable, already there, or a wallet opened.
- CustodyServices.CustodyService.SyncTreasuryBalances: which balances the provider reports, and the matching of provider asset ids to wallets, are inputs.
- AssetSync.AssetTable.SyncFireblocksAssets: the parser of provider asset ids and the two tables of native coins are parameters (the results hold for every choice of them), and so is whether the database accepts each phase; only that it never commits a breach of its unique constraints is used.
- Resolver.FindAssetByContractOrCurrency: the position of the asset is returned, not the enriched copy of it.
- Pager.GetVaults: turning a next-link into a path is an input; the pager answers the same path the same way.
- PrimaryVaults.VaultTable.CreateTreasuryVault: the wallets opened for the requested assets are not part of the vault rows.
- Treasury.GetTreasuryOverview: the alert texts; percentages are exact reals.
- Sessions that interleave inside one transaction, and a row read by two sessions at once.
- `reset_wallet_pending` (app/api/treasury.py:828-847), which discards the counter on purpose.
- Message transport, callbacks to the backend, HTTP, tokens, signatures, credentials, migrations, logging.
- Transaction hashes, notes, error texts, addresses, tags and timestamps other than creation order.
- The whitelist endpoints, the rebalance stub, the legacy transactions table and the invoice statuses.
