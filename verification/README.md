# Logistics backend: verified protocol models

Dafny 4.11 models of the parts of the backend that move money and hand out shipments, with proofs of what
they keep over every run. `dafny verify dfyconfig.toml` checks the whole project.

Database tables are maps keyed by their unique constraints. A transaction that only writes rows by key is
one step; a transaction that reads and then writes is a read step and a write step wherever the proof is
about races, because its reads take no lock. Results about runs of uninterrupted calls say so, and the lemmas
whose names begin with `Late` say exactly which writes that come late break them. An insert that meets a taken
unique key throws and rolls its transaction back, and in the wallet protocol any statement, transaction or call
to Paystack may throw at any time, without effect. Paystack's answers, fresh ids and references and the clock are
inputs that may take any value.

| Files | Content |
|---|---|
| `WalletTables`, `WalletProtocol`, `WalletInvariant`, `WalletTheorems`, `WalletSchedules` | wallets, ledger, payment intents, withdrawals and idempotency keys; any number of concurrent callers, confirmations and webhooks, one statement at a time; the invariant and the money theorems; three schedules that show what the assumptions are for |
| `WalletOutcomes` | what each request achieves when its process is advanced alone: crediting, compensation, payout, replay |
| `WalletStore` | the same transactions and calls as methods that write rows one after another |
| `WalletReferences`, `WalletPayloads`, `CanonicalJson`, `CanonicalJsonTheorems` | the unique references; the canonical JSON text behind the request hash, its parser, and what they mean for the idempotency lock |
| `Pagination` | the cursor pages of the transaction list |
| `Shipments`, `DispatchTables`, `DispatchStore` | shipment statuses and schedules; batches, offers and assignments, as table functions and as methods |
| `DispatchWinner`, `DispatchAgreement`, `DispatchLifecycle` | one winner under stale writes; agreement of the four tables and exactly which late writes break it; progress of a shipment |
| `DispatchReplies`, `DispatchOutcomes` | when counters and declines go through; whole deliveries, and uninterrupted calls of the interleaved machine |
| `DispatchEligibility`, `DispatchReconcile` | which providers get offers; the reconcile loop |
| `Marketplace`, `MarketplaceTheorems`, `MarketplaceStore` | bids, awards and the shipments they assign |
| `Pricing`, `Dashboard`, `Kyc`, `KycTheorems`, `KycStore` | prices and commission; delivery series and order counts; the cached identity profile |

Where the code does not do what its guards or comments suggest, the code is modelled as it is and the exact
condition is proved:

- The debit transaction's balance test takes no lock, so concurrent withdrawals can overdraw a wallet
  (`WalletSchedules.InterleavedDebitsOverdraw`, `WalletTheorems.NegativeExactlyWhenOverdrawn`).
- A key can end failed although its debit stands, when its completion write throws
  (`WalletSchedules.LostCompletionLeavesDebit`) or when every attempt to compensate throws
  (`WalletSchedules.FailedCompensationLeavesDebit`); `WalletTheorems.FailedKeyLeavesDebitExactly` gives the exact
  condition, and the history fields `lost` and `stuck` name these keys.
- A dispatch reads its guards and the batch without a lock, so two overlapping calls can both dispatch a
  shipment, and one that is overtaken by an accept sets the shipment back to broadcasting
  (`DispatchReconcile.SecondDispatchExactly`, `DispatchAgreement.LateDispatchBreaksExactlyAssigned`).
- Progress and cancellation updates by id can revive a cancelled shipment or part a completed one from its
  assignment (`DispatchLifecycle.LateProgressMovesBackExactly`, `DispatchLifecycle.LateCancelPartsExactlyCompleted`),
  and an award can assign a shipment on terms that the bid no longer has
  (`MarketplaceTheorems.LateAwardBreaksExactlyChangedTerms`).
- A late counter or decline can overwrite an accepted or cancelled offer; the winner is still unique
  (`DispatchWinner.OneWinnerPerShipment`), and `DispatchAgreement.LateDeclineBreaksExactlyAccepted` and
  `DispatchAgreement.LateCounterBreaksExactlyAssigned` say which such writes break the tables' agreement.
- An award does not test the shipment's status and revives cancelled shipments
  (`MarketplaceTheorems.MovesBackExactlyWhenRevived`).
- A zero coordinate reads as a missing one when route alignment is tested
  (`DispatchEligibility.AlignedIsChosenExactlyOffTheAxes`).
- A create call that fails on a taken vendor reference leaves a new profile whose default overall status,
  pending, is not what a recomputation gives (`KycTheorems.FirstCreateAgreesExactlyWhenPlaced`).

History fields that the database does not have: `origin` of a withdrawal (the key that made it), `openingPrice`
of a shipment, and `started`, `lost` and `stuck` of the wallet state. No guard reads them.

## Model

| member | source | states |
|---|---|---|
| `WalletTheorems.LedgerConservation` | src/wallet/wallet.service.ts:544-570 | In every reachable state each balance is the sum of the wallet's ledger credits minus its debits, over funding, withdrawal, reversal, replay and repeated webhooks in any interleaving |
| `WalletTheorems.TopupExactlyOnce` | src/wallet/wallet.service.ts:768-919 | However many confirmations, webhooks and charges finalize an intent at once, it has at most one credit, of its own amount on its own wallet, and exactly one once it is confirmed |
| `WalletTheorems.CompensationAtMostOnce` | src/wallet/wallet.service.ts:1097-1171 | Every withdrawal has one debit and at most one reversal of the same amount and wallet, counted over ledger rows by reference text when ids are UUIDs; a reversed withdrawal has net effect zero, also after its status was overwritten |
| `WalletTheorems.OnlyWithdrawalsDebit` | src/wallet/wallet.service.ts:544-570 | Every debit row of the ledger belongs to an existing withdrawal |
| `WalletTheorems.WithdrawalAtomicity` | src/wallet/wallet.service.ts:461-667 | For any schedule and any failing statements a key makes at most one withdrawal; a completed key names exactly that one; a failed key leaves it debited exactly when the key's completion write or last compensation threw and no reversal has been committed |
| `WalletTheorems.FailedKeyLeavesDebitExactly` | src/wallet/wallet.service.ts:1429-1440 | The write that marks a key failed leaves its withdrawal debited exactly when the caller comes from a completion write that threw or from compensations that threw, and no reversal has been committed |
| `WalletTheorems.HistoriesAreExact` | src/wallet/wallet.service.ts:656-664 | The two histories record exactly the keys whose completion write threw, and those whose compensation in the catch block threw before any reversal was committed |
| `WalletTheorems.ActionStartsOnce` | src/wallet/wallet.service.ts:1308-1441 | The wrapped action starts at most once per (profile, operation, key), and has started exactly when the key row exists |
| `WalletTheorems.KeyRowsAreFinal` | src/wallet/wallet.service.ts:1353-1440 | Over any continuation a request hash never changes and a completed or failed key row stays as it is |
| `WalletTheorems.RepliesAgree` | src/wallet/wallet.service.ts:1308-1441 | Any two successful replies under one key carry the same response, for the same request hash, naming a row of the caller's own |
| `WalletTheorems.ReplaysResolve` | src/wallet/wallet.service.ts:466-492 | No caller ever meets the branches in which a recorded response cannot be replayed or a raced key has vanished |
| `WalletTheorems.ReversedIsLeftExactly` | src/wallet/wallet.service.ts:586-664 | A step takes a withdrawal out of `reversed` exactly when it is the late completion write of the withdrawing call; no webhook does it |
| `WalletTheorems.NegativeExactlyWhenOverdrawn` | src/wallet/wallet.service.ts:510-570 | From balances at or above zero, a step makes one negative exactly when a debit reaches its writes, on fresh generated ids, while the wallet no longer covers the amount |
| `WalletTheorems.SerialRunsStayNonNegative` | src/wallet/wallet.service.ts:510-570 | When no balance moves between the test and the write of a debit transaction, no run drives a wallet below zero |
| `WalletSchedules.InterleavedDebitsOverdraw` | src/wallet/wallet.service.ts:510-570 | Without that assumption it fails: from every reachable state with a funded wallet, two interleaved withdrawals drive it below zero, because the balance read takes no lock |
| `WalletSchedules.LostCompletionLeavesDebit` | src/wallet/wallet.service.ts:1413-1440 | When the completion write of the key throws, the key reads failed while its withdrawal stays debited |
| `WalletSchedules.FailedCompensationLeavesDebit` | src/wallet/wallet.service.ts:656-664 | So does a refused transfer whose two attempts to compensate throw, without any lost completion write |
| `WalletInvariant.Reachable` | src/wallet/wallet.service.ts:1308-1441 | The joint invariant of tables, key rows and program counters holds after every run |
| `WalletInvariant.StepMoves` | src/wallet/wallet.service.ts:427-934 | Any single statement of any caller, confirmation or webhook, failing or not, keeps the tables in order and only grows what others rely on |
| `WalletInvariant.StepLands` | src/wallet/wallet.service.ts:427-934 | Any single statement, failing or not, leaves its own process with true facts at its next program counter |
| `WalletInvariant.OthersStable` | src/wallet/wallet.service.ts:427-934 | No statement falsifies what another process has read and still relies on |
| `WalletOutcomes.SoloIsARun` | src/wallet/wallet.service.ts:427-934 | Advancing one process of a run is running it alone on the tables, which the outcomes below are about |
| `WalletOutcomes.FailedTransferIsCompensated` | src/wallet/wallet.service.ts:717-734 | From every reachable state, a failed or reversed transfer webhook advanced alone ends handled, with the withdrawal of its reference reversed, its wallet raised by the amount exactly when it was not credited back before, and nothing else changed |
| `WalletOutcomes.SucceededTransferIsRecorded` | src/wallet/wallet.service.ts:1048-1067 | From every reachable state, a transfer success webhook completes a withdrawal exactly when it has the reference and is processing |
| `WalletOutcomes.ChargeWebhookSettles` | src/wallet/wallet.service.ts:738-766 | From every reachable state, a charge webhook advanced alone settles the intent of its reference: with status "success" in the intent's amount and currency it ends confirmed with one credit, with another status failed, else refused |
| `WalletOutcomes.ConfirmationSettles` | src/wallet/wallet.service.ts:349-425 | From every reachable state, a confirmation advanced alone settles its owner's intent with the answer Paystack gives, leaves a settled one alone and refuses a reference that is not the profile's |
| `WalletOutcomes.KnownKeyIsAnswered` | src/wallet/wallet.service.ts:1335-1411 | A caller that meets a key row of its own payload, at its first read or after losing the insert race, is answered the recorded response exactly when the key is completed, and otherwise that the request failed or is still running |
| `WalletOutcomes.ValidRequestsStart` | src/wallet/wallet.service.ts:208-210 | A request is taken up exactly when its amount is positive and it has a key |
| `WalletOutcomes.AcceptedWithdrawalCompletes` | src/wallet/wallet.service.ts:493-654 | From every reachable state, a covered withdrawal whose transfer is accepted ends completed: the wallet lowered by the amount, one debit row, and the withdrawal completed exactly when Paystack says so at once |
| `WalletOutcomes.RefusedWithdrawalIsCompensated` | src/wallet/wallet.service.ts:596-664 | One whose transfer is refused ends failed and compensated, with every balance back and its debit and reversal in the ledger |
| `WalletOutcomes.UncoveredWithdrawalFails` | src/wallet/wallet.service.ts:510-524 | One that the wallet does not cover ends failed and moves nothing |
| `WalletOutcomes.FundingAwaitsConfirmation` | src/wallet/wallet.service.ts:302-345 | A funding without a successful card charge ends completed with a new unconfirmed intent, opening a wallet if there is none, and moves no money |
| `WalletOutcomes.SavedCardIsCredited` | src/wallet/wallet.service.ts:222-300 | A successful charge of a saved card is credited at once with one row and confirms its intent; in another amount or currency the key fails and nothing is credited |
| `WalletTables.PaystackStatusTable` | src/wallet/wallet.service.ts:1588-1610 | Succeeded means exactly "success", failed exactly "failed", "abandoned" or "error", cancelled exactly "cancelled"; everything else is pending |
| `WalletTables.TopupQueryMatchesReference` | src/wallet/wallet.service.ts:830-849 | The query for an existing top-up finds a row exactly when the unique top-up reference is taken |
| `WalletTables.DebitKeeps` | src/wallet/wallet.service.ts:510-570 | The debit transaction keeps conservation and the ledger in step with withdrawals |
| `WalletTables.ReverseKeeps` | src/wallet/wallet.service.ts:1097-1171 | The compensating transaction keeps the table invariants whatever it read before writing |
| `WalletTables.FinalizeKeeps` | src/wallet/wallet.service.ts:768-919 | The finalizing transaction keeps the table invariants whatever it read before writing |
| `WalletReferences.ReferencesCollideExactly` | src/wallet/wallet.service.ts:1654-1664 | On arbitrary ids two rendered ledger references are equal exactly when they are the same reference or one debit id spells a reversal (`REV_` followed by the other id) |
| `WalletReferences.UuidReferencesAreDistinct` | prisma/schemas/wallet.prisma:35 | On UUID ids the three reference builders never collide |
| `WalletStore.Store.GetOrCreateWallet` | src/wallet/wallet.service.ts:1464-1499 | Finds the owner's wallet or inserts one with balance zero |
| `WalletStore.Store.DebitForWithdrawal` | src/wallet/wallet.service.ts:510-570 | Commits exactly when the balance covers the amount and no unique key is taken; then inserts withdrawal and debit row and lowers the balance |
| `WalletStore.Store.ReverseWithdrawal` | src/wallet/wallet.service.ts:1097-1171 | On rows in order it reverses the withdrawal and credits its amount back exactly when no reversal is there yet; nothing else changes |
| `WalletStore.Store.FinalizeFunding` | src/wallet/wallet.service.ts:768-919 | A charge with status "success" in the intent's amount and currency confirms the intent and is credited unless it was; another status marks it failed; another amount or currency is refused, and neither moves money |
| `WalletStore.Store.MarkWithdrawalSucceeded` | src/wallet/wallet.service.ts:1048-1067 | Completes exactly the withdrawal of the reference, and only while it is processing; every other withdrawal, a reversed one and all money stay, and the tables stay in order |
| `WalletStore.Store.ConfirmFunding` | src/wallet/wallet.service.ts:349-425 | Refused exactly when the profile has no such reference or a charge with status "success" is in another amount or currency; a settled intent is left alone; otherwise it settles as a finalization does |
| `WalletStore.Store.RecordIntent` | src/wallet/wallet.service.ts:253-295 | Inserts the intent on new ids; a charge with status "success" raises the balance by its amount when amount and currency match, and is refused otherwise |
| `WalletStore.Store.FundUnderLock` | src/wallet/wallet.service.ts:217-345 | Succeeds exactly with a wallet, new ids and, for a charge with status "success", the right amount and currency; raises the owner's balance by the amount exactly in that last case |
| `WalletStore.Store.CreateFunding` | src/wallet/wallet.service.ts:199-347 | A known key changes no row and is answered as its row records; a fresh key completes exactly when nothing stands in the way, with one new intent, and a balance moves exactly when that is confirmed |
| `WalletStore.Store.FinishKey` | src/wallet/wallet.service.ts:1413-1440 | The key row ends completed with the response, failed, or in progress, according to which of its two writes throw |
| `WalletStore.Store.WithdrawUnderLock` | src/wallet/wallet.service.ts:493-664 | Debits exactly when the owner's wallet covers the amount and ids are new; whichever statements throw, the balance ends lowered exactly when the transfer was recorded or every attempt to compensate threw |
| `WalletStore.Store.OpenWithdrawal` | src/wallet/wallet.service.ts:493-578 | Lowers the owner's balance by an amount it covered and inserts the withdrawal, so that a reversal would restore every balance; or moves no balance |
| `WalletStore.Store.Compensate` | src/wallet/wallet.service.ts:596-664 | The attempts after a refused, throwing or unrecorded transfer have the effect of one reversal exactly when one of them commits |
| `WalletStore.Store.CreateWithdrawal` | src/wallet/wallet.service.ts:427-667 | A known key changes no row and is answered as its row records; a fresh key completes exactly when a wallet covers the amount, ids are new and no step throws, and otherwise stays lowered exactly when the completion write or every attempt to compensate threw |
| `WalletStore.ConfirmationCreditsExactly` | src/wallet/wallet.service.ts:349-425 | A confirmation with status "success" in full credits its amount exactly when it was not credited before and confirms the intent; a settled intent is left alone |
| `WalletStore.FinalizationSettles` | src/wallet/wallet.service.ts:768-919 | On rows in order a finalization credits exactly a charge with status "success" in the intent's amount and currency that was not credited, and states every row it leaves |
| `WalletStore.FinalizingCreditsOnce` | src/wallet/wallet.service.ts:801-919 | Finalizing an uncredited intent on a successful charge credits its amount, or changes nothing, exactly as amount and currency match |
| `WalletStore.ReversalUndoesDebit` | src/wallet/wallet.service.ts:1097-1171 | A reversal after a debit restores every balance, and a second reversal does nothing |
| `WalletStore.KnownKeyReplies` | src/wallet/wallet.service.ts:1335-1351 | On rows in order the reply to a known key of the same payload is the recorded response, or the conflict of its status |
| `WalletPayloads.RefusedExactlyWhenDifferent` | src/wallet/wallet.service.ts:1325-1351 | Once a caller has inserted a key row with one JSON payload, over every later run any other caller of the key is refused as sending a different payload exactly when its payload is not the first up to key order |
| `WalletPayloads.RepliesSharePayload` | src/wallet/wallet.service.ts:1685-1708 | Callers with successful replies under one key sent the same JSON payload up to key order |
| `CanonicalJsonTheorems.CanonicalTextIdentifies` | src/wallet/wallet.service.ts:1689-1708 | Two JSON values print to the same text exactly when they are equal up to the order of object keys at every depth |
| `CanonicalJsonTheorems.ParseUndoesStringify` | src/wallet/wallet.service.ts:1689-1708 | A parser of JSON texts without white space gives back from the printed text the value with its keys in order, and nothing is left over |
| `CanonicalJsonTheorems.TextOfAnArray` | src/wallet/wallet.service.ts:1691-1698 | In code units: the literal words and an array print as JSON |
| `CanonicalJsonTheorems.TextOfAnObject` | src/wallet/wallet.service.ts:1700-1707 | In code units: a two-field object prints with its keys in order, whichever way they were given, quoted and punctuated as JSON |
| `CanonicalJsonTheorems.StringifyPrintsCanon` | src/wallet/wallet.service.ts:1689-1708 | The printer that sorts as it prints equals plain printing of the value with sorted keys |
| `CanonicalJsonTheorems.ParseUndoesPlain` | src/wallet/wallet.service.ts:1689-1708 | The parser undoes plain printing in front of any text that a value may be followed by |
| `CanonicalJsonTheorems.UnescapeUndoesEscape` | src/wallet/wallet.service.ts:1691-1694 | Reading a string body undoes the escaping of every code unit |
| `CanonicalJsonTheorems.SameMeansSameCanon` | src/wallet/wallet.service.ts:1700-1707 | Two values are equal up to key order exactly when their forms with sorted keys are equal |
| `CanonicalJsonTheorems.AscendingIsUnique` | src/wallet/wallet.service.ts:1700-1704 | A set of fields has only one ascending order |
| `CanonicalJsonTheorems.CanonIsStable` | src/wallet/wallet.service.ts:1700-1707 | Sorting the keys of an already canonical value changes nothing |
| `Pagination.PagesMakeUpTheListing` | src/wallet/wallet.service.ts:94-127 | Following the cursors terminates and concatenates to exactly the filtered listing in descending (createdAt, id) order, for any sequence of requested page sizes |
| `Pagination.PageIsNextStretch` | src/wallet/wallet.service.ts:110-126 | A page is the next stretch of the listing, and says truly whether rows are left |
| `Pagination.NewerRowsDoNotDisturb` | src/wallet/wallet.service.ts:110-118 | When the table is extended by later transactions while a caller pages, the pages after its cursor do not change |
| `Pagination.LaterRowsComeFirst` | src/wallet/wallet.service.ts:115 | The listing of a table extended by later transactions is the old listing after a listing of the new rows |
| `Pagination.ListingIsUnique` | src/wallet/wallet.service.ts:110-115 | A table has at most one listing for a filter |
| `Pagination.ListingExists` | src/wallet/wallet.service.ts:110-115 | Every table has a listing for every filter |
| `Pagination.PageSize` | src/wallet/wallet.service.ts:99-102 | The size is 20 unless asked for, 1 below 1, 50 above 50, and as asked in between |
| `Pagination.FiltersNarrow` | src/wallet/wallet.service.ts:104-109 | Without a filter every transaction of the wallet is listed, and each given field keeps exactly those that have it |
| `Shipments.ProgressNeverRegresses` | src/dispatch/dispatch.service.ts:561-701 | A progress action never lowers a shipment's rank and never leaves a final status |
| `Shipments.LifeOfAShipment` | src/shipments/shipments.service.ts:103-112 | The ranks follow a shipment's life, and exactly its completed, cancelled and expired ends cannot be cancelled |
| `Shipments.ProgressTable` | src/dispatch/dispatch.service.ts:571-701 | From which statuses each progress action may be made and where it leads |
| `Shipments.OvertakenExactly` | src/dispatch/dispatch.service.ts:571-701 | Names, for each progress action, exactly the statuses from which its write would move a shipment back |
| `Shipments.JobFiresWhenFirstDue` | src/shipments/shipments.service.ts:1342-1370 | The queue job's delay ends at the first moment at which the dispatch guard finds the shipment due |
| `Shipments.DueIsMonotone` | src/dispatch/dispatch.service.ts:1735-1752 | A shipment that is due stays due |
| `DispatchTables.QueryMatchesGuards` | src/dispatch/dispatch.service.ts:1687-1733 | The reconcile query selects precisely the shipments that pass the dispatch guards at the same time |
| `DispatchWinner.OneWinnerPerShipment` | src/dispatch/dispatch.service.ts:1066-1317 | With dispatches, accepts, counters and declines split into reads and writes that may overwrite newer rows, and shipments and assignment statuses edited at will, no reachable state has two accepted offers for one shipment |
| `DispatchWinner.OneOfferPerProvider` | prisma/schemas/dispatch.prisma:71 | However dispatches and replies overlap, a provider has at most one offer of a shipment |
| `DispatchWinner.RunKeeps` | src/dispatch/dispatch.service.ts:716-901 | The inductive invariant: an accepted offer belongs to the provider the shipment is assigned to, offers are in the one batch of their shipment, one offer per batch and provider |
| `DispatchWinner.CommitKeeps` | src/dispatch/dispatch.service.ts:1195-1307 | The writes of an accept keep that invariant although its reads may be stale |
| `DispatchWinner.LateDispatchKeeps` | src/dispatch/dispatch.service.ts:278-312 | The writes of a dispatch keep it although its guards and its batch read may be stale |
| `DispatchWinner.WriteReplyKeeps` | src/dispatch/dispatch.service.ts:736-744 | The unconditional write of a counter or decline keeps it on any tables |
| `DispatchWinner.SendOffersKeeps` | src/dispatch/dispatch.service.ts:286-304 | Sending offers adds only new sent offers, one per provider of the batch |
| `DispatchAgreement.AssignedEverywhereOrNowhere` | src/dispatch/dispatch.service.ts:1540-1590 | When calls do not overlap, after every run a shipment has an assignment exactly when its batch is assigned, exactly when one of its offers is accepted |
| `DispatchAgreement.AssignmentNamesTheWinner` | src/dispatch/dispatch.service.ts:1228-1307 | When calls do not overlap, the assignment names the accepted offer and its provider, and no offer of an assigned shipment is sent, viewed or countered |
| `DispatchAgreement.AgreedPriceIsShipmentPrice` | src/dispatch/dispatch.service.ts:862-868 | When calls do not overlap, the agreed price and currency are the shipment's own, final price before quoted, and the price is never below its price at creation |
| `DispatchAgreement.AcceptedOnlyWhenAllowed` | src/dispatch/dispatch.service.ts:1406-1500 | An offer becomes accepted only by its own provider while sent or viewed and unexpired, or by its shipper while countered, with the provider available and of the shipment's category |
| `DispatchAgreement.AcceptedExactlyWhenAllowed` | src/dispatch/dispatch.service.ts:1452-1500 | On agreeing tables a call makes an offer accepted exactly when it may: open to its provider and unexpired, or countered and open to its shipper, on a created, broadcasting or assigned shipment, with the provider available and of its category |
| `DispatchAgreement.AllowedAcceptWins` | src/dispatch/dispatch.service.ts:1195-1307 | An accept that may be made takes effect: the offer wins, the shipment is assigned to its provider at the counter's amount and currency, or at the shipment's own when it is not a counter, and the other open offers are cancelled |
| `DispatchAgreement.AssignmentIsForGood` | src/dispatch/dispatch.service.ts:1494-1500 | When calls do not overlap, an assignment keeps its provider, offer, price and currency over every run |
| `DispatchAgreement.LateDeclineBreaksExactlyAccepted` | src/dispatch/dispatch.service.ts:736-744 | A decline written late breaks the agreement exactly when the offer has been accepted meanwhile |
| `DispatchAgreement.LateCounterBreaksExactlyAssigned` | src/dispatch/dispatch.service.ts:889-901 | A counter written late breaks the agreement exactly when the shipment has been assigned meanwhile |
| `DispatchAgreement.LateProgressKeeps` | src/dispatch/dispatch.service.ts:561-701 | A progress write, however late, never breaks the agreement of the four tables |
| `DispatchAgreement.LateDispatchBreaksExactlyAssigned` | src/dispatch/dispatch.service.ts:278-312 | A dispatch written late breaks the agreement exactly when the shipment has been assigned meanwhile |
| `DispatchLifecycle.RunMovesForward` | src/shipments/shipments.service.ts:1177-1198 | When calls do not overlap, over any run a dispatch shipment's rank never falls, and completed, cancelled and expired are final |
| `DispatchLifecycle.CompletedTogether` | src/dispatch/dispatch.service.ts:665-701 | When calls do not overlap, a shipment is completed exactly when its assignment is |
| `DispatchLifecycle.CompletionIsTheProvidersDropoff` | src/dispatch/dispatch.service.ts:637-701 | When calls do not overlap, only the dropoff of the assigned provider, after pickup, completes a shipment |
| `DispatchLifecycle.CancelledForGood` | src/shipments/shipments.service.ts:1177-1198 | When calls do not overlap, a cancellation that succeeds holds over every continuation |
| `DispatchLifecycle.NextStatus` | src/dispatch/dispatch.service.ts:561-701 | Lists every status an uninterrupted call can write and the statuses it can write it from |
| `DispatchLifecycle.LateProgressMovesBackExactly` | src/dispatch/dispatch.service.ts:582-701 | A progress write that comes late moves the shipment forward exactly when its status is not overtaken: cancelled, expired or further on |
| `DispatchLifecycle.LateProgressPartsExactlyCompleted` | src/dispatch/dispatch.service.ts:582-701 | A progress write that comes late parts shipment and assignment exactly when it reopens a completed shipment |
| `DispatchLifecycle.LateCancelMovesBackExactly` | src/shipments/shipments.service.ts:1187-1198 | A cancellation written late moves the shipment forward exactly when it is neither completed nor expired by then |
| `DispatchLifecycle.LateCancelPartsExactlyCompleted` | src/shipments/shipments.service.ts:1187-1198 | A cancellation written late parts shipment and assignment exactly when the shipment has been completed meanwhile |
| `DispatchLifecycle.LateDispatchMovesBackExactly` | src/dispatch/dispatch.service.ts:306-313 | A dispatch written late moves the shipment forward exactly when it is still a draft, created or broadcasting |
| `DispatchReconcile.CountIsExact` | src/dispatch/dispatch.service.ts:398-421 | Without interference the loop's count is the number of selected shipments that found a provider |
| `DispatchReconcile.StillDueExactlyWhenUnserved` | src/dispatch/dispatch.service.ts:398-421 | Without interference, at any later time after the loop a handled shipment is still selected exactly when it found no provider; so a rerun dispatches none of the others again |
| `DispatchReconcile.OthersUntouched` | src/dispatch/dispatch.service.ts:398-421 | Without interference, the loop changes no shipment or batch it was not given |
| `DispatchReconcile.DispatchedOnceInSequence` | src/dispatch/dispatch.service.ts:243-274 | A call that reads its guards after a dispatch has committed never passes them, whatever uninterrupted calls happened in between |
| `DispatchReconcile.SecondDispatchExactly` | src/dispatch/dispatch.service.ts:278-312 | A second call that passed its guards before the first one's writes dispatches again exactly when it has read the first one's batch, not yet assigned |
| `DispatchReconcile.OverlappingCallDispatchesAgainExactly` | src/dispatch/dispatch.service.ts:278-312 | An overlapping second call that reads the batch after the first one's writes dispatches the shipment again exactly when nobody has been assigned by that read |
| `DispatchEligibility.FindEligibleProviders` | src/dispatch/dispatch.service.ts:1873-1941 | The filter loop keeps exactly the eligible providers, in order |
| `DispatchEligibility.ChosenExactlyWhenEligible` | src/dispatch/dispatch.service.ts:1873-1941 | A provider is chosen exactly when its category fits, its presence is live, it is within the radius, and a shipment it carries leads past the pickup |
| `DispatchEligibility.IdleProviderIsChosenExactly` | src/dispatch/dispatch.service.ts:1876-1908 | A provider that carries nothing is chosen exactly when its category fits, its heartbeat is no older than the cutoff and it is within the radius, bounds included |
| `DispatchEligibility.UnlocatedIsNeverChosen` | src/dispatch/dispatch.service.ts:1880-1923 | Nobody is chosen without a live position, and nobody busy without a known pickup and route |
| `DispatchEligibility.AlignedIsChosenExactlyOffTheAxes` | src/dispatch/dispatch.service.ts:1910-1934 | A busy provider whose route is aligned is nevertheless passed over exactly when its dropoff has a zero coordinate |
| `DispatchStore.AcceptIsRepeatable` | src/dispatch/dispatch.service.ts:1468-1487 | A repeated accept of one's own accepted offer succeeds and changes nothing |
| `DispatchStore.SecondAcceptFails` | src/dispatch/dispatch.service.ts:1468-1524 | Once a shipment is assigned, over every run of uninterrupted calls no offer of it can be accepted any more, by provider or shipper |
| `DispatchStore.Store.DispatchShipmentIfEligible` | src/dispatch/dispatch.service.ts:194-396 | A dispatched shipment broadcasts in an open batch in which every eligible provider has an offer; earlier offers, assignments and other shipments stay; agreement and progress are kept; otherwise no row changes |
| `DispatchStore.SendingReachesEveryone` | src/dispatch/dispatch.service.ts:291-304 | Sending keeps every offer there is, and on new ids every eligible provider has an offer of the batch afterwards |
| `DispatchStore.Store.DispatchDueShipments` | src/dispatch/dispatch.service.ts:398-421 | The loop leaves the tables of the successive dispatches and returns how many of them dispatched |
| `DispatchStore.Store.AcceptDispatchOffer` | src/dispatch/dispatch.service.ts:1373-1599 | On agreeing rows it succeeds exactly when the offer may be accepted or is the caller's own accepted one, and then wins at the shipment's own price |
| `DispatchStore.Store.AcceptShipmentDispatchOffer` | src/dispatch/dispatch.service.ts:1066-1317 | On agreeing rows it succeeds exactly when the counter may be accepted or already was; the assignment and the shipment take the counter's amount and currency, and name the offer and its provider |
| `DispatchStore.Store.CounterDispatchOffer` | src/dispatch/dispatch.service.ts:796-901 | Succeeds exactly when the counter may be made, and writes its amount and currency on that offer alone |
| `DispatchStore.Store.DeclineDispatchOffer` | src/dispatch/dispatch.service.ts:716-744 | Declines exactly a sent or viewed offer of the provider, and no other row |
| `DispatchStore.Store.DeclineShipmentDispatchOffer` | src/dispatch/dispatch.service.ts:946-1010 | Declines the shipper's countered offer, returns a declined one as it is, and changes no other row |
| `DispatchStore.Store.MarkEnRoutePickup` | src/dispatch/dispatch.service.ts:553-587 | Succeeds exactly for the assigned provider before pickup; then the pickup can be confirmed and the dropoff not yet; other shipments stay, agreement and progress are kept |
| `DispatchStore.Store.ConfirmPickup` | src/dispatch/dispatch.service.ts:602-637 | Succeeds exactly for the assigned provider up to pickup; then the dropoff can be confirmed and the way to the pickup is closed; other shipments stay, agreement and progress are kept |
| `DispatchStore.Store.ConfirmDropoff` | src/dispatch/dispatch.service.ts:652-701 | Finishes shipment and assignment together, after which nobody can progress or cancel the shipment; other rows stay, agreement and progress are kept |
| `DispatchStore.Store.CancelShipment` | src/shipments/shipments.service.ts:1143-1198 | Cancels exactly a shipment that is not final, after which no offer of it can be accepted and nobody can progress it; other shipments stay, agreement and progress are kept |
| `DispatchReplies.CounterGoesThroughExactly` | src/dispatch/dispatch.service.ts:796-901 | A counter is written exactly when the provider's own offer is sent or viewed and unexpired, the amount positive and above the price of a waiting shipment and the currency the shipment's up to letter case; it writes that amount and the currency in capitals |
| `DispatchReplies.DeclineGoesThroughExactly` | src/dispatch/dispatch.service.ts:716-744 | A decline is written exactly for the provider's sent or viewed offer, or the shipper's countered one |
| `DispatchOutcomes.ReachedProviderCanAccept` | src/dispatch/dispatch.service.ts:1373-1590 | After a dispatch, an available provider of the category whose sent, unexpired offer it reached can accept and wins |
| `DispatchOutcomes.DeliveryRunsToCompletion` | src/dispatch/dispatch.service.ts:194-701 | A due shipment is created, dispatched, accepted and delivered at its own price, whoever carries it |
| `DispatchOutcomes.AcceptedCounterIsAgreed` | src/dispatch/dispatch.service.ts:1228-1284 | A counter above the price that the shipper accepts is agreed at exactly its amount, which becomes the shipment's final price |
| `DispatchOutcomes.UninterruptedDispatch` | src/dispatch/dispatch.service.ts:209-312 | Begun and continued without interruption, a dispatch of the interleaved machine is the atomic one |
| `DispatchOutcomes.UninterruptedAccept` | src/dispatch/dispatch.service.ts:1373-1590 | The same for a provider's accept |
| `DispatchOutcomes.UninterruptedOwnerAccept` | src/dispatch/dispatch.service.ts:1066-1307 | The same for a shipper's accept |
| `DispatchOutcomes.UninterruptedReply` | src/dispatch/dispatch.service.ts:716-901 | The same for counters and declines |
| `MarketplaceTheorems.AwardNamesTheAcceptedBid` | src/market-place/market-place.service.ts:659-765 | When calls do not overlap, after every run a bid is accepted exactly when its shipment's award names it, and an awarded shipment has no active bid |
| `MarketplaceTheorems.AssignmentFollowsAward` | src/market-place/market-place.service.ts:735-752 | When calls do not overlap, a marketplace shipment is assigned exactly when it is awarded, to the awarded bid's provider, amount and currency |
| `MarketplaceTheorems.CompletedWithItsAssignment` | src/shipments/shipments.service.ts:2093-2170 | When calls do not overlap, a marketplace shipment is completed exactly when its assignment is |
| `MarketplaceTheorems.MovesBackExactlyWhenRevived` | src/market-place/market-place.service.ts:659-765 | When calls do not overlap, a reachable shipment moves to a lower rank exactly when it was cancelled and one of its bids is then awarded, because the award does not test the status |
| `MarketplaceTheorems.CancelledShipmentIsRevived` | src/market-place/market-place.service.ts:659-765 | A concrete run: create, bid, cancel, award leaves the shipment assigned |
| `MarketplaceTheorems.LateWithdrawalBreaksExactlyAccepted` | src/market-place/market-place.service.ts:614-647 | A bid withdrawal written late breaks consistency exactly when the bid was accepted meanwhile |
| `MarketplaceTheorems.LateEditBreaksExactlyAcceptedTerms` | src/market-place/market-place.service.ts:566-612 | A bid edit written late breaks it exactly when it changes the terms of an accepted bid |
| `MarketplaceTheorems.LateBidBreaksExactlyAwarded` | src/market-place/market-place.service.ts:499-564 | A bid written late breaks it exactly when the shipment was awarded meanwhile |
| `MarketplaceTheorems.LateAwardBreaksExactlyChangedTerms` | src/market-place/market-place.service.ts:680-752 | An award whose read of the bid is stale breaks consistency exactly when the bid's amount or currency has changed meanwhile |
| `MarketplaceTheorems.LateAwardMovesBackExactly` | src/market-place/market-place.service.ts:756-764 | An award written late moves the shipment forward exactly when it is still waiting or assigned |
| `MarketplaceTheorems.LateAdvanceBreaksExactlyCompleted` | src/shipments/shipments.service.ts:2150-2170 | A progress write that comes late breaks it exactly when it reopens a completed shipment |
| `MarketplaceTheorems.LateCancelBreaksExactlyCompleted` | src/shipments/shipments.service.ts:1187-1198 | A cancellation written late breaks consistency exactly when the shipment has been completed meanwhile |
| `MarketplaceTheorems.RunKeeps` | src/market-place/market-place.service.ts:471-770 | The consistency of bids, awards, assignments and statuses holds over every run of uninterrupted calls |
| `MarketplaceStore.AwardedOnce` | src/market-place/market-place.service.ts:699-709 | Once awarded, a shipment can never be awarded again |
| `MarketplaceStore.BidRunsToCompletion` | src/market-place/market-place.service.ts:471-770 | A bid is placed, awarded and delivered on its own amount and currency |
| `MarketplaceStore.Store.CreateShipmentBid` | src/market-place/market-place.service.ts:471-564 | Succeeds exactly on a created or broadcasting marketplace shipment of the driver's category, without an active or accepted bid of the provider; places its one bid at the given amount and currency, and no other bid changes |
| `MarketplaceStore.Store.UpdateShipmentBid` | src/market-place/market-place.service.ts:566-612 | Edits exactly an active bid of the provider; given terms replace the old, a withdrawn bid cannot be awarded, every other bid stays, consistency is kept |
| `MarketplaceStore.Store.WithdrawBid` | src/market-place/market-place.service.ts:614-647 | Withdraws exactly an active bid of the provider; it keeps its terms and can no longer be edited or awarded; every other bid stays, consistency is kept |
| `MarketplaceStore.Store.AwardShipmentBid` | src/market-place/market-place.service.ts:649-770 | Succeeds exactly for an active bid of an unawarded marketplace shipment; it is accepted, every other active bid of the shipment is rejected, no other bid changes, and the assignment has its terms |
| `MarketplaceStore.Store.UpdateProviderMarketplaceShipmentStatus` | src/shipments/shipments.service.ts:2093-2170 | The shipment moves forward and is completed exactly when its assignment is; after a dropoff nobody can progress it; other rows stay, consistency is kept |
| `Pricing.FeeIsLeastCover` | src/shipments/shipments.service.ts:1835-1841 | The distance fee is the least number of minor units that covers rate times metres over 1000 |
| `Pricing.FeeIsSubadditive` | src/shipments/shipments.service.ts:1835-1841 | Splitting a trip never makes it cheaper, and dearer by at most one minor unit |
| `Pricing.BasePriceIsLeast` | src/shipments/shipments.service.ts:1679-1687 | The base price is the least amount that reaches the minimum and covers fare and distance |
| `Pricing.BasePriceGrowsWithDistance` | src/shipments/shipments.service.ts:1835-1841 | A longer trip, rounded to metres, never has a smaller base price |
| `Pricing.MetresAreNearest` | src/shipments/shipments.service.ts:1835-1841 | Metres are the nearest whole number of the distance, and none for a negative one |
| `Pricing.CommissionIsGreatestWithin` | src/shipments/shipments.service.ts:2038-2045 | The commission is the greatest whole amount within the rate |
| `Pricing.CommissionIsWithinPriceExactly` | src/shipments/shipments.service.ts:2038-2045 | The commission never exceeds the price, for every price, exactly when the rate is at most 10000 basis points |
| `Pricing.SplittingLosesLittle` | src/shipments/shipments.service.ts:2038-2045 | Charging a price in n parts never raises the commission and loses fewer than n minor units |
| `Pricing.NewShipmentIsPriced` | src/shipments/shipments.service.ts:844-872 | A new shipment always has both prices: those given, else the base price of its distance as the quote and the quote as the final price; its commission is the floor of the rate on the final price |
| `Dashboard.DeliveryPerformanceSeries` | src/ops/admin-ops.service.ts:1097-1154 | The two loops give consecutive buckets from the one of the range's start to the one of its end, each with exactly its own delivered and delayed counts |
| `Dashboard.SeriesAccountsForEverything` | src/ops/admin-ops.service.ts:1097-1154 | The series is non-empty, gap-free and covers the range, and its sums are the counts between its first start and its last end |
| `Dashboard.TruncateFindsTheBucket` | src/ops/admin-ops.service.ts:1320-1329 | Truncation finds the one bucket in which a time falls |
| `Dashboard.WidthTable` | src/ops/admin-ops.service.ts:1320-1340 | An hourly bucket is an hour long, a daily one twenty-four |
| `Dashboard.NormalizeFilter` | src/ops/admin-ops.service.ts:991-1043 | The range is never empty or in the future; ends, starts, intervals and limits validly asked for are kept, and the defaults are the present, local midnight, days beyond two days, 20 and at most 200 |
| `Dashboard.NormalizedIsValid` | src/ops/admin-ops.service.ts:991-1043 | Those bounds hold of every normalized filter; without an interval, hours are chosen exactly up to two days; a replaced start is the local midnight of the end |
| `Dashboard.OrderStatusMetrics` | src/ops/admin-ops.service.ts:1212-1270 | The five counts are the counts of their classes and sum to the number of input shipments |
| `Dashboard.BelongsToExactlyOne` | src/ops/admin-ops.service.ts:96-120 | Every shipment belongs to exactly one of the five classes |
| `Dashboard.DelayedExactly` | src/ops/admin-ops.service.ts:1302-1318 | A shipment is delayed exactly when it is not done, cancelled or expired, was scheduled, and its grace is over |
| `Dashboard.MetricTable` | src/ops/admin-ops.service.ts:96-120 | Which statuses each count holds |
| `KycTheorems.ProfilesAgree` | src/kyc/kyc.service.ts:380-497 | When the calls of a provider do not overlap, after every run its stored profile, once it has a check, is the recomputation from all its checks |
| `KycTheorems.LateRefreshDisagreesExactly` | src/kyc/kyc.service.ts:499-607 | A refresh whose read of the checks is stale stores an agreeing profile exactly when the newest check of each type still shows the same columns and no check has been created since |
| `KycTheorems.ProfileComesFromNewestChecks` | src/kyc/kyc.service.ts:499-610 | The recomputed profile depends on nothing but the newest check of each type |
| `KycTheorems.VerifiedMeansBothNewest` | src/kyc/kyc.service.ts:612-649 | A profile is verified exactly when its level is 2, which counts the types whose newest check is verified |
| `KycTheorems.SummaryIsExact` | src/kyc/kyc.service.ts:541-607 | Failures, their messages, verification times, masks, confidence and the time of the last check are those of the newest checks, type by type |
| `KycTheorems.NewestIsTheLast` | src/kyc/kyc.service.ts:511-518 | The check kept for a type is the last one created of that type |
| `KycTheorems.FirstCreateAgreesExactlyWhenPlaced` | src/kyc/kyc.service.ts:380-465 | A provider's first create call leaves an agreeing profile exactly when no check has its vendor reference; otherwise the inserted profile keeps defaults that disagree |
| `Kyc.TextReadsBack` | src/kyc/kyc.service.ts:1186-1248 | Stored statuses and check types read back as what was stored |
| `Kyc.StoredStatusTable` | src/kyc/kyc.service.ts:1186-1209 | Which stored words mean verified, failed or pending, up to case and blanks |
| `Kyc.KindTable` | src/kyc/kyc.service.ts:1231-1248 | Which stored check types are blank, known or unknown |
| `KycStore.Store.LatestByKind` | src/kyc/kyc.service.ts:511-518 | The loop finds the newest check of each type, and throws exactly when some check type is unknown |
| `KycStore.Store.RefreshProviderKycProfile` | src/kyc/kyc.service.ts:499-610 | Stores the recomputed profile, or changes nothing when a check type is unknown |
| `KycStore.Store.CreateCheckAndRefreshProfile` | src/kyc/kyc.service.ts:380-465 | Succeeds exactly when no other check stands in the way of the vendor reference, and then the checks hold the answer and the profile agrees; other providers' checks and profiles stay |
| `KycStore.Store.UpdateCheckAndRefreshProfile` | src/kyc/kyc.service.ts:467-497 | Changes nothing, or leaves the answer in that one check and the profile of its provider in agreement; other checks and other providers' profiles stay |

## Left out

- WalletOutcomes.AcceptedWithdrawalCompletes: the steps of the call meet one oracle, so its generated ids and Paystack's answer are fixed from the start; likewise for the other callers advanced alone.
- WalletTheorems.WithdrawalAtomicity: a statement that throws has no effect; a write that commits although its caller sees an error is not modelled.
- WalletStore.Store.CreateFunding: one run without interference, in which the two writes of the key row may throw; races and other failures are the subject of the protocol modules.
- WalletStore.Store.CreateWithdrawal: one run without interference; races are the subject of the protocol modules.
- WalletTheorems.CompensationAtMostOnce: the count by reference text assumes that ids are UUIDs; on other ids two references can be the same text.
- WalletPayloads.RefusedExactlyWhenDifferent: the hash is represented by its canonical text, so SHA-256 counts as injective.
- CanonicalJsonTheorems.CanonicalTextIdentifies: a number is the token it prints as, a text of the number grammar; the conversion from binary floating point is not modelled; `undefined`, non-finite numbers and negative zero are not JSON values and do not occur.
- Pagination.PagesMakeUpTheListing: a cursor that is not a row of the filtered listing yields an empty page; the database's treatment of such cursors is not modelled.
- DispatchReconcile.CountIsExact: the query's order by schedule and creation time, and its choice among more due shipments than the worker takes, are not modelled; any duplicate-free due list is allowed.
- DispatchAgreement.AssignedEverywhereOrNowhere: each call runs without interference, and `updateShipment` does not occur; `LateDeclineBreaksExactlyAccepted`, `LateCounterBreaksExactlyAssigned`, `LateDispatchBreaksExactlyAssigned` and `LateProgressKeeps` say what late replies, dispatches and progress break. Accepts hold the row lock of the shipment.
- DispatchLifecycle.RunMovesForward: each call runs without interference; the `Late` lemmas of that module say what late progress, cancellations and dispatches break.
- DispatchLifecycle.CompletedTogether: likewise.
- DispatchLifecycle.CancelledForGood: likewise.
- DispatchReconcile.DispatchedOnceInSequence: the calls in between run without interference; `SecondDispatchExactly` is about overlapping ones.
- MarketplaceTheorems.AwardNamesTheAcceptedBid: each call runs without interference; the `Late` lemmas of that module say what late bids, awards, progress and cancellations break.
- MarketplaceTheorems.AssignmentFollowsAward: likewise.
- MarketplaceTheorems.CompletedWithItsAssignment: likewise.
- KycTheorems.ProfilesAgree: each call runs without interference between its check write and its refresh; `LateRefreshDisagreesExactly` says when a late refresh disagrees.
- DispatchEligibility.FindEligibleProviders: the great-circle distance is a parameter; the provider query's own conditions and priority order are in the given rows.
- Dashboard.DeliveryPerformanceSeries: days and hours have fixed widths; daylight saving changes and bucket labels are not modelled.
- Kyc.TextReadsBack: trimming covers the blanks, tabs and line ends of ASCII; other Unicode space does not occur.
- KycStore.Store.LatestByKind: checks stand in creation order, so equal creation times count as ordered by insertion.
- Pricing.FeeIsLeastCover: amounts and rates are not negative; BigInt division of negative operands truncates and is not modelled.
- Authorization, phone verification, currency and email checks of callers; roles and onboarding access.
- Saved card records, saved bank accounts and the parsing of webhook signatures and amounts.
- Paystack, push notifications, mail, the message queue, subscriptions and GraphQL mapping; shipment events and milestones.
- Administrator overrides of batches, offers and assignments; `updateShipment`, except as arbitrary shipment edits in `DispatchWinner`.
- Commission after a later price change, which the services do not recompute.
- Metadata, messages, response times and other columns that no modelled branch reads.
- Average delivery minutes, on-time rate, fleet widgets and the KYC payload purge: straightforward reads without further state.
