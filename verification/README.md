# Kahade: verified models of the money, lock, token and code paths

Kahade is a marketplace backend with escrow payments. This project models its stateful services in
Dafny 4.11 and proves what they keep over every run. `dafny verify dfyconfig.toml` checks all of it.

| file | subject |
|---|---|
| `common.dfy` | the optional value |
| `ledger.dfy` | double-entry journals, running balances, idempotent posting, the two health checks |
| `escrow.dfy` | the escrow engine as one state machine over wallets, escrows, orders, disputes and books |
| `escrow_agreement.dfy` | what each escrow journal moves |
| `escrow_theorems.dfy` | the invariants of every escrow run, and exactly when they fail |
| `escrow_acceptance.dfy` | when holds and resolutions are accepted, and runs that reach the failing inputs |
| `escrow_outcomes.dfy` | what each escrow operation leaves in the rows, what each refusal means, and how every escrow was closed |
| `escrow_service.dfy` | the service itself: row updates in a transaction, equal to the state machine |
| `locks.dfy` | sorted row locks under every schedule |
| `webhook.dfy` | the claim, process, mark or delete protocol of the payment webhooks |
| `tokens.dfy` | refresh tokens and blacklist in Redis and in memory |
| `like.dfy` | LIKE patterns |
| `totp.dfy` | one-time codes: base32, truncation, window |
| `lockout.dfy` | brute-force lockout in Redis and in memory |
| `voucher.dfy` | voucher validation, preview, list and application |
| `withdrawal.dfy` | withdrawal limits, cooling period and velocity score |

Code that updates rows, maps or arrays step by step is a class whose methods are proved equal to a
specification function on the state; the theorems are lemmas about those functions, and for every operation
some of them say in plain rows, amounts and times what it does. Pure code is a
function. Database transactions, HMAC, token hashing and the clock are foreign: a transaction is one
atomic step, HMAC is an arbitrary function with twenty-byte digests, a token is named by its hash, the
time is a parameter, and (createdAt, id) stamps are the database's choice.

Several promises hold only under a condition that the code does not check. Each such case is proved as
an if-and-only-if with the condition spelled out:

- Wallets and ledger agree after an escrow operation exactly when its idempotency key is unused: with a
  used key `createJournal` returns the old journal while the wallets still move. Two holds with one key
  reach that state.
- A release conserves money exactly when the platform fee is not negative. A negative fee that the
  buyer's other holds cover is accepted, and a run of two holds reaches that input.
- Running balances stay right exactly when late-stamped entries cancel out.
- A dispute split is journalled exactly when no part is negative. The verdicts `resolveDispute` declares
  are never accepted as target statuses, so the model takes the target status itself and records the
  refusal of the verdicts separately.
- Over runs of any length a webhook notification takes effect at most once exactly when both key lifetimes
  cover the gap after which it may still be redelivered, measured from its own claim.
- All notifications of one Midtrans transaction share a key, so that a settlement that follows a processed
  pending notification is answered as a duplicate and credits nobody.
- The token backends agree exactly when a store neither shortens the user's index nor moves a token
  between users.
- The lockout branches agree exactly for a maximum of two or more and either one login at a time or
  recordings that come within the window and that nothing changes between their read and their write:
  `recordFailedAttempt` awaits `hgetall`, computes, and then awaits the pipeline, so overlapping logins can
  lose updates. A check that deletes an expired lock awaits in the same way. The failure bound holds in
  memory exactly when the maximum is at least two and the lockout outlasts the window, and in Redis exactly
  when, in addition, no update is lost.
- A voucher's final amount lies between zero and the order amount exactly for non-negative terms and
  orders. A promo's `maxTotalUsages` is never checked.
- Withdrawal limits hold over all runs exactly when no status that a pending request can come to have, and
  that is out of the sums, changes back into one that counts.

Where comments in the source promise more than the code does, the model follows the code. The comment
that platform accounts net to zero is true only when the users' accounts do. The expiry sweep is
announced as releasing escrows; as SYSTEM it lacks the permission and releases none. The withdrawal
guard is not called by the withdrawal service, which has checks of its own; its theorems are about runs
in which it is used.

## Model

| member | source | states |
|---|---|---|
| `EscrowTheorems.EveryRunAgrees` | kahade-backend/src/core/escrow/escrow.service.ts:237-754 | from any solvent wallets, balanced books and no escrow, after every sequence of hold, release, refund, dispute, resolution, new wallet and order placement (keys unused, release fee not negative): each wallet's available amount differs from its ledger account by its initial difference, the holding account has grown by the open escrows' sum, each locked amount is the wallet's own open holds over its initial one, wallets plus fees are conserved, 0 <= locked <= balance, escrow and order rows are in lockstep, and each escrow has one lock journal and, once closed, one payout of exactly its amount |
| `EscrowTheorems.StepKeeps` | kahade-backend/src/core/escrow/escrow.service.ts:237-754 | each single operation keeps that invariant, also when buyer and seller share a wallet |
| `EscrowTheorems.AgreementExactlyWithoutReplay` | kahade-backend/src/core/escrow/escrow.service.ts:278-335 | an operation that was carried out keeps wallets and ledger in agreement if and only if its idempotency key had not been used by an earlier journal |
| `EscrowTheorems.ReplayMovesNoBalance` | kahade-backend/src/core/ledger/ledger.service.ts:113-124 | an operation carried out with a used key leaves the balance of the holding account as it was |
| `EscrowAcceptance.ReplayedHoldIsCarried` | kahade-backend/src/core/escrow/escrow.service.ts:278-335 | a hold that repeats a non-empty key of an earlier journal is carried out whenever the order is without escrow and the wallet covers it |
| `EscrowAcceptance.ReplayIsReachable` | kahade-backend/src/core/escrow/escrow.service.ts:278-335 | from every initial state whose buyer covers two orders, holding both with one key is a run after which wallets and ledger disagree |
| `EscrowTheorems.ReleaseExactlyWithFee` | kahade-backend/src/core/escrow/escrow.service.ts:374-450 | an accepted release always keeps wallets and ledger in agreement; locked amounts and conservation survive it if and only if the fee is not negative, the bound the code does not check |
| `EscrowTheorems.OverpaymentBreaks` | kahade-backend/src/core/escrow/escrow.service.ts:398-429 | a release accepted with a negative fee pays the seller more than was held: locked amounts fall below the open holds and money appears |
| `EscrowAcceptance.NegativeFeeBreaks` | kahade-backend/src/core/escrow/escrow.service.ts:374-450 | in every reachable state a release with a negative fee that the buyer's lock covers is accepted, and then locked amounts and conservation fail |
| `EscrowAcceptance.OverpaymentIsReachable` | kahade-backend/src/core/escrow/escrow.service.ts:374-450 | from every initial state whose buyer covers two orders, holding both and releasing the first with a fee of minus the second amount is such a run |
| `EscrowTheorems.StepFollowsTables` | kahade-backend/src/core/escrow/escrow.service.ts:53-94 | every step moves an escrow along its transition table with strictly falling rank or leaves it, never touches a closed one, and moves its order only along the order table, which the service never consults |
| `EscrowTheorems.RefundNeverStuck` | kahade-backend/src/core/escrow/escrow.service.ts:462-544 | in every reachable state a refund by the system of an open escrow, with any key, succeeds if and only if the key does not repeat the empty one |
| `EscrowTheorems.ReleaseAcceptedExactly` | kahade-backend/src/core/escrow/escrow.service.ts:347-457 | in every reachable state a release, with any fee and any key, succeeds if and only if the escrow is open, the actor is its buyer, it has a seller, amount minus fee is positive and within the buyer's lock, and the key does not repeat the empty one |
| `EscrowTheorems.ReleaseNeverStuck` | kahade-backend/src/core/escrow/escrow.service.ts:347-457 | in every reachable state a release with a fresh key succeeds if and only if the escrow is open, the actor is its buyer, it has a seller and the fee is below the amount |
| `EscrowAcceptance.HoldNeverStuck` | kahade-backend/src/core/escrow/escrow.service.ts:237-342 | with any key, fresh or used, createEscrow succeeds if and only if the order already has an escrow, or it exists, the wallet found for the buyer covers a positive amount and the key does not repeat the empty one |
| `EscrowOutcomes.HoldOfBuyerRow` | kahade-backend/src/core/escrow/escrow.service.ts:255-342 | stated over wallet rows: for the row whose user is the buyer a hold is accepted if and only if that row covers a positive amount, the order exists and the key does not repeat the empty one; it locks the amount in that row, adds an active escrow of buyer row, seller row (or none) and amount, pays the order, and changes no other row |
| `EscrowOutcomes.NoWalletNoHold` | kahade-backend/src/core/escrow/escrow.service.ts:258-265 | a user without a wallet row is refused |
| `EscrowOutcomes.ExistingEscrowIsReturned` | kahade-backend/src/core/escrow/escrow.service.ts:245-253 | an order with an escrow is answered with it, and nothing changes |
| `EscrowOutcomes.HoldRefusedExactly` | kahade-backend/src/core/escrow/escrow.service.ts:255-342 | each refusal of a hold is given exactly when its cause is the first to apply, and leaves everything as it was |
| `EscrowOutcomes.EveryRunKeepsUsersUnique` | kahade-backend/src/core/wallet/wallet.service.ts:268-275 | on every run a user has at most one wallet row |
| `EscrowAcceptance.ResolveAcceptedExactly` | kahade-backend/src/core/escrow/escrow.service.ts:599-754 | in every reachable state a resolution with a fresh key succeeds if and only if the escrow is disputed, the target status is in its table, the three parts are non-negative and add up to the amount, and there is a seller or no payout |
| `EscrowOutcomes.ReleaseLeaves` | kahade-backend/src/core/escrow/escrow.service.ts:431-447 | an accepted release leaves the escrow RELEASED, its order COMPLETED, its dispute row and every other escrow, order and dispute as they were |
| `EscrowOutcomes.RefundLeaves` | kahade-backend/src/core/escrow/escrow.service.ts:518-534 | an accepted refund leaves escrow and order REFUNDED and all other rows as they were |
| `EscrowOutcomes.ContestAcceptedExactly` | kahade-backend/src/core/escrow/escrow.service.ts:549-594 | in every reachable state a dispute is opened if and only if the escrow is active or held and the actor is a party of the order; escrow and order are DISPUTED, the dispute is the actor's, and no money moves |
| `EscrowOutcomes.ResolveLeaves` | kahade-backend/src/core/escrow/escrow.service.ts:699-747 | an accepted resolution gives a disputed escrow the target status, completes its order whatever that is, and closes the dispute by the resolver |
| `EscrowOutcomes.EveryRunIsExplained` | kahade-backend/src/core/escrow/escrow.service.ts:237-754 | on every run each escrow has a lock journal of its amount; a closed one was paid out by a journal of its amount, an adjustment when its dispute is closed, else a release if it is RELEASED and a refund if REFUNDED, and its order is REFUNDED exactly in the last case and COMPLETED otherwise |
| `EscrowOutcomes.ReleaseRefusedExactly` | kahade-backend/src/core/escrow/escrow.service.ts:347-430 | in every reachable state each refusal of a release is given exactly when its cause is the first to apply: unknown or closed escrow, not the buyer, no seller, repeated empty key, fee not below the amount, lock too small |
| `EscrowOutcomes.RefundDecidedExactly` | kahade-backend/src/core/escrow/escrow.service.ts:462-544 | in every reachable state a refund succeeds if and only if the escrow is open, the actor is the system or the seller and the key does not repeat the empty one, and each refusal names the first cause |
| `EscrowOutcomes.ContestRefusedExactly` | kahade-backend/src/core/escrow/escrow.service.ts:549-575 | each refusal of a dispute names the first cause |
| `EscrowOutcomes.ResolveRefusedExactly` | kahade-backend/src/core/escrow/escrow.service.ts:612-641 | a resolution is refused for its status, its sum and its missing seller in this order, and then changes nothing |
| `EscrowAcceptance.EveryRunKeepsLinks` | kahade-backend/src/core/ledger/ledger.service.ts:309-357 | on every run a journal with a dispute link is tagged with that dispute's order and is no lock, so an unresolved dispute still has its link unused |
| `EscrowAcceptance.HoldThenRefundRestores` | kahade-backend/src/core/escrow/escrow.service.ts:278-537 | from every reachable state a new hold followed by a system refund succeeds and restores every wallet row and every ledger balance |
| `EscrowTheorems.SystemReleaseIsRefused` | kahade-backend/src/core/escrow/escrow.service.ts:759-791 | the expiry sweep's release as SYSTEM is always refused and changes nothing |
| `EscrowTheorems.VerdictIsRefused` | kahade-backend/src/core/escrow/escrow.service.ts:620-624 | each declared verdict, cast to an escrow status, is refused in every state |
| `EscrowTheorems.ReleaseIsSettlement` | kahade-backend/src/core/escrow/escrow.service.ts:374-450 | an accepted release takes the whole amount from the buyer's balance and lock, pays amount minus fee to the seller and the fee to the platform, in wallets and in the ledger alike |
| `EscrowTheorems.RefundIsSettlement` | kahade-backend/src/core/escrow/escrow.service.ts:483-537 | an accepted refund unlocks exactly the held amount and returns it from the holding account to the buyer's account |
| `EscrowTheorems.ResolveIsSettlement` | kahade-backend/src/core/escrow/escrow.service.ts:626-747 | a resolution is accepted only as a division of the amount into three non-negative parts, which reach buyer, payee and fees in wallets and ledger |
| `EscrowTheorems.ResolveKeeps` | kahade-backend/src/core/escrow/escrow.service.ts:599-754 | a resolution with a genuine target status keeps the whole invariant |
| `EscrowTheorems.CreateKeeps` | kahade-backend/src/core/escrow/escrow.service.ts:237-342 | a new hold keeps the whole invariant |
| `EscrowAgreement.HoldMoves` | kahade-backend/src/core/ledger/ledger.service.ts:223-245 | recording a hold moves exactly the buyer's and the holding account by the amount, or nothing for a used key, and tags the order once as locked |
| `EscrowAgreement.ReleaseMoves` | kahade-backend/src/core/ledger/ledger.service.ts:250-277 | recording a release moves holding, seller and fee accounts by exactly their parts and counts one payout of the order |
| `EscrowAgreement.RefundMoves` | kahade-backend/src/core/ledger/ledger.service.ts:282-304 | recording a refund moves the holding account down and the buyer's account up by the amount |
| `EscrowAgreement.SplitMoves` | kahade-backend/src/core/ledger/ledger.service.ts:309-357 | a dispute split is journalled only with three non-negative parts and then moves each account by its part |
| `EscrowAgreement.FreshPostIsCreated` | kahade-backend/src/core/ledger/ledger.service.ts:104-142 | a balanced journal without a one-to-one link is recorded if and only if it does not repeat the empty key, and with an unused key it is a new one |
| `EscrowAgreement.SplitIsPosted` | kahade-backend/src/core/ledger/ledger.service.ts:309-357 | the split of a dispute not yet journalled is posted with an unused key if and only if no part is negative |
| `Escrow.Permitted` | kahade-backend/src/core/escrow/escrow.service.ts:177-228 | release is permitted to the buyer only, refund to the seller only, dispute to either, and none of them to the system |
| `EscrowServiceModel.EscrowService.CreateEscrow` | kahade-backend/src/core/escrow/escrow.service.ts:237-342 | the row updates of the transaction end in the state the specification step gives, or everything rolls back with its refusal |
| `EscrowServiceModel.EscrowService.ReleaseEscrow` | kahade-backend/src/core/escrow/escrow.service.ts:347-457 | as above for release: transfer, fee deduction, journal, statuses |
| `EscrowServiceModel.EscrowService.RefundEscrow` | kahade-backend/src/core/escrow/escrow.service.ts:462-544 | as above for refund |
| `EscrowServiceModel.EscrowService.InitiateDispute` | kahade-backend/src/core/escrow/escrow.service.ts:549-594 | as above for opening a dispute |
| `EscrowServiceModel.EscrowService.ResolveDispute` | kahade-backend/src/core/escrow/escrow.service.ts:599-754 | as above for resolution, with the seller's account falling back to the buyer's when there is no seller |
| `EscrowServiceModel.EscrowService.LockBalance` | kahade-backend/src/core/wallet/wallet.service.ts:611-672 | refuses a non-positive amount or one above balance minus locked, else raises locked by it and nothing else |
| `EscrowServiceModel.EscrowService.UnlockBalance` | kahade-backend/src/core/wallet/wallet.service.ts:677-715 | refuses a non-positive amount or one above locked, else lowers locked by it and nothing else |
| `EscrowServiceModel.EscrowService.TransferLockedBalance` | kahade-backend/src/core/wallet/wallet.service.ts:720-787 | moves the amount out of the payer's balance and lock into the payee's balance, with the refusals of the source |
| `EscrowServiceModel.EscrowService.PostHold` | kahade-backend/src/core/escrow/escrow.service.ts:299-323 | finds or opens the two accounts and posts the hold, as the books specification says |
| `EscrowServiceModel.EscrowService.PostRelease` | kahade-backend/src/core/escrow/escrow.service.ts:375-409 | finds or opens the three accounts and posts the release |
| `EscrowServiceModel.EscrowService.PostRefund` | kahade-backend/src/core/escrow/escrow.service.ts:484-508 | finds or opens the two accounts and posts the refund |
| `EscrowServiceModel.EscrowService.PostSplit` | kahade-backend/src/core/escrow/escrow.service.ts:643-693 | finds or opens the four accounts and posts the split |
| `Ledger.PostKeepsSound` | kahade-backend/src/core/ledger/ledger.service.ts:89-168 | every createJournal keeps keys and links unique, references valid, stamps distinct and every journal summing to zero |
| `Ledger.PostMovesBalances` | kahade-backend/src/core/ledger/ledger.service.ts:126-149 | an accepted journal moves each account by the sum of its own lines, counting several lines on one account |
| `Ledger.RunningBalancesExact` | kahade-backend/src/core/ledger/ledger.service.ts:543-565 | starting from correct running balances, one accepted journal leaves all of them correct if and only if its entries stamped before older entries of the same account cancel out |
| `Ledger.RunningBalancesOverRuns` | kahade-backend/src/core/ledger/ledger.service.ts:146-149 | after every run of createJournal under a monotone clock, each account's k-th row in (createdAt, id) order stores the sum of the first k amounts, and the last one stores the account balance |
| `Ledger.OnePostingKeepsRunning` | kahade-backend/src/core/ledger/ledger.service.ts:543-565 | the single step of that run theorem |
| `Ledger.RowsShowPrefixSums` | kahade-backend/src/core/ledger/ledger.service.ts:434-441 | correct running balances are the prefix sums of the sorted rows and end in the aggregated balance |
| `Ledger.LateStampBreaksRunning` | kahade-backend/src/core/ledger/ledger.service.ts:548-564 | a concrete late entry leaves an older row's running balance stale |
| `Ledger.RetryIsInvisible` | kahade-backend/src/core/ledger/ledger.service.ts:113-124 | a retry of an accepted keyed request, at any later point and with any content, changes neither the books nor anything posted afterwards |
| `Ledger.AcceptedRebuildsBooks` | kahade-backend/src/core/ledger/ledger.service.ts:104-142 | for every list of requests the books equal those from keeping only the accepted ones |
| `Ledger.AcceptedKeysDiffer` | kahade-backend/src/core/ledger/ledger.service.ts:113-124 | no two accepted requests share a non-null key |
| `Ledger.SumByJournalIsSumByAccount` | kahade-backend/src/core/ledger/ledger.service.ts:477-534 | for every table of entries the sum over journals is the sum over accounts |
| `Ledger.PlatformMirrorsUsers` | kahade-backend/src/core/ledger/ledger.service.ts:511-534 | in every sound ledger the platform total is exactly minus the users' total |
| `Ledger.HoldEffect` | kahade-backend/src/core/ledger/ledger.service.ts:223-245 | hold lines sum to zero and move just the two accounts |
| `Ledger.ReleaseEffect` | kahade-backend/src/core/ledger/ledger.service.ts:250-277 | release lines sum to zero for every fee and move just the three accounts |
| `Ledger.RefundEffect` | kahade-backend/src/core/ledger/ledger.service.ts:282-304 | refund lines sum to zero and move just the two accounts |
| `Ledger.SplitEffect` | kahade-backend/src/core/ledger/ledger.service.ts:322-345 | split lines, of which only positive parts are entered, sum to zero if and only if no part is negative |
| `Ledger.EnsureAccountIsNeutral` | kahade-backend/src/core/ledger/ledger.service.ts:366-425 | finding or opening an account keeps the books sound, moves no balance and never creates a second row for a key |
| `Ledger.LedgerService.CreateJournal` | kahade-backend/src/core/ledger/ledger.service.ts:89-168 | inserts journal, entries and running balances step by step and ends in the specified state and answer |
| `Ledger.LedgerService.UpdateRunningBalance` | kahade-backend/src/core/ledger/ledger.service.ts:543-565 | the walk over the sorted rows stores the account's total up to the entry's stamp in that entry only |
| `Ledger.LedgerService.FillRunningBalances` | kahade-backend/src/core/ledger/ledger.service.ts:146-149 | the loop gives every new row its total while the later rows are already present |
| `Ledger.LedgerService.RecordDisputeResolution` | kahade-backend/src/core/ledger/ledger.service.ts:309-357 | pushes the positive parts and posts the specified journal |
| `Ledger.LedgerService.GetOrCreateAccount` | kahade-backend/src/core/ledger/ledger.service.ts:366-425 | returns the one row of the key, created if missing |
| `Ledger.LedgerService.GetAccountBalance` | kahade-backend/src/core/ledger/ledger.service.ts:434-441 | on sound books with correct running balances the aggregate is what the account's last row in stamp order stores, and zero for an account without rows |
| `Ledger.LedgerService.VerifyAllJournalsBalanced` | kahade-backend/src/core/ledger/ledger.service.ts:477-506 | lists exactly the journals whose entries do not sum to zero; on sound books none, so it reports healthy |
| `Ledger.LedgerService.VerifyPlatformBalance` | kahade-backend/src/core/ledger/ledger.service.ts:511-534 | reports the platform total, which on sound books is minus what the users hold, and under each platform key the balance of the last account with that key |
| `WalletLocks.EveryScheduleCompletes` | kahade-backend/src/core/ledger/ledger-lock.service.ts:55-80 | for any wallets, any number of transactions and any wanted lists, duplicates included: under every schedule no row has two holders, the number of statements is bounded by the wanted ids plus one commit each, and a run that cannot be extended has finished every transaction |
| `WalletLocks.SomeoneCanStep` | kahade-backend/src/core/ledger/ledger-lock.service.ts:63-77 | in every reachable state with an unfinished transaction some unfinished one can step |
| `WalletLocks.ChainEnds` | kahade-backend/src/core/ledger/ledger-lock.service.ts:59-71 | each waiter waits for a holder that wants only later rows, so the chain of waiters ends |
| `WalletLocks.RunsAreBounded` | kahade-backend/src/core/ledger/ledger-lock.service.ts:55-80 | each statement uses up one unit of the remaining work |
| `WalletLocks.OperationHoldsAllRows` | kahade-backend/src/core/ledger/ledger-lock.service.ts:55-80 | whoever runs its operation holds every requested row and nobody else holds any of them |
| `WalletLocks.SortedIdsCorrect` | kahade-backend/src/core/ledger/ledger-lock.service.ts:59-60 | the locking order is ascending and has the same ids with the same multiplicities |
| `WalletLocks.UnsortedOrdersDeadlock` | kahade-backend/src/core/ledger/ledger-lock.service.ts:59-60 | without sorting there is a two-step run of two transactions into a state in which neither has ended and neither can step |
| `WalletLocks.LockService.Begin` | kahade-backend/src/core/ledger/ledger-lock.service.ts:55-63 | opens a transaction with the sorted copy of the ids |
| `WalletLocks.LockService.LockNext` | kahade-backend/src/core/ledger/ledger-lock.service.ts:63-77 | takes the next row unless another transaction holds it |
| `Webhook.AtMostOnceExactly` | kahade-backend/src/core/payment/webhook.controller.ts:99-139 | over runs of any length, allowing redeliveries up to a gap after a claim of the same notification is safe if and only if both key lifetimes cover the gap; and exactly then does a wallet show every notification that took effect just once |
| `Webhook.AtMostOnceOverRuns` | kahade-backend/src/core/payment/webhook.controller.ts:99-139 | on every run, however long, from any cache, under every interleaving of repeated, failing and crashing deliveries whose redeliveries come within both lifetimes of the key, each notification takes effect at most once and every wallet shows its initial amounts plus what the distinct ones that took effect add |
| `Webhook.SecondDeliveryAfterExpiry` | kahade-backend/src/core/payment/webhook.controller.ts:225-259 | a repeat claimed when its key has expired takes effect again, for every notification that applies twice |
| `Webhook.LateTopUpIsCreditedTwice` | kahade-backend/src/core/payment/webhook.controller.ts:285-303 | a paid top-up redelivered that late is credited twice |
| `Webhook.RunInvariant` | kahade-backend/src/core/payment/webhook.controller.ts:150-186 | on every such run the key of a delivery that has or may still take effect is in the cache until the gap after its claim has passed, with no second claimant |
| `Webhook.StepShowsApplied` | kahade-backend/src/core/payment/webhook.controller.ts:285-303 | each event changes a wallet only by the effect of the delivery it applies |
| `Webhook.TopUpCredits` | kahade-backend/src/core/payment/webhook.controller.ts:285-303 | a paid top-up raises exactly its wallet's balance, by the whole number nearest to a hundred times the amount, halves up |
| `Webhook.WholeTopUpCreditsIt` | kahade-backend/src/core/payment/webhook.controller.ts:285-303 | an amount of m hundredths is credited as m minor units |
| `Webhook.PaidAmountDecides` | kahade-backend/src/core/payment/webhook.controller.ts:266-283 | a paid amount other than zero decides the credit and the invoice amount is ignored |
| `Webhook.OtherTopUpsCreditNothing` | kahade-backend/src/core/payment/webhook.controller.ts:285-303 | a missing wallet fails the payment and an unpaid status changes nothing |
| `Webhook.PaidNotificationCredits` | kahade-backend/src/core/payment/webhook.controller.ts:266-303 | from the notification's fields: a documented top-up id with status PAID or SETTLED credits its wallet with the paid amount, any other status nobody |
| `Webhook.OrderPaymentSets` | kahade-backend/src/core/payment/webhook.controller.ts:305-340 | a paid order becomes paid, a failed one cancelled, and no other row changes |
| `Webhook.NotifiedOrderFollows` | kahade-backend/src/core/payment/webhook.controller.ts:266-340 | PAID and SETTLED pay the named order, EXPIRED and FAILED cancel it, any other status leaves it |
| `Webhook.DisbursementSets` | kahade-backend/src/core/payment/webhook.controller.ts:342-389 | a completed disbursement changes its status only; a failed one also unlocks its amount in its wallet, or fails without the wallet |
| `Webhook.DuplicateIsAnswered` | kahade-backend/src/core/payment/webhook.controller.ts:99-110 | while the key lives a delivery is answered and changes neither cache nor tables |
| `Webhook.FreshDeliveryApplies` | kahade-backend/src/core/payment/webhook.controller.ts:99-134 | a well-formed delivery without a live key applies its payload and leaves the key marked |
| `Webhook.FailedDeliveryFreesKey` | kahade-backend/src/core/payment/webhook.controller.ts:134-139 | a failed delivery changes no table and frees exactly its own key for the repetition |
| `Webhook.MalformedDeliveryBlocks` | kahade-backend/src/core/payment/webhook.controller.ts:112-116 | a malformed delivery keeps its key, so that its repetition is a duplicate until the key expires |
| `Webhook.PendingSwallowsSettlement` | kahade-backend/src/core/payment/webhook.controller.ts:225-259 | once the pending notification of a Midtrans transaction has been processed, its settlement is answered as a duplicate until the mark expires |
| `Webhook.DocumentedIdsRoute` | kahade-backend/src/core/payment/webhook.controller.ts:266-283 | for every row id without underscore the documented external ids lead to that wallet, order or withdrawal, whatever follows the id of a top-up |
| `Webhook.UnseparatedIdsCreditNothing` | kahade-backend/src/core/wallet/wallet.service.ts:278 | an external id without underscore, as the wallet service builds it for its own top-ups, credits no wallet |
| `Webhook.MidtransCreditsExactly` | kahade-backend/src/core/payment/webhook.controller.ts:391-432 | a Midtrans notification credits a wallet if and only if it is a captured or settled top-up that no fraud verdict objects to |
| `Webhook.MidtransOrdersFollow` | kahade-backend/src/core/payment/webhook.controller.ts:391-432 | an order is paid or cancelled exactly by the status table and the fraud verdict |
| `Webhook.WebhookController.SetIfAbsent` | kahade-backend/src/infrastructure/cache/cache.service.ts:113-141 | claims the key and its expiry exactly when no live entry exists |
| `Webhook.WebhookController.ClaimDelivery` | kahade-backend/src/core/payment/webhook.controller.ts:99-116 | a live key answers the delivery; a malformed payload is refused with the key left in place |
| `Webhook.WebhookController.ProcessTopUp` | kahade-backend/src/core/payment/webhook.controller.ts:285-303 | credits the wallet in one transaction, or fails without it and writes nothing |
| `Webhook.WebhookController.ProcessOrder` | kahade-backend/src/core/payment/webhook.controller.ts:305-340 | marks an existing order paid or cancelled and never fails |
| `Webhook.WebhookController.ProcessDisbursement` | kahade-backend/src/core/payment/webhook.controller.ts:342-389 | settles the withdrawal, or marks it failed and unlocks its amount together, rolling back without the wallet |
| `Webhook.WebhookController.ProcessDelivery` | kahade-backend/src/core/payment/webhook.controller.ts:118-139 | applies the payload or marks the delivery refused with every table as it was |
| `Webhook.WebhookController.SettleKey` | kahade-backend/src/core/payment/webhook.controller.ts:118-139 | success marks the key again, failure deletes it; either cache call may silently do nothing |
| `Tokens.BackendsAgree` | kahade-backend/src/core/auth/token-blacklist.service.ts:80-329 | with one token lifetime and one user per token, after any sequence of store, revoke, revoke by hash, revoke all, blacklist, probe, cleanup and clock steps both backends answer validateRefreshToken and isBlacklisted alike for every token |
| `Tokens.StepSimulates` | kahade-backend/src/core/auth/token-blacklist.service.ts:80-384 | one step of both backends keeps them in agreement about every token at once, cleanup and probing included |
| `Tokens.RunsSimulate` | kahade-backend/src/core/auth/token-blacklist.service.ts:80-384 | every admissible run keeps the backends in agreement |
| `Tokens.RevokeAllIsExact` | kahade-backend/src/core/auth/token-blacklist.service.ts:288-329 | revoke-all through the index kills exactly that user's live tokens and no other |
| `Tokens.RevokeIsExact` | kahade-backend/src/core/auth/token-blacklist.service.ts:228-282 | after a revocation neither backend accepts the token, it is out of its user's index, and no other answer has changed |
| `Tokens.RevokedUntilStored` | kahade-backend/src/core/auth/token-blacklist.service.ts:228-282 | from any state, over every later run, a revoked token is refused by both backends until it is stored again |
| `Tokens.AllRevokedUntilStored` | kahade-backend/src/core/auth/token-blacklist.service.ts:288-329 | so is every token of a user revoked together |
| `Tokens.StoredForItsLifetime` | kahade-backend/src/core/auth/token-blacklist.service.ts:148-218 | over every run that leaves it alone, cleanup included, a stored token is accepted for its user for exactly its lifetime in both backends |
| `Tokens.BlacklistedForItsTime` | kahade-backend/src/core/auth/token-blacklist.service.ts:80-138 | over every run a blacklisted token is on the list for exactly the given time in both backends |
| `Tokens.OthersUntouched` | kahade-backend/src/core/auth/token-blacklist.service.ts:107-186 | storing or blacklisting one token changes no answer about another, and neither list the other |
| `Tokens.NeverBlacklistedIsNot` | kahade-backend/src/core/auth/token-blacklist.service.ts:80-103 | a token that was never blacklisted is on neither list |
| `Tokens.StoreSafeExactly` | kahade-backend/src/core/auth/token-blacklist.service.ts:148-186 | after a store the backends agree on every later revoke-all if and only if the new index lifetime covers the user's other live tokens and the token is in nobody else's index |
| `Tokens.ShorterStoreDiverges` | kahade-backend/src/core/auth/token-blacklist.service.ts:170-172 | a longer-lived token of the same user survives revoke-all in Redis only |
| `Tokens.ReassignedTokenDiverges` | kahade-backend/src/core/auth/token-blacklist.service.ts:163-172 | a token that changed its user is revoked with its former user in Redis only |
| `Tokens.FixedLifetimeIsAdmissible` | kahade-backend/src/core/auth/token-blacklist.service.ts:148-186 | one lifetime and one owner per token make every store of a run admissible |
| `Tokens.MemoryTokenStore.RevokeAllUserTokens` | kahade-backend/src/core/auth/token-blacklist.service.ts:319-328 | the scan revokes exactly the user's unrevoked entries and counts them |
| `Tokens.MemoryTokenStore.CleanupExpiredEntries` | kahade-backend/src/core/auth/token-blacklist.service.ts:358-384 | deletes exactly the expired entries of both maps |
| `Tokens.MemoryTokenStore.IsBlacklisted` | kahade-backend/src/core/auth/token-blacklist.service.ts:93-103 | answers by the expiry and drops an entry found expired |
| `Tokens.MemoryTokenStore.StoreRefreshToken` | kahade-backend/src/core/auth/token-blacklist.service.ts:182-185 | replaces the entry of the hash and no other |
| `Tokens.MemoryTokenStore.RevokeRefreshTokenHash` | kahade-backend/src/core/auth/token-blacklist.service.ts:278-282 | stamps the entry as revoked if there is one |
| `Tokens.RedisTokenStore.StoreRefreshToken` | kahade-backend/src/core/auth/token-blacklist.service.ts:156-174 | sets the record, adds the hash to the index and moves the index expiry |
| `Tokens.RedisTokenStore.RevokeRefreshTokenHash` | kahade-backend/src/core/auth/token-blacklist.service.ts:262-270 | removes the hash from its user's live index and deletes the record |
| `Tokens.RedisTokenStore.RevokeAllUserTokens` | kahade-backend/src/core/auth/token-blacklist.service.ts:294-311 | deletes the record of every live index member and then the index |
| `LikePattern.SafePatternMeaning` | kahade-backend/src/common/utils/sql-safe.util.ts:77-100 | for every value and string the string matches the pattern exactly when the value is its prefix, suffix or substring, whatever wildcards or backslashes the value contains |
| `LikePattern.OrderedReplacesEscapeEach` | kahade-backend/src/common/utils/sql-safe.util.ts:85-89 | the three ordered global replaces equal one per-character escape |
| `LikePattern.OtherOrderDiffers` | kahade-backend/src/common/utils/sql-safe.util.ts:85-89 | escaping backslashes last would give a different string |
| `LikePattern.EscapedPrefixMatches` | kahade-backend/src/common/utils/sql-safe.util.ts:85-89 | an escaped value in front of a pattern matches exactly that value in front of a match |
| `Totp.CodeIsHotp` | kahade-backend/src/core/auth/mfa.service.ts:137-173 | for every key and non-negative counter the code of the base32 secret is six digits whose number is the RFC 4226 section 5.3 value of the digest of key and eight-byte counter |
| `Totp.DecodingInvertsBase32` | kahade-backend/src/core/auth/mfa.service.ts:138-152 | decoding inverts base32 of RFC 4648 section 6, padding included, for every byte string |
| `Totp.OtherCharactersAreSkipped` | kahade-backend/src/core/auth/mfa.service.ts:139-147 | a character outside the alphabet is skipped wherever it stands |
| `Totp.SmallLettersReadAlike` | kahade-backend/src/core/auth/mfa.service.ts:139 | small letters of a secret read like capitals |
| `Totp.TruncationIsHotp` | kahade-backend/src/core/auth/mfa.service.ts:163-170 | the masks, 32-bit shifts and ors compute the last 31 bits of the four digest bytes at the offset, modulo a million, for every twenty-byte digest |
| `Totp.GroupsReadBack` | kahade-backend/src/core/auth/mfa.service.ts:141-147 | reading five bits per character returns the encoded bits and fewer than five fill zeros |
| `Totp.BytesReadBack` | kahade-backend/src/core/auth/mfa.service.ts:148-151 | regrouping by eight returns the bytes and drops a rest shorter than a byte |
| `Totp.GeneratedSecretKeeps96Bits` | kahade-backend/src/common/utils/crypto.util.ts:103-114 | a generated twenty-character secret decodes to twelve bytes: the first 96 of its 100 bits |
| `Totp.PaddedDecimal` | kahade-backend/src/core/auth/mfa.service.ts:172 | padded to six places the decimal text has exactly six digits and the same value |
| `Totp.MaskIsRemainder` | kahade-backend/src/core/auth/mfa.service.ts:164-169 | a mask of k ones is the remainder modulo 2^k |
| `Totp.OrOfDisjointIsSum` | kahade-backend/src/core/auth/mfa.service.ts:166-169 | or of numbers with disjoint bits is their sum |
| `Totp.BigEndianBytesAreUnique` | kahade-backend/src/core/auth/mfa.service.ts:154-156 | the counter buffer is the only eight-byte big-endian form of the counter |
| `Totp.GenerateTOTP` | kahade-backend/src/core/auth/mfa.service.ts:137-173 | the two decoding loops and the truncation compute the specified code |
| `Totp.VerifyTOTP` | kahade-backend/src/core/auth/mfa.service.ts:108-132 | accepts exactly the codes of the 2w+1 counters around now, none for an unreadable secret or a negative window |
| `Lockout.BranchesAgreeExactly` | kahade-backend/src/core/auth/brute-force.service.ts:99-254 | for given bounds on delay from check to failure, on latency from read to write, on logins in flight, and with or without disturbed recordings: the Redis and memory branches give the same isLocked and lockedUntil at every moment of every such run if and only if the maximum is at least two and either logins come one at a time, or nothing is disturbed and failures come in time for the window (or the key dies as the window ends) |
| `Lockout.UndisturbedRunsAgree` | kahade-backend/src/core/auth/auth.service.ts:121-156 | the positive half, for every run of the login protocol, with equal failure logs |
| `Lockout.StepSimulates` | kahade-backend/src/core/auth/brute-force.service.ts:99-273 | one check, deletion, read, write, clear or clock step keeps both branches in step |
| `Lockout.SingleAttemptLocksDiffer` | kahade-backend/src/core/auth/brute-force.service.ts:186-228 | with a maximum below two the first failure locks in Redis and not in memory |
| `Lockout.LostUpdatesDiffer` | kahade-backend/src/core/auth/brute-force.service.ts:177-207 | for every maximum of two or more, two logins that both read before either writes make Redis count one failure for two, so that memory locks and Redis does not |
| `Lockout.LateFailuresDiffer` | kahade-backend/src/core/auth/brute-force.service.ts:181-236 | for every configuration a failure that comes too late, by delay or by latency, separates the branches: Redis keeps the old lock field, memory drops it |
| `Lockout.WindowsBoundedExactly` | kahade-backend/src/core/auth/brute-force.service.ts:214-254 | in memory no closed interval of window length holds more than the maximum plus p-1 failures since the last clear, on all runs with at most p logins in flight, if and only if the maximum is at least two and the lockout is longer than the window |
| `Lockout.ShortLockoutExceeds` | kahade-backend/src/core/auth/brute-force.service.ts:192-199 | a lockout no longer than the window lets single logins exceed the maximum in both branches |
| `Lockout.FirstFailureNeverLocks` | kahade-backend/src/core/auth/brute-force.service.ts:217-223 | with a maximum below two, two failures at one instant follow one another in memory |
| `Lockout.OverlapExceedsMaximum` | kahade-backend/src/core/auth/auth.service.ts:121-139 | two overlapping logins, though undisturbed, already put one failure more than the maximum at one instant |
| `Lockout.RedisWindowsBoundedExactly` | kahade-backend/src/core/auth/brute-force.service.ts:171-212 | in Redis, for failures that come in time, the bound holds on all runs if and only if the lockout is longer than the window and no record changes between a read and its write or a check and its deletion |
| `Lockout.RedisInheritsBound` | kahade-backend/src/core/auth/brute-force.service.ts:171-212 | the positive half; a single login at a time cannot be disturbed |
| `Lockout.LostUpdatesExceed` | kahade-backend/src/core/auth/brute-force.service.ts:177-207 | lost updates put two failures more than the maximum at one instant with two logins in flight |
| `Lockout.ReportMeans` | kahade-backend/src/core/auth/brute-force.service.ts:99-160 | a check reports a lock exactly while it lies ahead, with the fewest minutes that cover it and the count, and no lock and no count once it is over |
| `Lockout.KeyLivesInWholeSeconds` | kahade-backend/src/core/auth/brute-force.service.ts:202-205 | a hash lives for the least whole number of seconds that covers lockout and window |
| `Lockout.CheckIsBeginAndErase` | kahade-backend/src/core/auth/brute-force.service.ts:99-160 | an undisturbed check of the runs leaves the record that the call leaves, and lets a login through exactly when the call reports no lock |
| `Lockout.BruteForceService.CheckAccountLock` | kahade-backend/src/core/auth/brute-force.service.ts:99-160 | reports lock, remaining minutes and count, deletes an expired lock and touches no other account |
| `Lockout.BruteForceService.ReadAttempts` | kahade-backend/src/core/auth/brute-force.service.ts:177-179 | the awaited read gives the hash exactly while it is alive |
| `Lockout.BruteForceService.WriteAttempts` | kahade-backend/src/core/auth/brute-force.service.ts:181-212 | the pipeline stores what follows from the earlier read on the hash as it is at the write |
| `Lockout.BruteForceService.RecordInMemory` | kahade-backend/src/core/auth/brute-force.service.ts:214-254 | stores the specified record for that account only and says whether it locks |
| `Lockout.BruteForceService.RecordFailedAttempt` | kahade-backend/src/core/auth/brute-force.service.ts:165-254 | one undisturbed call: read, then write, in the branch in use |
| `Lockout.BruteForceService.ClearFailedAttempts` | kahade-backend/src/core/auth/brute-force.service.ts:259-273 | removes that account's record from the branch in use |
| `Lockout.BruteForceService.GetRemainingAttempts` | kahade-backend/src/core/auth/brute-force.service.ts:278-284 | zero while locked, else what is left of the maximum, never negative |
| `Vouchers.EveryRunIsAccounted` | kahade-backend/src/core/promo/promo.service.ts:478-572 | from unused vouchers every run of applyVoucher keeps: each counter equals its usage records and is within maxUsages, each user is within the per-user limit, each promo counter is the sum over its vouchers, every record has original = discount + final with final >= 0 and its voucher's discount, and keys are unique |
| `Vouchers.ApplyKeepsAccounts` | kahade-backend/src/core/promo/promo.service.ts:425-572 | one application keeps those books from any state in which they hold |
| `Vouchers.RepeatedKeyChangesNothing` | kahade-backend/src/core/promo/promo.service.ts:432-446 | once a usage carries a non-empty key, a request with that key after any further run changes nothing and is answered with that usage |
| `Vouchers.FinalWithinOrderExactly` | kahade-backend/src/core/promo/promo.service.ts:520-545 | 0 <= final <= original if and only if the order is not negative and the voucher's terms are not: nothing in the service checks either |
| `Vouchers.DiscountRespectsCap` | kahade-backend/src/core/promo/promo.service.ts:521-543 | a discount never exceeds the order nor a given cap, and an uncapped percentage is the amount's share rounded down |
| `Vouchers.FixedVoucherGrants` | kahade-backend/src/core/promo/promo.service.ts:534-543 | an accepted fixed voucher grants its face value, or the order amount when that is less, and nothing without a value |
| `Vouchers.PercentageVoucherGrants` | kahade-backend/src/core/promo/promo.service.ts:520-543 | an accepted percentage voucher grants its share with the rest dropped, the cap when the share exceeds it, and never more than the order |
| `Vouchers.AcceptedApplicationRecords` | kahade-backend/src/core/promo/promo.service.ts:547-590 | an accepted new application records voucher, user, order, amounts and key, answers with what it recorded, and counts one use of the voucher and its promo and of no other |
| `Vouchers.PromoCounterIsRecords` | kahade-backend/src/core/promo/promo.service.ts:566-572 | on sound books a promo's counter is the number of usage records of its vouchers |
| `Vouchers.ApplyAgreesWithValidate` | kahade-backend/src/core/promo/promo.service.ts:342-423 | with a fresh key application accepts exactly what validation accepts without a category, refuses for the same reason, and grants the previewed discount |
| `Vouchers.ValidatesExactly` | kahade-backend/src/core/promo/promo.service.ts:342-423 | the voucher of a code is accepted if and only if none of its eight conditions fails, the user's uses counted as records against the promo's limit or one, and refused for the first that fails in the source's order |
| `Vouchers.UnknownCodeIsNotFound` | kahade-backend/src/core/promo/promo.service.ts:348-354 | a code no voucher has is not found |
| `Vouchers.UpperCapitalises` | kahade-backend/src/core/promo/promo.service.ts:349 | codes count in capitals |
| `Vouchers.SecondEmptyKeyIsRefused` | kahade-backend/src/core/promo/promo.service.ts:432-446 | a second empty key is refused by the unique column and changes nothing |
| `Vouchers.ValidatedVouchersApply` | kahade-backend/src/core/promo/promo.controller.ts:220-241 | whatever validation accepted, with any category, applies at the previewed discount |
| `Vouchers.ApplyIgnoresCategories` | kahade-backend/src/core/promo/promo.service.ts:391-400 | a voucher refused for its category still applies while the user has uses left |
| `Vouchers.ListedExactlyWhenValid` | kahade-backend/src/core/promo/promo.service.ts:597-640 | a voucher is available to a user if and only if validation accepts it for every sufficient amount without category |
| `Vouchers.PromoTotalIsNotChecked` | kahade-backend/src/core/promo/promo.service.ts:566-572 | a promo at its total limit still counts further uses |
| `Vouchers.PreviewDiscount` | kahade-backend/src/core/promo/promo.controller.ts:220-241 | the endpoint's arithmetic gives the discount application grants: face value, or capped share with the rest dropped, within the order |
| `Vouchers.PromoService.ApplyVoucher` | kahade-backend/src/core/promo/promo.service.ts:425-572 | records, counts and answers as specified and keeps the books; a refusal or repeated key leaves every table as it was |
| `Vouchers.PromoService.ValidateVoucher` | kahade-backend/src/core/promo/promo.service.ts:342-423 | answers with the voucher or the first failing condition |
| `Vouchers.PromoService.GetAvailableVouchersForUser` | kahade-backend/src/core/promo/promo.service.ts:597-640 | lists exactly the available vouchers, once each, in the query's order, with positive remaining uses |
| `Vouchers.PromoService.CountUsages` | kahade-backend/src/core/promo/promo.service.ts:402-405 | counts the user's records of the voucher |
| `Withdrawals.AdmittedIsNeverFlagged` | kahade-backend/src/core/withdrawal/withdrawal-guard.service.ts:115-204 | on every run of guarded requests an admitted one scores at most 60, so the flag branch is never reached |
| `Withdrawals.EveryRunIsSpaced` | kahade-backend/src/core/withdrawal/withdrawal-guard.service.ts:177-198 | on every run one user's stored requests are at least an hour apart, whatever happens to their statuses |
| `Withdrawals.AtMostOneAtBound` | kahade-backend/src/core/withdrawal/withdrawal-guard.service.ts:222-243 | of requests an hour apart at most one is counted in the hour before an admitted request |
| `Withdrawals.AdmittedExactly` | kahade-backend/src/core/withdrawal/withdrawal-guard.service.ts:68-220 | a request is admitted if and only if it fits the per-transaction limit, what is left of its calendar day and month, and the hour since every earlier request has passed |
| `Withdrawals.RefusedExactly` | kahade-backend/src/core/withdrawal/withdrawal-guard.service.ts:27-60 | against the limits of each standing in rupiah, the first rule broken is the one reported, with what is left of the day or month |
| `Withdrawals.WaitIsLeast` | kahade-backend/src/core/withdrawal/withdrawal-guard.service.ts:177-198 | who is told to wait has asked within the hour, and the minutes are the fewest after which that is an hour ago |
| `Withdrawals.FlaggedExactly` | kahade-backend/src/core/withdrawal/withdrawal-guard.service.ts:222-243 | the score of three windows, counted in requests, flags a user exactly with two full windows and the third half full, and each window alone gives its points |
| `Withdrawals.LimitsHoldExactly` | kahade-backend/src/core/withdrawal/withdrawal-guard.service.ts:84-175 | over all runs from an empty table every day and month of every user stays within its limit if and only if no uncounted status reachable from pending changes back into a counted one |
| `Withdrawals.RecountingExceeds` | kahade-backend/src/core/withdrawal/withdrawal-guard.service.ts:84-109 | for every such move there is a run of admitted requests that takes a day over its limit |
| `Withdrawals.ReturningBreaksLimits` | kahade-backend/src/core/withdrawal/withdrawal-guard.service.ts:84-109 | a request that leaves pending for processing, failure or rejection and can come back breaks the limits on some run |
| `Withdrawals.NoReturnKeepsLimits` | kahade-backend/src/core/withdrawal/withdrawal-guard.service.ts:84-109 | limits hold whenever what is being processed, failed or rejected stays among these |
| `Withdrawals.EveryRunStaysWithin` | kahade-backend/src/core/withdrawal/withdrawal-guard.service.ts:84-175 | the positive half, from an empty table with fixed KYC levels |
| `Withdrawals.LateCompletionBreaksLimit` | kahade-backend/src/core/payment/webhook.controller.ts:342-389 | a reachable run in which a failed withdrawal completed later takes a day over its limit, as the disbursement webhook sets the status without reading it |
| `Withdrawals.WithdrawalGuardService.CheckWithdrawalLimits` | kahade-backend/src/core/withdrawal/withdrawal-guard.service.ts:68-220 | reports sums, limits, score and the first violated rule |
| `Withdrawals.WithdrawalGuardService.CalculateVelocityScore` | kahade-backend/src/core/withdrawal/withdrawal-guard.service.ts:222-252 | the three-window score, between 0 and 100 |
| `Withdrawals.WithdrawalGuardService.FlagWithdrawal` | kahade-backend/src/core/withdrawal/withdrawal-guard.service.ts:254-264 | marks that row only; an unknown row changes nothing |

## Left out

- Interleavings inside one escrow operation: the escrow row is read before the transaction opens (escrow.service.ts:350 and :374); each operation is one atomic step here.
- The wallet's version column with its retry loop, and transaction timeouts, which abort without effect.
- `createDoubleEntry` and `validateWalletLedger` of the lock service: they use columns and a table name the schema does not have.
- `recordDeposit` and `recordWithdrawal`: two-line `createJournal` requests of the same shape as hold and refund.
- Raw queries name the tables "Voucher", "Wallet" and so on while the schema maps them to other names, and `SELECT *` returns their columns in snake case, so that fields such as `voucher.maxUsages` and `voucher.currentUsages` (promo.service.ts:453-479) would read as undefined; the model reads them as the mapped tables and columns.
- Webhook.WebhookController.ProcessDelivery: signature and callback-token checks are not modelled; a delivery is one that passed them, and it carries the payload that the reading functions of the module give for its fields.
- Webhook.TopUpCredits: amounts are real numbers; a decimal amount that a JavaScript number misses by a rounding error may be rounded the other way there.
- Webhook lifetimes: the claim goes to Redis in seconds and the final mark through the cache manager, whose unit depends on its version, so the two lifetimes are separate parameters.
- Redis failing in mid-run: one backend serves a whole run. The numbers revoke-all returns are not compared, because Redis also counts index members whose token has expired.
- Vouchers.UpperCapitalises, Totp.SmallLettersReadAlike: upper-casing is ASCII only; the few other characters that JavaScript upper-cases into the alphabet are not modelled.
- Totp.VerifyTOTP: counters are unbounded integers; JavaScript numbers are exact up to 2^53 and the counter buffer takes 64 bits, both far beyond any time value.
- Lockout.BranchesAgreeExactly: compares isLocked and lockedUntil; attemptCount can differ after a Redis key has expired, because memory keeps the stale count. In a shared run a memory recording takes effect where the Redis write does; memory by itself is the case of latency zero.
- Lockout.BruteForceService.CheckAccountLock: one call that nothing disturbs between its read and its deletion, as RecordFailedAttempt is between its read and its write; the state machine has them as separate steps.
- Lockout.RedisWindowsBoundedExactly: states no bound for a maximum below two, where Redis locks at the first failure and memory does not, nor for failures that come too late for the window, after which the hash keeps an old lock whose deletion drops the failures counted since.
- Vouchers.EveryRunIsAccounted: vouchers and promos are fixed during a run; administrators changing limits or codes are not part of it. Percentages are hundredths, as the two-decimal column stores them.
- Withdrawals.LimitsHoldExactly: KYC levels are fixed during a run and amounts are not negative; check and insertion are one step; some day of the calendar is longer than five hours, as every calendar has.
- `transaction.service.ts` and `order.service.ts`: a second payment path that locks totals without journals; mixed with the escrow path it breaks the ledger agreement.
- `api/webhooks`, administrative withdrawal approval and `escrow-timeout.job.ts`: they move money or status outside the escrow discipline.
- Dispute chat, delivery confirmation, notifications, ratings, referrals, KYC review, uploads, reports, controllers and the frontend.
