# Verified model of the vectorspace ad server

A Dafny model of the parts of vectorspace that decide who wins an ad impression, what a click
costs, and who is trusted, with machine-checked proofs of what they promise.

`dafny verify dfyconfig.toml` checks everything.

## What is modelled

- **The auction in embedding space.** Bids carry a price, an embedding and a radius σ, and
  compete on log₅(price) − distance²/σ² at a query point. `Scoring`, `Ranking`, `Auction` and
  `Payment` follow `auction/`: filters, one best bid per bidder, a descending sort, a Fisher–Yates
  shuffle of every tie block, and a per-click price. `Truthful` proves that bidding one's value is
  dominant with the floor, the clamp, the σ = 0 branch and the random ties included.
  `EnclaveAuction` follows the second, independently written copy in `enclave/auction/`, and
  `Equivalence` proves that both copies have the same outcomes wherever their floors coincide.
- **The callers.** `Engine` runs one auction per query point and serves the best pair of bid and
  point. `EnclaveState` and `PrivateAuction` follow the snapshots pushed to the enclave and the
  auction run on them, and prove that right after a sync the enclave answers as the platform would.
- **Money.** `Billing` is the in-memory budget ledger mirrored to a table. `Settlement` is a state
  machine whose steps interleave clicks, redirects, relocation fees, registrations, deletions and
  restarts, with every database call free to fail; `Conservation` accounts for every budget on its
  runs, and `Clicks` is the sequential handler code and its place among the interleaved steps.
- **Trust.** `TrustLedger` is the transactional ledger of attestations, edges and log entries that
  e-mail messages drive; `TrustGraph` compares its two aggregations.
- **Positions.** `Registry` covers keyword groups with rollback, group deletion and loading;
  `RegistrySteps` interleaves what those calls do to the positions and to the cached version under
  one acquisition of the registry's lock; `Versions` covers the digest that serves as ETag;
  `EmbeddingSync` the clients that cache by it; `Keywords` the comma-separated lists; `FrequencyCap` the impression counter.

Code that works by mutation is a class or an in-place method here, proved against a specification
function; the theorems are about those functions, or about runs of a state machine built on them.

## How to read the assumptions

- Floating-point numbers are exact reals, without NaN; the infinities that the code tests for are
  separate constructors of `Distance` and `Score`. The 4-decimal rounding of the enclave's floor is
  explicit. `Versions` assumes of a float's bit pattern only that different values have different
  bits, so it does not cover negative zero.
- Logarithm and power are any pair `LogScale` that obeys the usual laws (`Lawful`), a hypothesis of
  the theorems that need it. The SHA-256 digest is any function; theorems about versions assume that
  it does not collide on the streams at hand. The embedder is any partial function from texts.
- Randomness is a parameter: one draw per array position, so "for all draws" is every outcome. In the
  adserver copy a draw that the random source fails to deliver skips its swap, which equals one of the draws; in the
  enclave copy it would panic, which is not modelled.
  `sort.Slice` is unstable; its result is a parameter constrained only to be a sorted permutation.
  Map iteration order is a parameter, too.
- A database call that fails has no effect. Clock readings lie later than the zero time by more than
  the length of a window. Transactions are single steps, and AUTOINCREMENT columns are counters. JSON
  survives being stored and read back. IDs are ASCII.

## What the proofs found

- A click check that fails (`handler/events.go:30-31`) logs the click without charging it:
  `Clicks.AcceptedClickIsChargedIffRead`. A click insert that fails after the charge lets the
  auction be charged again, exactly if memory has room for twice the payment
  (`Clicks.ChargedAgainIffLost`); n lost inserts can mean n + 1 charges
  (`Clicks.ChargeBoundIsReached`), and never more (`Settlement.ChargesAreBounded`).
- A winner's budget key that cannot be looked up never misdirects a charge: the fallback to the
  winner's own ID finds its own budget or none. The key is that under which the winner's ID was
  registered last (`Settlement.ChargesAreRecordedPayments`). A restart issues again every ID above the
  highest that is left (`Registry.RestartReissuesIff`), and a first click on an old auction of such an
  ID charges its new holder (`Clicks.ReissuedIdIsCharged`).
- A restart between a charge and its click log counts like a click insert that fails: the auction can
  be charged again (`Settlement.ChargesAreBounded`).
- A budget update resets spent in memory but not in the table, so the two disagree from then on
  unless nothing was spent: `Billing.BudgetUpdateAgreesIffUnspent`, and then
  `Billing.SilentRefusal` says when a refusal of the table goes unnoticed.
- The second write of a group's member (`platform/registry.go:200-203`) keeps the cached version. That
  leaves the version out of date exactly if one is cached and the write changes an embedding
  (`RegistrySteps.StepKeepsCacheIff`, `CacheSurvivesIff`), as after a delete or an update of the member
  and a version request between its two writes (`RegistrySteps.OvertakenSecondWriteIsStale`). Clients
  then get 304 and lack the member (`EmbeddingSync.OvertakenMemberStaysUnknown`).
- `/embeddings` reads version and positions under separate locks (`handler/publisher.go:193-200`). A
  change in between leaves a client with the wrong tag, and if the change is undone later it stays
  stale under 304 (`EmbeddingSync.TornReadStaysStale`).
- So "after each sync the client's embeddings are the server's" is false of some runs, for these two
  reasons and no other (`EmbeddingSync.UntornSyncsAgree`). A sync misses exactly if the server's
  version stands for the same embeddings as at the last full answer, which carried others than the
  server's (`EmbeddingSync.SyncedClientsAgreeIff`).
- A counter update whose read fails starts the count over and reports success
  (`platform/db.go:667-678`). Each such impression lets M − 1 more through, and each whose update is
  not written one more, beyond the 2M − 1 that any interval of the window's length can hold; no
  smaller bound is true (`FrequencyCap.SlidingWindowBound`, `BoundIsReached`).
- A group delete that fails midway removes the head's row and leaves members' rows
  (`Registry.PartialDeleteStrandsMembers`); after a restart those members name a head that does not
  exist. A keyword group that fails leaves the rows whose compensating delete fails, unnoticed
  (`Registry.NoStraysIffUndone`).
- If the highest ID cannot be read at startup, numbering starts over, and the k-th registration
  replaces a live position exactly if the row of adv-k was loaded: the next one exactly if adv-1 was
  (`Registry.RestartedNumberingReplaces`, `NextReplacesIffAdv1`).
- The registry locks each map write, not each call, so its calls interleave: a member written after
  its head was deleted is left without a head, as are the members of a group while its rollback is
  under way (`RegistrySteps.HeadsSurviveIff`, `WriteAfterDeleteStrands`, `RollbackStrandsMeanwhile`).
- An embedder that returns an empty vector makes an empty query point, where σ = 0 keywords compete
  on price alone (`Engine.KeywordReach`).
- The two floors differ, by less than 10⁻⁴ and by any smaller amount
  (`EnclaveAuction.FloorRoundingGap`, `EveryGapOccurs`), as the repository's README says; the copies
  agree at every floor to which no price below it is rounded up, and so at the floor 0 that the
  enclave passes (`Equivalence.ImplementationsAgreeAtFloor`).
- A self-attestation counts twice as much in the allowlist as in its node
  (`TrustGraph.SelfAttestationCountsDouble`).

## Model

| member | source | states |
|---|---|---|
| Scoring.SquaredEuclideanDistance | auction/embedding.go:17-29 | the loop computes the squared distance, +Inf for empty or differently long vectors |
| Scoring.DistanceSq | auction/embedding.go:17-29 | distance zero exactly for two equal non-empty vectors |
| Scoring.DistanceTerm | auction/embedding.go:35-48 | penalties are non-negative; at σ = 0 the penalty is 0 at the embedding itself and infinite everywhere else |
| Scoring.DistanceByInnerProducts | auction/embedding.go:17-29 | the accumulated sum is ‖a‖² + ‖b‖² − 2⟨a, b⟩, an independent definition of the squared distance |
| Scoring.PenaltyIsDistanceInSigmas | auction/embedding.go:35-48 | for σ ≠ 0 the penalty times σ² is the squared distance, and it is infinite exactly for different dimensions |
| Scoring.OneSigmaCostsAFactorOfFive | auction/embedding.go:5-13 | with base 5, a position one σ away scores like a fifth of its price |
| Scoring.ScoreOrderIsEffectivePriceOrder | auction/embedding.go:52-61 | comparing scores is comparing price · B^(−term) |
| Ranking.ShuffleRange | auction/ranking.go:49-60 | the in-place Fisher–Yates loop computes the specified shuffle of one block and touches nothing outside it |
| Ranking.BreakTies | auction/ranking.go:34-47 | the in-place scan shuffles exactly the blocks of equal scores, left to right |
| Ranking.RankByScore | auction/ranking.go:12-29 | the result lists exactly the scored bids, best score first |
| Ranking.RankingsShareScores | auction/ranking.go:23-28 | all descending orders of the same bids have the same scores at the same ranks |
| Ranking.TieBreakingIsExact | auction/ranking.go:34-60 | the draws produce precisely the descending orders of the bids, each from exactly one draw sequence |
| Auction.EnforceBidFloor | auction/floor.go:6-15 | splits the bids into those at or above the floor and the IDs of the others, in order |
| Auction.RejectNonPositive | auction/auction.go:13-21 | splits off the bids without a positive price |
| Auction.CollapseBids | auction/auction.go:38-61 | the map and order slice hold the specified per-bidder collapse |
| Auction.CollapseIsFirstBest | auction/auction.go:38-61 | the collapse keeps exactly one entry per bidder: its best score, and the first bid that reaches it |
| Auction.CandidatesScored | auction/auction.go:38-65 | every candidate is an input bid that passed both filters, ranked by its own score |
| Auction.OutcomeSorts | auction/auction.go:13-36 | every bid is eligible, rejected for its price or rejected by the floor, and listed as such |
| Auction.RunAuction | auction/auction.go:10-77 | the whole auction returns the specified outcome of its draws, one of the possible results, with every bid eligible or listed under the reason why not |
| Auction.PossibleIffDrawn | auction/auction.go:10-77 | the possible results are exactly those of some draw sequence |
| Payment.PaymentIsCriticalPrice | auction/vcg.go:19-50 | the winner pays the price at which it would tie with the second-highest bidder score, or the floor; floor ≤ payment ≤ bid, so the final clamp never binds; a tied winner pays its bid |
| Payment.PaymentIgnoresTiesBelowWinner | auction/vcg.go:24-49 | the payment does not depend on how ties below the winner fall |
| Payment.ThresholdTies | auction/vcg.go:29-37 | the threshold is the winner's price that would tie with the runner-up, and at most the winner's bid exactly if the runner-up does not outscore it |
| Payment.PaymentIsExternality | auction/vcg.go:6-18 | a payment above the floor, times the winner's relevance, is the runner-up's effective price, for every ranking |
| Payment.EqualDistanceIsSecondPrice | auction/vcg.go:6-18 | at equal distances the payment is the runner-up's price |
| Truthful.OthersBest | auction/auction.go:38-65 | the best score among the other bidders' eligible bids, reached by one of them |
| Truthful.CriticalPriceDecides | auction/vcg.go:19-50 | above its critical price a bidder wins under every tie-break and pays exactly it; below, it loses |
| Truthful.OutOfReachNeverWins | auction/auction.go:67-71 | a bidder whose positions are all infinitely far away never wins, at any price |
| Truthful.TruthfulBiddingIsDominant | auction/vcg.go:19-50 | for every value, other price and tie-breaks on both sides, bidding the value is at least as good, and never a loss |
| Truthful.WinnerHasHighestEffectivePrice | auction/auction.go:63-71 | no eligible bid has a higher price · B^(−term) than the winner |
| EnclaveAuction.EnforceBidFloor | enclave/auction/floor.go:16-29 | splits the bids by the rounded comparison |
| EnclaveAuction.FloorRoundingGap | enclave/auction/floor.go:7-14 | rounding rejects nothing that meets the floor, and lets through only bids less than 10⁻⁴ below it |
| EnclaveAuction.EveryGapOccurs | enclave/auction/floor.go:7-14 | 10⁻⁴ is sharp: every smaller gap is let through somewhere |
| EnclaveAuction.RoundIsNearest | enclave/auction/floor.go:7-14 | the rounding is to a nearest integer, halves away from zero |
| EnclaveAuction.FloorsDiffer | enclave/auction/floor.go:7-14 | 0.99995 passes a floor of 1 in the enclave copy and not in the other |
| EnclaveAuction.EnclaveSquaredEuclideanDistance | enclave/auction/embedding.go:17-28 | the second distance loop, under which two empty vectors are at distance 0 |
| EnclaveAuction.ScoresAgree | enclave/auction/embedding.go:35-58 | both copies penalise and score every positive bid alike |
| EnclaveAuction.CollapseEntries | enclave/auction/ranking.go:35-55 | the collapse with a seen-set computes the same collapse |
| EnclaveAuction.RankEntries | enclave/auction/ranking.go:29-104 | ranks, highest bids and sorted bidders describe one descending order of the collapsed entries, whatever unstable order the sort delivers (the same code ranks core bids by price at lines 108-180) |
| EnclaveAuction.ByIdHoldsLast | enclave/auction/auction.go:57-66 | of several entries by one ID the last is the one found |
| EnclaveAuction.EnclaveRunAuction | enclave/auction/auction.go:23-101 | the whole enclave auction returns the specified outcome of its sort order and draws, with every bid eligible or listed under the reason why not |
| EnclaveAuction.EnclavePossibleIffDrawn | enclave/auction/ranking.go:62-89 | the draws over any one sorted order already reach every outcome; the unstable sort adds none |
| Equivalence.EligibleAgreeIff | enclave/auction/floor.go:16-29 | both copies let the same bids through exactly if no positive price is below the floor and rounds to it |
| Equivalence.ImplementationsAgreeAtFloor | enclave/auction/auction.go:23-101 | for bids with distinct IDs, at any floor to which no lower price rounds, the two implementations have exactly the same possible (winner, runner-up, payment) outcomes, with a query, with mismatched dimensions and without one |
| Equivalence.ImplementationsAgree | enclave/auction/auction.go:23-101 | so they have at floor 0, the floor that the enclave passes, for every list of bids with distinct IDs |
| Equivalence.EnclavePaymentNearFloor | enclave/auction/vcg.go:39-47 | at any floor an enclave payment that is a number is above floor − 10⁻⁴ and at most the bid; below the floor it is exactly the bid; duplicate IDs included |
| Billing.DB.Charge | platform/db.go:472-497 | fails on an error or without a row, refuses without room, and otherwise adds the amount to the spent column; nothing else changes |
| Billing.BudgetTracker.SetDB | platform/billing.go:36-57 | loads total, spent and currency of every readable row, or nothing if the listing fails, with the table attached all the same |
| Billing.LoadedExactly | platform/billing.go:36-57 | a load gives each listed, readable advertiser its row's total, spent and currency, and leaves every other as it was |
| Billing.BudgetTracker.Charge | platform/billing.go:80-104 | succeeds exactly if memory has room and the table reports no error; what memory and table hold afterwards, a table without room left as it was |
| Billing.ChargeKeepsAgreement | platform/billing.go:80-104 | from agreeing books a charge is all or nothing on both sides, and never overspends |
| Billing.SilentRefusal | platform/billing.go:96-100 | the dropped boolean hides a refusal exactly if memory has room that the table does not have |
| Billing.BudgetUpdateAgreesIffUnspent | platform/billing.go:60-66 | a budget update keeps memory and table in agreement exactly if nothing was spent |
| Billing.LoadAgrees | platform/billing.go:36-57 | loading keeps agreement and knows every readable row |
| Settlement.ChargesAreBounded | handler/events.go:26-43 | in every interleaving, restarts included, an auction is charged at most once more than it has attempts that had charged when their click insert failed or a restart cut them off |
| Settlement.SettledExactlyOnce | handler/events.go:26-43 | if no database call fails and no restart cuts a request off between charge and click, every auction with a positive payment and a logged click was charged exactly once, or never if the handler has no budget tracker |
| Settlement.ChargesAreRecordedPayments | handler/events.go:31-36 | with or without failures and restarts, every click charge is the recorded payment of a recorded auction, made for its recorded winner; and every click or fee is charged to the key under which its winner's or position's ID was registered last when the charge was made, even if the key could not be looked up |
| Settlement.DueIsKeyed | handler/events.go:47-59 | on every run, a request due to charge a winner in the registry, or in a row that can be read, goes on with the key under which the winner's ID was registered last |
| Settlement.AdmittedIff | handler/events.go:117-192 | a click gets in exactly if it names the recorded winner of a recorded auction, a redirect exactly if the auction has one |
| Settlement.RelocationIsChargedIff | platform/registry.go:296-305 | on every run, a relocation fee is charged to the position's registered key exactly if its budget has room and the table works |
| Settlement.DeletedIsUncharged | platform/registry.go:330-358 | a position deleted with its budget can no longer be charged, nor does a restart bring it back |
| Conservation.BudgetsAreConserved | platform/billing.go:80-104 | after every step of every run, restarts included, a budget's spent is the sum, since its key was last registered, of the recorded payments of the settled clicks whose winners were then registered under it, and of the relocation fees of such positions; it lies between 0 and the total, and memory and table agree |
| Conservation.NoSilentRefusal | platform/billing.go:96-100 | on those runs the dropped boolean never hides a refusal |
| Clicks.UninterruptedRunSettles | handler/events.go:26-43 | a request that holds the mutex uninterrupted has the response, click log and books of the sequential settlement |
| Clicks.SettlementIsAnswered | handler/events.go:26-43 | 402 and nothing moved exactly if a charge is due that the budget has no room for or the table fails; otherwise the click is logged, unless that fails with 500, and a due charge is made |
| Clicks.ClickIsSettledOnRegisteredBudget | handler/events.go:26-59 | on every run that answer is the one for the budget under which the winner's ID was registered last, so a group member's click spends the group's budget |
| Clicks.AcceptedClickIsChargedIffRead | handler/events.go:30-37 | an accepted first click on a payable auction is charged exactly if budgets are tracked and both the click check and the payment could be read |
| Clicks.ChargedAgainIffLost | handler/events.go:30-41 | once an auction was charged, the next faultless click charges it again exactly if the first click's insert was lost and memory has room for twice the payment |
| Clicks.ChargeBoundIsReached | handler/events.go:26-43 | the bound on charges is sharp: for every n some run loses n click inserts and charges the auction n + 1 times |
| Clicks.ReissuedIdIsCharged | handler/events.go:26-43 | after its winner was deleted, the server restarted and the ID issued again, the first click on an auction charges the new holder |
| Clicks.EventHandler.SettleClick | handler/events.go:26-43 | check, charge and log as the settlement answers, on the budget of the winner's position in the registry, or else in the table, or else of its ID, for every combination of failing calls |
| Clicks.EventHandler.HandleClick | handler/events.go:117-156 | a click must name the recorded winner of a recorded auction; otherwise 400 and nothing moves |
| Clicks.EventHandler.HandleClickRedirect | handler/events.go:161-192 | a redirect settles for the recorded winner and goes on to the winner's address, 302, or answers 200 if there is none; otherwise 400 or 404 and nothing moves |
| Engine.EmbedQuery | platform/engine.go:191-206 | the query points, or the first text that could not be embedded |
| Engine.QueryIsRead | platform/engine.go:191-206 | the points are the given embedding, or the texts' embeddings in order; the error names the first text without one |
| Engine.BuildBids | platform/engine.go:213-248 | the bids of the positions whose currency was asked for and whose budget covers their price |
| Engine.LiveBidsAreIn | platform/engine.go:213-248 | the bids are those of the positions, in order, that ask for an allowed currency, dollars by default on both sides, and whose budget covers their price; each in the name of the holder of its budget |
| Engine.AuctionPerPoint | platform/engine.go:253-268 | the loop keeps the first auction with the strictly highest winning score |
| Engine.BestIsMaximal | platform/engine.go:253-268 | no other point's top score exceeds the chosen one's, earlier points are strictly below it, and none is chosen exactly if none has a winner |
| Engine.ServedIsArgmax | platform/engine.go:191-269 | the winner has the maximum score over all pairs of a live eligible bid and a query point; floor ≤ payment ≤ bid; its currency was asked for and its remaining budget covers the payment |
| Engine.NoBidExactly | platform/engine.go:250-269 | once the query is read, no-bid means exactly that no eligible live bid has a finite score at any point |
| Engine.ExactMatchIsServed | platform/engine.go:253-268 | a σ = 0 winner with an embedding is served at a point equal to it, or at an empty point |
| Engine.KeywordReach | auction/embedding.go:35-61 | where a σ = 0 position can compete, in both directions |
| Engine.AuctionEngine.RunORTBAuction | platform/engine.go:191-310 | the whole call, read from the request alone: it sells to the head of a ranking whose score nobody exceeds at any point, for its critical price, which its budget covers; every error exactly where it belongs; a logged row with winner and payment, none for a test request |
| Engine.AnswerIsRight | platform/engine.go:191-310 | the same of the specified answer |
| EnclaveState.PositionStore.ReplaceAll | enclave/state.go:19-27 | the store holds exactly the snapshot, under each ID the last one with that ID |
| EnclaveState.PositionStore.GetAll | enclave/state.go:30-38 | every position once, in the order of the iteration |
| EnclaveState.BudgetStore.ReplaceAll | enclave/state.go:54-62 | the store holds exactly the snapshot, under each key the last one with that key |
| EnclaveState.CollectBudgets | tee/sync.go:28-46 | one snapshot per budget key that a position spends from and the tracker knows |
| EnclaveState.SyncFromPlatform | tee/sync.go:10-48 | afterwards the stores copy registry and budgets field by field, whatever the iteration order |
| EnclaveState.FilterMirrorsPlatform | enclave/process.go:64-66 | a synced position passes the enclave's budget filter exactly if it passes the platform's |
| PrivateAuction.BuildBids | enclave/process.go:62-76 | the bids of the positions whose budget covers their price |
| PrivateAuction.FilterByTau | enclave/process.go:83-91 | the bids within the relevance threshold |
| PrivateAuction.ProcessPrivateAuction | enclave/process.go:48-111 | the response or the error of each stage, read from the stores alone, and the embedding zeroed in every case |
| PrivateAuction.ProcessIsRight | enclave/process.go:48-111 | for every threshold: a sale is to the head of a ranking of exactly the affordable positions within tau, at its critical price, with their number; no-one-passed exactly if something is affordable and nothing of it within tau; the other errors exactly where they belong |
| PrivateAuction.SyncedBidsMirrorPlatform | enclave/process.go:62-76 | right after a sync the enclave's budget-filtered bids are exactly those of the platform's affordable positions |
| PrivateAuction.SyncedOutcomesAgree | enclave/process.go:54-111 | for every tau, right after a sync the enclave's possible (winner, payment, currency, bid count) responses are exactly the platform's among its affordable positions within tau, over all iteration orders and tie-breaks |
| PrivateAuction.TauFiltersAgree | enclave/process.go:83-91 | the relevance filter agrees with the adserver's distance unless both vectors are empty |
| TrustLedger.ComputeWeight | trust/ledger.go:490-508 | a positive review count decides, as a hundredth of it and at least 0.1; otherwise a positive duration, or 1 |
| TrustLedger.Ledger.RecordAttestation | trust/ledger.go:88-141 | the tables after recording, or unchanged with the error |
| TrustLedger.Ledger.ConfirmAttestation | trust/ledger.go:144-212 | succeeds exactly for the subject of a pending attestation; the tables after confirming, or unchanged with the error |
| TrustLedger.Ledger.RevokeAttestation | trust/ledger.go:216-273 | succeeds exactly for a party of an attestation not yet revoked; the tables after revoking, or unchanged with the error |
| TrustLedger.Ledger.ProcessMessage | trust/smtp.go:61-191 | routes a message by its action and returns the exact error; whatever is rejected changes nothing |
| TrustLedger.RejectedIffUnlogged | trust/smtp.go:61-191 | a message is rejected exactly if it changes nothing, and accepted exactly if it leaves one more log entry |
| TrustLedger.RejectedFor | trust/smtp.go:61-191 | each error exactly where it belongs: unproven origin first, then missing fields, then the database, then the state of the attestation and who sends |
| TrustLedger.FirstMessageAttests | trust/smtp.go:103-150 | an ID is taken exactly by the first message that gets through and attests, for what its sender says; only platform ratings stand at once |
| TrustLedger.PartiesDecide | trust/ledger.go:144-273 | after that only its status changes: confirmed exactly by its subject while pending, revoked exactly by either party, and left alone by every other message |
| TrustLedger.OthersMoveNothing | trust/smtp.go:61-191 | a message that is unproven, fails or names another ID moves nothing of an attestation |
| TrustLedger.LoggedAsSent | trust/ledger.go:119-267 | the entry of a message carries its sender, ID, action and proof of origin |
| TrustLedger.LogIsEntitled | trust/ledger.go:171-245 | on every run, by the log alone: who confirms is the subject that the attestation's entry names, who revokes that subject or the attestor |
| TrustLedger.HandledIsLogged | trust/smtp.go:117-191 | a message changes nothing, or does exactly what its one new log entry says |
| TrustLedger.ReplayRebuilds | trust/ledger.go:119-125 | replaying the log of any run from empty rebuilds the same attestations, edges and log |
| TrustLedger.LogGrammar | trust/ledger.go:119-267 | the log entries of an ID are: none; attest; attest, confirm; attest, revoke; attest, confirm, revoke; and they tell its status |
| TrustLedger.EdgesMatchStatus | trust/ledger.go:128-257 | confirmed bilateral: two mirrored edges of equal weight; confirmed unilateral: one; otherwise none; in every reachable state |
| TrustLedger.RevokedIsFinal | trust/ledger.go:231-257 | no later message changes a revoked attestation, its edges or its log entries |
| TrustGraph.TrustedAddrsExactly | trust/ledger.go:454-488 | the list holds exactly the addresses of the graph that meet the thresholds, with their grouped counts, in descending order |
| TrustGraph.Handshake | trust/ledger.go:454-488 | the counts of the full list add up to twice the number of edges |
| TrustGraph.EndsAreTouchesPlusSelf | trust/ledger.go:328-345 | a grouped count is the node's count plus the self-edges at the address, for each kind |
| TrustGraph.KindsAddUp | trust/ledger.go:328-345 | in both aggregations bilateral and unilateral edges add up to all |
| TrustGraph.ListedIffNodeMeets | trust/ledger.go:328-345 | when GetNode's counts decide membership of the list: exactly, and without self-edges unconditionally |
| TrustGraph.BilateralCountsAreEven | trust/ledger.go:190-209 | in every reachable state each address touches an even number of bilateral edges |
| TrustGraph.SelfAttestationCountsDouble | trust/ledger.go:454-488 | a confirmed self-attestation counts 2 in GetNode and 4 in the list |
| Keywords.SplitKeywords | handler/openrtb.go:110-122 | the loop computes the cleaned list of the comma-separated parts |
| Keywords.CleanList | platform/registry.go:157-167 | the hygiene loop of keyword groups, the same computation |
| Keywords.CleanExactly | handler/openrtb.go:110-122 | exactly the non-empty trimmed parts, each once, in the order of first occurrence |
| Keywords.TrimDropsOnlySpace | handler/openrtb.go:110-122 | trimming takes nothing but space from both ends, and all of it |
| Keywords.SpaceCodes | handler/openrtb.go:110-122 | the code points that count as space |
| Keywords.SplitTakesCommas | handler/openrtb.go:110-122 | splitting takes out the commas and nothing else |
| Keywords.SplitYieldsKeywordList | handler/openrtb.go:110-122 | entries are distinct, trimmed, non-empty and comma-free |
| Keywords.JoinRoundTrips | platform/engine.go:296 | splitting the joined form of such a list gives the list back |
| Keywords.JoinConcat | platform/engine.go:296 | joining puts a comma and a space between any two parts of the list |
| Keywords.LoggedKeywordsRoundTrip | platform/engine.go:296 | so does splitting the logged form of any request's keywords |
| Versions.NumberOfId | platform/db.go:547-559 | the number read from an issued ID is the one it was issued with, so different numbers give different IDs |
| Versions.LessIsLexicographic | platform/registry.go:412 | the order of IDs is that of the first character in which they differ |
| Versions.AscendingUnique | platform/registry.go:407-412 | only one sequence lists a set of IDs in ascending order |
| Versions.ComputeVersion | platform/registry.go:406-424 | the version is a function of the embeddings alone, not of the map iteration order |
| Versions.LittleEndianReads | platform/registry.go:417-421 | the eight bytes of a float, lowest first, read back as its bits |
| Versions.StreamDecodes | platform/registry.go:414-422 | for issued IDs of any length and embeddings of one dimension, equal streams come from equal IDs with equal embeddings |
| Versions.VersionIdentifiesEmbeddings | platform/registry.go:406-424 | barring a digest collision, versions are equal exactly if the embeddings are |
| Registry.PositionRegistry.Register | platform/registry.go:102-127 | one new position under the next ID, or nothing if the text cannot be embedded |
| Registry.PositionRegistry.RegisterWithBudget | platform/registry.go:132-147 | a failed insert is reported while the position stays in memory |
| Registry.PositionRegistry.RegisterKeywordGroupWithBudget | platform/registry.go:156-230 | succeeds exactly if every keyword can be embedded, inserted and recorded; then exactly one position and row per keyword were added, at the keyword's own embedding, on the campaign's terms, on the first one's ID and its budget; otherwise the positions are what they were, and of the rows exactly those remain whose compensating delete failed |
| Registry.MemberAt | platform/registry.go:197-208 | the j-th new ID holds the j-th keyword's position, pointing at the first |
| Registry.MembersUndone | platform/registry.go:176-186 | rolling the members back gives the positions from before |
| Registry.NoStraysIffUndone | platform/registry.go:176-223 | the rows after a failed group are those from before exactly if no compensating delete failed |
| Registry.StraysAre | platform/registry.go:176-223 | each row that a failed group leaves is the full row of a keyword whose compensating delete failed |
| Registry.MembersKeepSound | platform/registry.go:195-230 | a group keeps every budget ID naming a present head that holds its own budget |
| Registry.PositionRegistry.Update | platform/registry.go:243-312 | the edit of what the registry held when the update began, written back whatever became of it since; identity and budget are kept, and the position changes even if the write to the table fails |
| Registry.EditedExactly | platform/registry.go:252-286 | an edit fails exactly without a position or an embedding of a new intent; what it keeps and changes, field by field, a new intent with its own embedding |
| Registry.PositionRegistry.Delete | platform/registry.go:330-358 | memory loses exactly the position and those that spend its budget; their rows go, its own first, up to the first that cannot be deleted |
| Registry.GroupDropKeepsHeads | platform/registry.go:337-346 | whoever is left after a delete still has its head |
| Registry.PartialDeleteStrandsMembers | platform/registry.go:349-355 | a failed delete leaves no stranded member row exactly if nothing or everything of the group was deleted |
| Registry.PositionRegistry.SetDB | platform/registry.go:77-99 | the positions and the numbering after a load; from an empty registry, it is sound exactly if no row is stranded and the highest ID could be read (or there are no rows) |
| Registry.RestartedNumberingReplaces | platform/db.go:547-559 | if the highest ID could not be read, the k-th registration replaces a live position exactly if the row of the k-th ID was loaded |
| Registry.NextReplacesIffAdv1 | platform/registry.go:92-96 | so the next registration does exactly if adv-1 is among the rows |
| Registry.ContinuedNumberingReplacesNothing | platform/db.go:547-559 | if it was read, no registration ever replaces a loaded position |
| Registry.MaxNumberAttained | platform/db.go:547-559 | the number that numbering goes on from is that of a listed ID |
| Registry.RestartReissuesIff | platform/db.go:547-559 | after a restart exactly the IDs above the highest in the table are issued again |
| Registry.PositionRegistry.EmbeddingsVersion | platform/registry.go:381-399 | the cached version, whatever it stands for, or else that of the current positions |
| RegistrySteps.StepKeepsHeadsIff | platform/registry.go:176-208 | exactly which lock-sized step leaves some budget ID without a present head that holds its own budget |
| RegistrySteps.HeadsSurviveIff | platform/registry.go:176-346 | over any interleaving of such steps the heads survive throughout exactly if every step was safe when it was taken |
| RegistrySteps.WriteAfterDeleteStrands | platform/registry.go:200-205 | a member may be written before the delete of its head and never after it, be it by either write of its group or by an update |
| RegistrySteps.RollbackStrandsMeanwhile | platform/registry.go:176-186 | a rollback removes the head first, so its members stand without a head meanwhile |
| RegistrySteps.StepKeepsCacheIff | platform/registry.go:200-203 | barring collisions, a step leaves the cached version out of date exactly if it is the second write of a group, a version is cached, and the embedding written is not there already |
| RegistrySteps.CacheSurvivesIff | platform/registry.go:379-404 | over any interleaving of lock-sized steps the cached version is never out of date exactly if no second write does so |
| RegistrySteps.OvertakenSecondWriteIsStale | platform/registry.go:196-203 | a delete or a move of the member between its two writes, and a request for the version before the second, leave it out of date |
| EmbeddingSync.HandleEmbeddings | handler/publisher.go:187-228 | 304 exactly if the tag is that of the server's version, cached or computed, otherwise that tag, quoted, over the positions read later, each field where it belongs: a request and its answer |
| EmbeddingSync.EmbeddingCache.Receive | sdk-web/src/embedding-cache.ts:39-47 | 200 replaces embeddings and tag, 304 and errors change nothing |
| EmbeddingSync.NotModifiedIff | handler/publisher.go:193-200 | a request is answered 304 exactly if the client's tag and the server's version stand for the same embeddings; otherwise the client has what the server holds at the second read, under that version |
| EmbeddingSync.SyncedClientsAgreeIff | sdk-web/src/embedding-cache.ts:32-48 | on every run of lock-sized registry steps, requests, answers and losses, a sync ends with other embeddings than the server's exactly if it is a 304, the version stands for the same embeddings as at the last full answer, and that answer carried others than the server's |
| EmbeddingSync.UntornSyncsAgree | sdk-web/src/embedding-cache.ts:32-48 | so a sync agrees if no second write left the version out of date and nothing moved between the two reads of the last full answer, whatever was torn before |
| EmbeddingSync.TornReadStaysStale | handler/publisher.go:193-200 | a position written between the two reads and taken back later leaves a client stale under 304 |
| EmbeddingSync.OvertakenMemberStaysUnknown | platform/registry.go:196-203 | a client that syncs, untorn, while a group's member is deleted between its two writes gets 304 from then on and lacks the member |
| FrequencyCap.Database.IncrementFrequencyCap | platform/db.go:662-691 | opens a window or counts within it; a failed read opens one, too, and only a failed write is reported |
| FrequencyCap.Database.HandleImpression | handler/events.go:69-113 | which impressions are accepted, and the counter afterwards |
| FrequencyCap.SlidingWindowBound | platform/db.go:636-691 | whatever calls fail: any closed interval as long as the window holds at most 2M − 1 accepted impressions, plus M − 1 for each of them that started the count over after a failed read, plus one for each whose update was not written |
| FrequencyCap.BoundIsReached | platform/db.go:636-691 | for every cap, window, and number of resets and lost updates some run reaches that bound |
| FrequencyCap.UncountedNeverCapped | handler/events.go:103-109 | if every counter update is lost, or starts over under a cap of two or more, every impression is accepted |

## Left out

- Conservation.BudgetsAreConserved: the settlement machine has no budget updates, on which the code does not keep agreement, and no restart that cannot read the highest ID, after which registrations replace live positions; ResetStats, which drops the auctions table, is not a step either.
- Registry.PositionRegistry.RegisterKeywordGroupWithBudget: runs alone here; its interleavings are those of `RegistrySteps`, on the positions and the version in memory and not on the rows, with a member's budget ID set by its second write, where the code sets it on the shared object just before.
- Registry.PositionRegistry.Update: the relocation fee is charged in `Settlement` with an arbitrary amount, its square root left out.
- Registry.PositionRegistry.SetDB: its soundness is stated for a registry that was empty before, which is how the server calls it.
- Truthful.TruthfulBiddingIsDominant: one query point only; with several points the best point's competition decides, and no such claim is made.
- Equivalence.ImplementationsAgreeAtFloor: distinct IDs, since the enclave looks a bid up by its ID; what it then pays is bounded by `Equivalence.EnclavePaymentNearFloor`, which leaves out the payment that is not a number: duplicate IDs by which winner and runner-up both become bids of infinite penalty.
- PrivateAuction.SyncedOutcomesAgree: positions and budgets are snapshotted with no change in between, although the code reads them one after the other.
- EmbeddingSync.SyncedClientsAgreeIff: embeddings only; price, sigma and name are sent along but not covered by the version. One request of a client at a time.
- FrequencyCap.SlidingWindowBound: one advertiser and user at a time, handled without overlap.
- Names, intents, URLs and creatives in auction responses, publisher IDs in the logs, and the simulated auction with its tau buckets.
- Nearest-neighbour search in the SDK cache (`proximity`).
- Position history rows: only whether their write fails matters.
- Timestamps, publish preferences, and the read-only listings of the trust ledger.
- HTTP decoding, routing, portals, CSV export, chat, intake, tokens, revenue split and statistics.
- Encryption, attestation documents, key management, DKIM verification and SMTP transport: the models start after decoding and verification.
- SQL text and SQLite itself; the embedding sidecar; mobile, Python and React clients.
