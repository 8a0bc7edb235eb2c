# Verified model of the copy-trading analytics core

This project models the parts of the repository where state, ordering or exact arithmetic carry the
result, and proves their properties with Dafny. `dafny verify dfyconfig.toml` checks all of it.

What is modelled, in the order of the pipeline:

- **Fills to behaviour events** (`CausalSearch`, `BehaviorNormalization`, `NormalizationTheorems`,
  `Decimals`, `BudgetExample`). Fills that share a timestamp are put into the one causal order of position changes by a
  stack search, and each position change becomes open, increase, reduce and close legs.
- **Paged and resumable processing** (`BehaviorSpec`, `BehaviorStore`, `PagingTheorems`,
  `LateFillTheorems`, `RewindExample`). A job folds the normaliser over timestamp groups page by page, with a stored
  cursor, a block point and a rewind for late fills.
- **Independent leg check** (`LegVerifier`, `StoredLegTheorems`). The aggregation service re-checks the
  stored legs; the theorems reach from the fills of a run to the aggregate of a bucket.
- **Aggregation, weights, signal, direction change** (`Aggregation`, `AggregationTheorems`,
  `Allocation`, `WalletWeight`, `BehaviorSignal`, `SignalTheorems`, `DirectionChange`,
  `DirectionTheorems`). A fail-closed aggregate and largest-remainder weights become a bounded signal,
  which the next stage validates again.
- **Position cycles** (`CycleSpec`, `CycleTheorems`, `CycleBuilder`, `CycleReconstruction`,
  `PositionCycles`, `FundingTheorems`). Fills of many coins become cycles with profit, fees and funding;
  the shared, aliased cycle objects are modelled as heap objects.
- **Concurrency** (`RedisLock`, `LeaseTheorems`, `SerialExecutor`, `RunTrust`). The lease, the
  promise-tail executor and the compare-and-set trust log are state machines over their steps; theorems
  hold for every sequence of steps, where a step that is not enabled changes nothing.
- **Returns and drawdown** (`Returns`, `ReturnTheorems`, `Drawdown`).

`Sequences` holds what they share: sorting, filters, sums, distinctness.

## Numbers, identifiers and time

- Quantities, prices and positions of the normaliser are integers counting 10^-18. That module uses the
  default 20-digit decimals, so its rounding is modelled (`Decimals.Round20`), and the places where it
  matters are stated as conditions.
- Aggregation, weights and signal use 80-digit decimals. Weights and amounts are integers of a fixed
  scale; the signal and the score take the rounding as a parameter of which only monotonicity and
  exactness on short values are used, and exactness is then proved.
- Position cycles, returns and drawdown use exact reals: 80-digit rounding of quotients is not modelled
  there.
- Identifiers are natural numbers ordered as their text is; times are integer milliseconds; a random
  token is the number of its call. Hashes are injective: free constructors, or for the event
  fingerprint a parameter.
- Batch, page and group sizes are parameters, so the theorems hold for every size.

## What the proofs found

- Where the addition of a fill needs more than 20 significant digits the recorded position is not the
  exact one (`NormalizationTheorems.RoundingLosesDigits` gives a fill). The independent leg check then
  rejects the legs (`LegVerifier.RoundedFillFailsLegs`, `LegVerifier.SmallNotionalFailsIdentity`);
  `LegVerifier.LegsPassExactlyWhen` and `LegVerifier.IdentityPassesExactlyWhen` say exactly when.
- A fill that starts at a position of more than 20 digits can be recorded on the wrong side of its start,
  so that a BUY is classed as selling (`DirectionTheorems.RoundingTurnsABuy`); the exact condition is in
  `DirectionTheorems.LegsFollowTheirFill`. Runs from scratch never reach such a position
  (`StoredLegTheorems.StoredLegsFollowTheirFills`).
- A quantity of zero passes the positivity check of the normaliser (packages/analytics/src/behavior-normalization.ts:74,
  where zero counts as positive). From a position of 20 digits it is rejected later, as an impossible
  transition rather than an invalid decimal; in runs from scratch no completed fill has quantity zero
  (`StoredLegTheorems.RunRecorded`).
- When the search exceeds its step budget the group is reported as IMPOSSIBLE_TRANSITION even if an
  order was already found or several exist; it is never accepted (`CausalSearch.SearchVerdict`).
  `BudgetExample.BudgetRejectsTheOnlyOrder` gives 900 fills with a single order that are rejected.
- The late-fill rewind looks up the last earlier event by time, ordinal and row id. With several fills
  at that last timestamp this can be another event than the last one written;
  `LateFillTheorems.RewindRestoresExactlyWhen` gives the exact condition for the row ids at hand and
  `RewindExample.RewindMisses` a failing state, in which a valid late fill is then rejected.
  `LateFillTheorems.LateFillRebuild` therefore carries the condition. A last group of one fill always
  meets it; row ids in the order of writing meet it unless an earlier fill of the group flips the position
  and the last one does not (`LateFillTheorems.RisingRowIds`).
- An aggregate depends on the order of delivery if and only if two deliveries of one fingerprint differ
  (`AggregationTheorems.DeliveryFreeExactlyWhen`); an aggregate blocked for any other reason does not.
- A trust check that reads the row and its latest transition at two moments can fail although the store
  is consistent (`RunTrust.RaceReportsInconsistency`); `RunTrust.StaleReadExactlyWhen` says exactly when.

## Model

| member | source | states |
|---|---|---|
| `CausalSearch.FindChains` | `packages/analytics/src/behavior-normalization.ts:161-189` | the stack search returns what a scan of the whole search tree in visiting order would, stopping at two solutions and at the step budget; it terminates because the nodes still to visit shrink |
| `CausalSearch.NodesAreTheWalks` | `packages/analytics/src/behavior-normalization.ts:168-187` | the nodes the search can visit are exactly the chains from the boundary that use no edge twice, each one once |
| `CausalSearch.CountOrders` | `packages/analytics/src/behavior-normalization.ts:175-178` | no, one or several causal orders exist exactly when the tree holds no, one or several complete paths |
| `CausalSearch.SearchVerdict` | `packages/analytics/src/behavior-normalization.ts:161-189` | one solution is returned if and only if exactly one causal order exists and the tree fits the budget; two only if several exist; within the budget none if and only if none exists |
| `CausalSearch.SearchOrder` | `packages/analytics/src/behavior-normalization.ts:175-178` | the only solution returned is the causal order: all edges, chained from the boundary |
| `CausalSearch.TreeSizeIgnoresListing` | `packages/analytics/src/behavior-normalization.ts:161-172` | whether the search fits its budget does not depend on the order in which the fills are listed |
| `BehaviorNormalization.CollectEdges` | `packages/analytics/src/behavior-normalization.ts:230-256` | the loop with its snapshot map keeps one edge per source event and refuses negative quantities and conflicting deliveries, as the recursive definition says |
| `BehaviorNormalization.OrderedEvents` | `packages/analytics/src/behavior-normalization.ts:279-291` | the loop along the chain emits the legs of every transition in order, or rejects at the first transition that throws |
| `BehaviorNormalization.NormalizeTimestampGroup` | `packages/analytics/src/behavior-normalization.ts:191-300` | the imperative form with its map, search and loops returns the specified group result, with the same error precedence |
| `NormalizationTheorems.CollectMeaning` | `packages/analytics/src/behavior-normalization.ts:230-256` | deliveries are accepted exactly when all quantities are non-negative and equal ids carry equal snapshots; the edges kept then cover the fills, each id once |
| `NormalizationTheorems.TransitionMoves` | `packages/analytics/src/behavior-normalization.ts:127-153` | a transition throws exactly when the position does not change |
| `NormalizationTheorems.AcceptedExactlyWhen` | `packages/analytics/src/behavior-normalization.ts:196-300` | a non-empty group is normalised if and only if the quote is supported, there is one timestamp, the deliveries agree, every fill moves the position, exactly one causal order exists and the search fits its budget |
| `NormalizationTheorems.AcceptedConserves` | `packages/analytics/src/behavior-normalization.ts:278-292` | the events telescope from the boundary to `afterPosition` along the one causal order; with exact additions `afterPosition` is the boundary plus the signed quantities of the kept fills |
| `NormalizationTheorems.AllKept` | `packages/analytics/src/behavior-normalization.ts:244-255` | with one row per source event no fill is dropped |
| `NormalizationTheorems.ExactEdge` | `packages/analytics/src/behavior-normalization.ts:254-255` | the recorded position is the exact sum if and only if the sum fits 20 significant digits |
| `NormalizationTheorems.OrderAndRepetitionFree` | `packages/analytics/src/behavior-normalization.ts:230-256` | permuting the fills of an accepted group or repeating them changes nothing in the output |
| `BudgetExample.BudgetRejectsTheOnlyOrder` | `packages/analytics/src/behavior-normalization.ts:161-189` | 900 concrete fills have exactly one causal order and are rejected as impossible, because the search tree exceeds the step budget |
| `NormalizationTheorems.SingleFill` | `packages/analytics/src/behavior-normalization.ts:191-300` | a group of one fill is accepted exactly at its start position |
| `NormalizationTheorems.SingleFillConserves` | `packages/analytics/src/behavior-normalization.ts:254-255` | for one fill the reported position is boundary plus signed quantity if and only if the sum fits 20 digits |
| `NormalizationTheorems.RoundingLosesDigits` | `packages/analytics/src/behavior-normalization.ts:3-3` | a concrete fill of 15 units of 10^-18 on a position of 100 that is recorded as 20 units |
| `Decimals.Round20Exact` | `packages/analytics/src/behavior-normalization.ts:3-3` | 20-digit rounding leaves a value unchanged if and only if it needs no more than 20 digits |
| `Decimals.Fits20Meaning` | `packages/analytics/src/behavior-normalization.ts:3-3` | fitting means being a coefficient below 10^20 times a power of ten |
| `Decimals.RoundKeepsSide` | `packages/analytics/src/behavior-normalization.ts:3-3` | 20-digit rounding never carries a value across one that fits 20 digits |
| `Decimals.RoundsAbove` | `packages/analytics/src/behavior-normalization.ts:3-3` | a value is recorded above a magnitude, fitting or not, if and only if it reaches the middle between the two values of 20 digits around it |
| `Decimals.NotionalSurvives` | `packages/analytics/src/behavior-normalization.ts:121-121` | a notional comes back from the 20-digit product and the 18-decimal column unchanged if and only if it fits both |
| `LegVerifier.Check` | `apps/api/src/behavior-aggregation-service.ts:173-245` | the loops that group legs by fill, sort them and push issues find exactly the issues of the specified leg and identity checks |
| `LegVerifier.LegsPassExactlyWhen` | `apps/api/src/behavior-aggregation-service.ts:188-204` | the legs the normaliser writes for a fill pass the completeness check if and only if the size is positive, the new position fits 20 digits and, unless the fill flips, so does the size |
| `LegVerifier.IdentityPassesExactlyWhen` | `apps/api/src/behavior-aggregation-service.ts:240-243` | a leg's notional equals abs(delta) times price after storage if and only if that product fits 20 digits and 18 decimals |
| `LegVerifier.ProducerVerifierAgreement` | `apps/api/src/behavior-aggregation-service.ts:180-204` | for one accepted group, whatever arrangement its rows are read back in, no fill raises SOURCE_LEGS_INCOMPLETE if and only if every fill fits (for a whole bucket: StoredLegTheorems.BucketAgreement) |
| `LegVerifier.IdentityAgreement` | `apps/api/src/behavior-aggregation-service.ts:230-245` | for one accepted group no event raises SOURCE_IDENTITY if and only if every notional fits (for a whole bucket: StoredLegTheorems.BucketAgreement) |
| `LegVerifier.RoundedFillFailsLegs` | `apps/api/src/behavior-aggregation-service.ts:188-204` | a concrete accepted fill whose addition is rounded: its stored legs raise SOURCE_LEGS_INCOMPLETE |
| `LegVerifier.SmallNotionalFailsIdentity` | `apps/api/src/behavior-aggregation-service.ts:240-243` | a concrete accepted fill whose notional has 36 decimals: its stored leg raises SOURCE_IDENTITY |
| `StoredLegTheorems.RunStoresLegs` | `apps/worker/src/behavior/service.ts:134-163` | the stored events of a run from scratch are exactly the legs of the fills of its completed groups, each fill's legs being those of its own transition |
| `StoredLegTheorems.RunRecorded` | `packages/analytics/src/behavior-normalization.ts:254-255` | in a run from scratch every completed fill has a positive quantity and starts at a position of 20 digits, and so is the stored boundary |
| `StoredLegTheorems.BucketAgreement` | `apps/api/src/behavior-aggregation-service.ts:80-204` | for every bucket of every run from scratch whose cursor has passed its fills, whatever arrangement the events are read back in: no fill of the bucket raises SOURCE_LEGS_INCOMPLETE if and only if every fill fits, and no event SOURCE_IDENTITY if and only if every notional fits |
| `StoredLegTheorems.BucketAggregates` | `apps/api/src/behavior-aggregation-service.ts:206-263` | from fills to the aggregate: if the other checks of the service pass, the bucket of stored events is not blocked if and only if every fill fits 20 digits and every notional fits its roundings and lies in the range of amounts |
| `StoredLegTheorems.HandedIssues` | `packages/analytics/src/behavior-aggregation.ts:126-161` | a stored leg handed to the bucket of its time and wallet fails no check of the aggregate if and only if its stored amount is in range |
| `BehaviorStore.Store.constructor` | `apps/worker/src/behavior/repository.ts:33-37` | a new store holds the fills, no event, no cursor and no open issue |
| `BehaviorStore.Store.SaveSuccessfulGroup` | `apps/worker/src/behavior/repository.ts:243-298` | inserting in write batches with duplicates skipped, then moving the cursor and resolving the group's issues, equals one insertion of all events, for every batch size |
| `BehaviorStore.Store.RecordIssue` | `apps/worker/src/behavior/repository.ts:300-330` | the issue is open afterwards and no other issue changes |
| `BehaviorStore.Store.RewindForLateFill` | `apps/worker/src/behavior/repository.ts:133-190` | either both limits hold and the affected events go and the cursor moves to the last earlier event in lookup order, or nothing changes |
| `BehaviorStore.FindMany` | `apps/worker/src/behavior/repository.ts:60-75` | a query in table order that stops after a number of rows returns the first of the selected rows |
| `BehaviorStore.Store.LoadFillPage` | `apps/worker/src/behavior/repository.ts:49-117` | the two queries, the first one cut at the batch size and the second one over the boundary group, give the specified page of the stored fills after the cursor |
| `BehaviorStore.Store.ProcessWalletCoin` | `apps/worker/src/behavior/service.ts:51-177` | the job leaves the ledger, outcome, event count and open issues that the specified step gives from the ledger after the requested rewind; a refused rewind changes nothing |
| `BehaviorStore.Store.SaveGroups` | `apps/worker/src/behavior/service.ts:132-164` | the group loop is the fold over the groups up to the first rejection, which is recorded |
| `BehaviorStore.NormalizeFrom` | `apps/worker/src/behavior/service.ts:134-138` | a group starts from the stored boundary or, without one, from a flat position it contains |
| `BehaviorStore.TimestampGroups` | `apps/worker/src/behavior/service.ts:229-240` | the loop that pushes into the last group gives the groups of equal timestamps |
| `PagingTheorems.PageIsPrefix` | `apps/worker/src/behavior/repository.ts:60-116` | a page is a prefix of the remaining fills that never splits a timestamp group and is empty only when nothing remains |
| `PagingTheorems.PageLeavesRest` | `apps/worker/src/behavior/repository.ts:54-59` | after a page that is not blocked, exactly the rest of the fills remains after the cursor |
| `PagingTheorems.ContinuationShrinks` | `apps/worker/src/behavior/service.ts:166-174` | each continuation strictly shrinks the remaining fills |
| `PagingTheorems.GroupsConcat` | `apps/worker/src/behavior/service.ts:229-240` | grouping two stretches that meet between timestamps is grouping each |
| `PagingTheorems.RunConcat` | `apps/worker/src/behavior/service.ts:134-164` | a run over groups splits at any point |
| `PagingTheorems.PagingRefinesOnePass` | `apps/worker/src/behavior/service.ts:63-177` | repeating the job until it stops gives the events, cursor, count and block point of one fold over all groups, for every batch size |
| `LateFillTheorems.GroupEvents` | `packages/analytics/src/behavior-normalization.ts:278-292` | the events of a group of distinct fills come from those fills at their time, ordinals rise within a fill, and the last event ends at `afterPosition` |
| `LateFillTheorems.CursorBoundaryIsTheSum` | `apps/worker/src/behavior/repository.ts:264-287` | wherever a run from scratch stands, blocked or not, the cursor boundary is the sum of the signed quantities of all fills up to the cursor |
| `LateFillTheorems.RunEvents` | `apps/worker/src/behavior/service.ts:134-163` | the stored events are those of the completed groups, the last group's own events come last, and the cursor points at the very last one |
| `LateFillTheorems.RewindRestoresExactlyWhen` | `apps/worker/src/behavior/repository.ts:164-188` | with the row ids the database gave, the rewind restores the state before the rebuild point if and only if no event of the last earlier group comes after its last one by ordinal and row id |
| `LateFillTheorems.AnyRowIds` | `apps/worker/src/behavior/repository.ts:164-168` | that holds for all row ids if and only if the last event is the only one of its greatest ordinal |
| `LateFillTheorems.RisingRowIds` | `apps/worker/src/behavior/repository.ts:164-168` | with row ids in the order of writing it holds if and only if no earlier event of the group has a greater ordinal |
| `RewindExample.RewindMisses` | `apps/worker/src/behavior/repository.ts:147-188` | two concrete fills of one time: with row ids in the order of writing the rewind restores the state, with the first row id the greater one the cursor falls one fill behind and a valid late fill is rejected as impossible |
| `LateFillTheorems.SingleFillIsRestorable` | `apps/worker/src/behavior/repository.ts:164-168` | a last group of one fill meets the condition whatever its row ids |
| `LateFillTheorems.LateFillRebuild` | `apps/worker/src/behavior/repository.ts:147-189` | when the lookup finds the last event before the rebuild point, rewinding and reprocessing with a late fill gives the ledger, outcome and block point of processing the enlarged fill set from scratch, for every page size and from every state the old run had reached |
| `Aggregation.AggregateBehaviorBucket` | `packages/analytics/src/behavior-aggregation.ts:101-216` | the imperative form returns the specified aggregate, or nothing where the source throws |
| `Aggregation.CollectEvents` | `packages/analytics/src/behavior-aggregation.ts:107-167` | the loop with its issue set and fingerprint map admits, deduplicates and reports as the recursive definition says |
| `AggregationTheorems.CleanExactly` | `packages/analytics/src/behavior-aggregation.ts:107-167` | no issue is raised if and only if none was handed in, every event passes its checks and equal fingerprints carry equal events; then every event is kept |
| `AggregationTheorems.BlockedExactlyWhen` | `packages/analytics/src/behavior-aggregation.ts:191-214` | a bucket is BLOCKED if and only if it is not clean; totals exist if and only if it is not blocked; EMPTY and VALID say whether there are events |
| `AggregationTheorems.FixedPoint` | `packages/analytics/src/behavior-aggregation.ts:101-216` | aggregating a result's own snapshot reproduces the result, blocked or not |
| `AggregationTheorems.DeliveryFree` | `packages/analytics/src/behavior-aggregation.ts:107-170` | where the deliveries of each fingerprint agree, the result, blocked or not, is unchanged by reordering or repeating the events and by reordering the members |
| `AggregationTheorems.DeliveryFreeExactlyWhen` | `packages/analytics/src/behavior-aggregation.ts:107-170` | a result is the same for every delivery of its bucket if and only if the deliveries of each fingerprint agree |
| `AggregationTheorems.ConflictDependsOnDelivery` | `packages/analytics/src/behavior-aggregation.ts:163-166` | for any bucket with two conflicting deliveries, a reordering of its events that changes the snapshot |
| `AggregationTheorems.SemanticMeaning` | `packages/analytics/src/behavior-aggregation.ts:218-226` | an event has a semantic if and only if its direction is LONG or SHORT and its type is one of the four POSITION_ types |
| `AggregationTheorems.CellsPartition` | `packages/analytics/src/behavior-aggregation.ts:193-199` | the eight cells partition the events: counts and notionals add up to the totals |
| `AggregationTheorems.CellMembers` | `packages/analytics/src/behavior-aggregation.ts:196-196` | a cell holds exactly the events of its semantic |
| `AggregationTheorems.WalletsOfCells` | `packages/analytics/src/behavior-aggregation.ts:227-231` | the wallets of the total are those of the cells |
| `AggregationTheorems.SumsStayExact` | `packages/analytics/src/behavior-aggregation.ts:20-20` | a sum of at most 10,000 admitted amounts stays within 42 digits, so 80-digit sums are exact |
| `AggregationTheorems.TotalsAddUp` | `packages/analytics/src/behavior-aggregation.ts:191-200` | the totals of every bucket that is not blocked are exact and are the sums over the eight cells |
| `Allocation.AllocateUnits` | `packages/analytics/src/wallet-weight.ts:129-142` | the loop that increments units in place in remainder order computes the specified allocation |
| `Allocation.ResidualInRange` | `packages/analytics/src/wallet-weight.ts:136-141` | the residual is at least 0 and below the number of wallets, and equals the sum of the remainders over the total |
| `Allocation.AllocationParts` | `packages/analytics/src/wallet-weight.ts:132-142` | the allocation never fails, sums to all units, and gives each wallet its quotient plus one if it is among the first residual ones |
| `Allocation.AllocationIsExact` | `packages/analytics/src/wallet-weight.ts:132-142` | all units are handed out and each wallet's share is its exact quota rounded down or up |
| `Allocation.AllocationIsFair` | `packages/analytics/src/wallet-weight.ts:137-142` | a strictly larger raw weight never gets fewer units; equal raw weights differ by at most one, in favour of the lower address |
| `Allocation.BumpedHaveRemainder` | `packages/analytics/src/wallet-weight.ts:137-142` | one unit more goes only to shares that were rounded down |
| `WalletWeight.ScoreMonotone` | `packages/analytics/src/wallet-weight.ts:109-116` | a score stays within 0 and 1 and does not fall with win rate, profit factor and cycle count, nor rise with concentration, whatever monotone rounding is used |
| `WalletWeight.RawUnits` | `packages/analytics/src/wallet-weight.ts:116-127` | a raw weight is a whole number of at most 10^36 units |
| `WalletWeight.RawMonotone` | `packages/analytics/src/wallet-weight.ts:109-127` | a wallet at least as good in every metric gets at least as large a raw weight |
| `WalletWeight.Calculate` | `packages/analytics/src/wallet-weight.ts:52-160` | the statement form with its checks in order returns the specified weights or reason |
| `WalletWeight.WeightsGuarantee` | `packages/analytics/src/wallet-weight.ts:129-150` | INVALID_ALLOCATION and INVALID_WEIGHT_SUM are unreachable; weights sum to exactly 10^18 units, each a rounded quota, and every pair is treated fairly |
| `WalletWeight.WeightsIgnoreListing` | `packages/analytics/src/wallet-weight.ts:54-101` | the result does not depend on the order in which the wallets are listed |
| `WalletWeight.IntermediatesFit` | `packages/analytics/src/wallet-weight.ts:129-135` | numerators stay within 10^54 and the sum of raw weights within 2*10^38, far below 80 digits |
| `SignalTheorems.ShareIsExact` | `packages/analytics/src/behavior-signal.ts:47-56` | a contribution of a whole or half weight is exact at 19 decimals |
| `SignalTheorems.OneContribution` | `packages/analytics/src/behavior-signal.ts:38-61` | a wallet puts exactly its weight on its sides if it traded and nothing otherwise; its buys and sells are all of its events and notional |
| `SignalTheorems.FoldIsExact` | `packages/analytics/src/behavior-signal.ts:64-65` | the rounded sum of the contributions is their exact sum |
| `SignalTheorems.StrengthsAreExact` | `packages/analytics/src/behavior-signal.ts:64-66` | buy, sell, net and mass are exact, and buy plus sell is the weight of the wallets that traded, at most 1 |
| `SignalTheorems.SignalIsBounded` | `packages/analytics/src/behavior-signal.ts:67-70` | VALID if and only if the mass is positive; confidence at most 0.995 with 18 decimals, agreement within 0 and 1, breadth at most 0.995 |
| `SignalTheorems.AcceptedAggregate` | `packages/analytics/src/behavior-signal.ts:27-29` | an aggregate receipt that passes is the one the aggregation issues for its snapshot, and not blocked |
| `SignalTheorems.AcceptedWeights` | `packages/analytics/src/behavior-signal.ts:30-31` | a weight receipt that passes is the one the weighting issues for its rows: 1 to 200 distinct wallets whose weights add up to 1 |
| `SignalTheorems.AcceptedCohort` | `packages/analytics/src/behavior-signal.ts:32-36` | accepted receipts hold the same members and selection |
| `DirectionTheorems.EventsAreConserved` | `packages/analytics/src/behavior-signal.ts:38-62` | the contributions account for every event of the aggregate once and for all of its notional |
| `DirectionTheorems.SignalGuarantee` | `packages/analytics/src/behavior-signal.ts:38-105` | VALID if and only if a wallet of positive weight traded; each participant contributes exactly its weight; buy plus sell is the participants' weight and at most 1; confidence below 1; participants split into buy-only, sell-only and mixed |
| `DirectionTheorems.ValidSignalPasses` | `packages/analytics/src/direction-change.ts:95-141` | the validator accepts a computed signal if and only if it is VALID: decimals, ranges, sums, counts, provenance and bucket all hold |
| `DirectionTheorems.ComparableExactlyWhen` | `packages/analytics/src/direction-change.ts:142-159` | two VALID signals are compared if and only if they are of one coin, rest on the same weight receipt and belong to adjacent buckets; the delta is then exact |
| `DirectionTheorems.IssuedReceiptsAccepted` | `packages/analytics/src/behavior-signal.ts:25-36` | the receipts the two earlier stages issue for one cohort always yield a signal unless the bucket is blocked |
| `DirectionTheorems.ClassificationIsSymmetric` | `packages/analytics/src/direction-change.ts:161-171` | buying and selling are classified alike, a change run backwards as its undoing, and NONE exactly when the previous net is zero or unchanged |
| `DirectionTheorems.LegRises` | `packages/analytics/src/behavior-signal.ts:42-46` | a leg is classed as buying if and only if the position rises, whatever was rounded |
| `DirectionTheorems.LegsFollowTheirFill` | `packages/analytics/src/behavior-signal.ts:42-46` | a leg of an accepted fill is classed as its fill if and only if the exact new position lies on the fill's side of the middle between the two 20-digit values around its start position; from a start position of 20 digits it always does, rounded or not |
| `DirectionTheorems.RoundingTurnsABuy` | `packages/analytics/src/behavior-signal.ts:42-46` | a concrete accepted BUY from a position of more than 20 digits whose leg is classed as selling |
| `StoredLegTheorems.StoredLegsFollowTheirFills` | `packages/analytics/src/behavior-signal.ts:42-46` | every stored event of every run from scratch is classed as buying if and only if its fill was a BUY |
| `DirectionTheorems.LegsHaveSemantics` | `packages/analytics/src/behavior-aggregation.ts:218-226` | every leg the normaliser emits has one of the eight semantics |
| `CycleSpec.Step` | `packages/analytics/src/position-cycles.ts:73-173` | one fill of a coin: a cycle is open exactly while there is a position, so the exception for a position without a cycle is unreachable |
| `CycleSpec.Candidates` | `packages/analytics/src/position-cycles.ts:447-451` | the indices are exactly those of the cycles of the coin that were open at the item's time, in order |
| `CycleTheorems.IncreasedBooks` | `packages/analytics/src/position-cycles.ts:133-142` | an increase at the blended average price keeps profit so far equal to net cash flow plus position at average price |
| `CycleTheorems.ReducedBooks` | `packages/analytics/src/position-cycles.ts:147-161` | so does a close of any size up to the position |
| `CycleTheorems.BooksAreKept` | `packages/analytics/src/position-cycles.ts:73-173` | at every step of every sequence of fills, for every cycle: recomputed profit is sell proceeds minus buy cost plus signed position times average entry, and opened minus closed size is the position on the cycle's side |
| `CycleTheorems.ClosedCycleProfit` | `packages/analytics/src/position-cycles.ts:503-520` | for every closed cycle the recomputed profit is its net cash flow and it closed exactly what it opened |
| `CycleTheorems.OpenCycleSize` | `packages/analytics/src/position-cycles.ts:147-172` | an open cycle has opened more than it closed by the absolute current position, with the sign of its side |
| `CycleTheorems.FeesAreKept` | `packages/analytics/src/position-cycles.ts:147-166` | until a discontinuity the cycles of a coin carry exactly the fees of its fills, flips included, and its position is the sum of the deltas |
| `CycleTheorems.DiscontinuityDropsOne` | `packages/analytics/src/position-cycles.ts:83-104` | a coin stops at the first fill that does not continue its position: later fills change nothing, only the open cycle is dropped, and the fees kept plus its fees are the fees of all processed fills |
| `CycleTheorems.CyclesAreChronological` | `packages/analytics/src/position-cycles.ts:107-171` | the closed cycles of a coin follow each other in time and the open one comes last |
| `CycleTheorems.OpenIntervalsAreDisjoint` | `packages/analytics/src/position-cycles.ts:147-172` | of two cycles of a coin the earlier is closed before the later opens, so no moment lies inside both |
| `CycleBuilder.InternalCycle.constructor` | `packages/analytics/src/position-cycles.ts:348-365` | a cycle opens with one opening portion at the fill's price, on the fill's side |
| `CycleBuilder.IndexOf` | `packages/analytics/src/position-cycles.ts:85-88` | the position of the cycle object in the list, or -1 |
| `CycleBuilder.OpenCycle` | `packages/analytics/src/position-cycles.ts:107-123` | the branch without a position changes the state and lists a cycle as the step says |
| `CycleBuilder.IncreaseCycle` | `packages/analytics/src/position-cycles.ts:133-145` | the branch on the same side updates state and cycle in place as the step says |
| `CycleBuilder.CloseCycle` | `packages/analytics/src/position-cycles.ts:147-172` | the branch against the position closes in part, in full or flips, in place, as the step says |
| `CycleBuilder.Discontinue` | `packages/analytics/src/position-cycles.ts:83-104` | the coin's open cycle leaves the shared list and no other coin's view changes |
| `CycleBuilder.ProcessFill` | `packages/analytics/src/position-cycles.ts:73-173` | one iteration over the shared objects: the fill's coin takes one step, every other coin stays exactly as it was |
| `CycleReconstruction.StableFills` | `packages/analytics/src/position-cycles.ts:260-293` | the first duplicate or non-positive fill in the order given is the error; otherwise the fills are sorted by time and identifier |
| `CycleReconstruction.TrustedOfCoin` | `packages/analytics/src/position-cycles.ts:314-339` | the trusted fills of a coin are its fills from the first one that starts without a position |
| `CycleReconstruction.SelectTrustedFills` | `packages/analytics/src/position-cycles.ts:295-346` | grouping by coin, cutting each group and sorting again gives exactly the fills whose coin had a zero start at or before them, in order |
| `PositionCycles.RunOfOwnFills` | `packages/analytics/src/position-cycles.ts:73-173` | within the interleaved fills each coin's run is the run of its own fills: coins do not affect each other |
| `PositionCycles.Reconstruct` | `packages/analytics/src/position-cycles.ts:66-173` | the whole loop over shared states and cycle objects builds, for every coin, the cycles of its run |
| `PositionCycles.AllocateFunding` | `packages/analytics/src/position-cycles.ts:400-471` | the loops push every item onto the one cycle that covers it or report it, and change nothing else of any cycle |
| `PositionCycles.ComputeCyclePnl` | `packages/analytics/src/position-cycles.ts:494-544` | the updating loops compute the specified sums, or report a missing entry price |
| `PositionCycles.BuildPositionCycles` | `packages/analytics/src/position-cycles.ts:56-185` | the build fails exactly on empty, repeated or non-positive input, never on a missing entry price, and otherwise returns every coin's cycles with their funding and profit |
| `FundingTheorems.NeverTwoCandidates` | `packages/analytics/src/position-cycles.ts:447-461` | MULTIPLE_CYCLE_CANDIDATES is unreachable for every build |
| `FundingTheorems.FundingIsConserved` | `packages/analytics/src/position-cycles.ts:426-470` | every amount goes to one cycle or is reported: nothing is lost or counted twice |
| `FundingTheorems.HistoryConservesFunding` | `packages/analytics/src/position-cycles.ts:426-470` | the funding in the results plus the funding reported is all the funding handed in, and items are reported only at a boundary or without a cycle |
| `FundingTheorems.CyclesIgnoreListing` | `packages/analytics/src/position-cycles.ts:289-292` | every coin's cycles are the same in whatever order the fills are handed in |
| `RedisLock.RunKeeps` | `apps/worker/src/hyperliquid/lock.ts:50-118` | over every run the record of each call agrees with its phase, its moments are in order, and a stored token belongs to a call that acquired that key |
| `RedisLock.OwnKey` | `apps/worker/src/hyperliquid/lock.ts:25-28` | a call's step touches no key but its own, and that one only if it is free or holds its token |
| `LeaseTheorems.LossIsPermanent` | `apps/worker/src/hyperliquid/lock.ts:50-52` | a call that acquired the key and no longer holds it never holds it again |
| `LeaseTheorems.HeldThroughout` | `apps/worker/src/hyperliquid/lock.ts:99-104` | a call whose release found its token held the key at every step since its SET |
| `LeaseTheorems.LeaseIsContinuous` | `apps/worker/src/hyperliquid/lock.ts:50-118` | if a call returns a value, the key held its token, unexpired, from the successful SET through the whole operation to the release, whatever expiries, losses, renewals, delays and failures occur |
| `LeaseTheorems.ReturnedCallsDoNotOverlap` | `apps/worker/src/hyperliquid/lock.ts:50-118` | of two calls on one key that both return, one released before the other acquired |
| `LeaseTheorems.ScriptsTouchOwnKeyOnly` | `apps/worker/src/hyperliquid/lock.ts:25-28` | no renewal or release, in time or late, changes an entry that does not hold the caller's token |
| `SerialExecutor.RunKeeps` | `apps/worker/src/hyperliquid/keyed-serial-executor.ts:4-22` | over every interleaving each call waits for the call on its key just before it, and a stored tail is the latest unfinished call |
| `SerialExecutor.OneAtATimeInOrder` | `apps/worker/src/hyperliquid/keyed-serial-executor.ts:4-22` | of two calls on a key the later starts only after the earlier has finished, by returning or throwing: no overlap, order of arrival |
| `SerialExecutor.TailsHoldWaitingKeys` | `apps/worker/src/hyperliquid/keyed-serial-executor.ts:11-20` | the map holds a key if and only if a call on it is queued or running |
| `SerialExecutor.NoDeadlock` | `apps/worker/src/hyperliquid/keyed-serial-executor.ts:13-16` | a key with an unfinished call always has one that can start or finish |
| `SerialExecutor.CallFinishes` | `apps/worker/src/hyperliquid/keyed-serial-executor.ts:13-21` | in any run, whatever calls arrive meanwhile, a call with k unfinished calls on its key before it has finished after 2k + 2 starts and finishes on that key |
| `SerialExecutor.EveryCallRuns` | `apps/worker/src/hyperliquid/keyed-serial-executor.ts:13-21` | without new arrivals starts and finishes are bounded in number, and once there have been that many every call has finished |
| `RunTrust.CommitKeeps` | `apps/api/src/performance-run-trust.ts:159-181` | a compare-and-set with its log entry keeps every ledger |
| `RunTrust.RunKeeps` | `apps/api/src/performance-run-trust.ts:122-183` | over any interleaving of calls with stale reads the revision equals the log length, revisions are contiguous, states alternate from TRUSTED, and the last entry is the current state |
| `RunTrust.TrustedAtEvenRevisions` | `apps/api/src/performance-run-trust.ts:159-181` | a run is trusted exactly at even revisions |
| `RunTrust.LoggedKeyChangesNothing` | `apps/api/src/performance-run-trust.ts:129-143` | a call with a logged operation key changes neither row nor log, and reads back the logged revision or a conflict |
| `RunTrust.ChangesAreLoggedOnce` | `apps/api/src/performance-run-trust.ts:168-182` | no two entries share an operation key, and whoever reports a change has its entry with that revision |
| `RunTrust.ReadAtOneMomentPasses` | `apps/api/src/performance-run-trust.ts:77-88` | a row and its latest transition read at one moment are always consistent |
| `RunTrust.StaleReadExactlyWhen` | `apps/api/src/performance-run-trust.ts:77-88` | read at two moments they pass if and only if the run's log did not grow in between or the row was in its first state |
| `RunTrust.RaceReportsInconsistency` | `apps/api/src/performance-run-trust.ts:122-183` | a concrete run of a quarantine and two restoring calls in which the second call reports an inconsistency although every ledger is kept |
| `RunTrust.FindCurrentTrusted` | `apps/api/src/performance-run-trust.ts:54-75` | the paged lookup with its cursor gives the verdict of one scan of the whole list, for every page size |
| `RunTrust.LookupFindsFirstTrusted` | `apps/api/src/performance-run-trust.ts:54-75` | over every run that verdict is the first trusted run of the list or that there is none, never an inconsistency |
| `Returns.ParseNavPoints` | `packages/analytics/src/returns.ts:521-552` | the first duplicate or non-positive point in the order given is the error |
| `Returns.SplitAtFlows` | `packages/analytics/src/returns.ts:231-289` | the loop over the flows links the periods as specified, with the same missing-boundary and ordering errors |
| `Returns.SplitReturnPeriodsAtCashFlows` | `packages/analytics/src/returns.ts:189-291` | the whole split, with its branches and error order, is the specified one |
| `Returns.BuildTwrWealthIndex` | `packages/analytics/src/returns.ts:307-365` | the index is accepted if and only if every period is in order and positive, holds the growth of every prefix, and otherwise fails on the first bad period |
| `Returns.MultiplyReturns` | `packages/analytics/src/returns.ts:567-591` | the product of all factors less one, or the error |
| `ReturnTheorems.SplitIsInSequence` | `packages/analytics/src/returns.ts:262-288` | the periods of every successful split are ordered, do not overlap and have positive navs whose quotient is their growth |
| `ReturnTheorems.IndexOfSplit` | `packages/analytics/src/returns.ts:328-361` | the wealth index accepts every successful split and its last point is one plus the time-weighted return |
| `ReturnTheorems.GrowthWithFlows` | `packages/analytics/src/returns.ts:244-288` | with flows, growth times the start nav is the end nav times before over after at each flow |
| `ReturnTheorems.SplitTelescopes` | `packages/analytics/src/returns.ts:575-589` | for every successful split the product of factors is end nav over start nav times the product of before over after nav at each external flow |
| `Drawdown.ParseWealthPoints` | `packages/analytics/src/risk.ts:192-240` | points are accepted if and only if all or none are sequenced, ids are distinct, sequences contiguous and navs positive |
| `Drawdown.BuildDrawdownSeries` | `packages/analytics/src/risk.ts:246-268` | each point is measured against the first highest point so far |
| `Drawdown.SeriesCoversPairs` | `packages/analytics/src/risk.ts:253-267` | the lowest point of the running-peak series is the lowest change over all pairs in order, and lies in (-1, 0] |
| `Drawdown.CalculateMaxDrawdown` | `packages/analytics/src/risk.ts:33-74` | the result is the quadratic definition: minimum over all i <= j, earliest trough, earliest peak, first recovery, durations |
| `Drawdown.DrawdownOfSplit` | `packages/analytics/src/risk.ts:33-74` | the wealth index of every successful split has a maximum drawdown |

## Left out

- Prisma, BullMQ, Redis clients, HTTP and WebSocket code, loggers, CLIs and all user interface code: only the state they change is modelled.
- Decimal and date syntax, hashing and JSON text: values, integers and injective constructors stand for them. Decimal parse errors of the normaliser are modelled only as far as the sign of a quantity.
- Negative zero: the aggregate refuses an amount written as a negative zero, which the model has no value for.
- Normalisation run rows, selection scopes and quote evidence rows written around a job, and the history-gap query: the gap flag, the market and the selection are inputs of the model.
- Of the aggregation service only the leg and identity checks, for rows of one source and wallet; its gap, provenance and database checks are inputs of the end-to-end theorem, and its lag check is the condition that the cursor has passed the fills of the bucket.
- Recording an issue that is already open also updates its detail and a counter in the source; the model keeps only which issues are open.
- Lengths and identifiers of texts that cannot be empty in the database, such as a selection run id, are not checked again in the model.
- Metric windows of a wallet are two times in order; their text form and the 18-decimal and 10^20 limits on metric texts are not modelled, so the theorems hold for all real metrics in the accepted domain.
- Warnings of the cycle builder other than unallocated funding, and the final sort of its result by opening time: each coin's cycles are in order, the list over all coins is in order of creation.
- The comparison of recomputed with reported closed profit only raises a warning and is not modelled; aggregate profit over several cycles is a sum of the modelled ones.
- The coverage gate and the precision labels around every calculation.
- Daily navs, cash-flow classification, annualised return, volatility, Sharpe, Sortino and Calmar ratios: enumerations, or powers and roots.
- The lock: how long the retry delay and the renewal interval are (any moment is allowed, so the theorems cover all), separate clocks of client and server, and a client library that repeats a SET on its own after a lost connection.
- The scheduler's leadership flag: it reuses its token across acquisitions.
- Fills that arrive while a wallet and coin is being paged, other than through the late-fill rewind: the fill table is fixed during a run.
- Deleting a run, and rows entering or leaving the list while the paged lookup reads it.
- The identity of a direction change itself is a hash of its two signals and is not part of the result.
- Wallet selection thresholds, trade statistics, cleanup and manifest scripts: one-branch checks that would add only easy members.
- Nothing was executed: all statements are about the model.
