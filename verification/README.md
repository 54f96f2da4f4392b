# Verified models of the paid-action accounting and acquisition code

This Dafny project models the research code around paid actions and proves what it is for.
Each source file has its own modules, a value-level specification and, where the source
changes things step by step, classes and loops proved against that specification.

* **Staking rewards** (`StakingFixed`, `StakingEager`, `StakingCheckpoint`, `StakingBudget`,
  `StakingRational`, `StakingModels`). A lazy pool with one index refines the simple pool that
  pays everybody; nobody is ever locked out; an index reset changes nobody's future; the post
  budget is exact; the rounding loss against the exact ideal is bounded and accounted for.
* **Paid-action reader** (`PaidAbi`, `PaidLedger`, `PaidHistory`, `PaidBooks`, `PaidDecisions`, `PaidSurplus`,
  `PaidOwnAccount`, `PaidReader`, `PaidReconstruct`, `HistoryShape`, `PaidEndToEnd`). Calldata reader and writer undo each other. A ledger
  replays registry, token and probe events. Conservation, replay protection and authority are
  stated against books and an audit taken from the events alone, and carried to the captured end
  state; which events are accepted is decided in their own words.
* **Acquisition session** (`AcquisitionSession`). Locked sections interleave freely with
  selections, callbacks, failures and interrupts.
* **Collectors** (`Chain`, `Collectors`, `CollectByNumber`, `CollectByHash`, `CollectorsAgree`,
  `CollectorsCarryOver`, `CollectorsReadable`, `CollectorsContents`, `CollectorsAccept`,
  `CollectorsLogs`). Two opposite traversals of one chain store agree, hold what the store gives and
  have the shape the reader demands; what is served is collected.
* **Transaction codec** (`LegacyCodec`, with `Bytes`): Appendix B of the Ethereum Yellow Paper and
  the Specification section of EIP-155.
* **Smaller cores**: the rollback node (`ReorgNode`) and the Snappy block decoder (`Snappy`),
  sections 2.1 and 2.2 of the Snappy compressed format description.

`Sums` and `Wrappers` hold what the others share. To verify:
`dafny verify dfyconfig.toml`.

## Results worth knowing

* A claim writes the credit before its last check. In reachable states that check cannot fail,
  so no claim is torn; `UnsoundClaimIsTorn` shows an unreachable state in which one is.
* The re-encoding check of the codec and the duplicate-log check of the forward collector can
  never reject anything.
* The surplus of tokens over credits and dust is not unchanged by every probe call: a deposit or
  withdrawal for an account the probe itself owns moves it by the amount, and nothing else does.
  `OwnDepositMovesTheSurplus` is an accepted history in which one does.
* The backward collector accepts some histories whose shape the reader refuses:
  `LongRuntimeIsRefused` is one, and `BackwardIsReadable` says exactly when, in terms of the store.
  The forward collector's histories all have that shape.
* Neither collector can reach its own bound on requests.
* The rollback node keeps its phase order exactly as long as no second snapshot is answered. Asking
  again before the first answer can break it (`OverlappingSnapshotsBreakTheOrder`).
* While the controller's own snapshot or revert is in flight the gate passes anybody's request of
  that name; at no other time does it pass one (`ControlledRequestsPass`).
* A list index given to the staking models is assumed to name an account, as
  docs/STAKING_FIXED_REVIEW.md says in line 31 (valid caller-supplied indices).

## Model

| member | source | states |
|---|---|---|
| `StakingFixed.FreshDecision` | experiments/paid-action/staking_fixed_model.py:21-26 | a pool opens exactly with one or more stakes, each from zero to its cap and together at most theirs; otherwise the error tells which; it opens with these stakes and zero everywhere else |
| `StakingFixed.NoLockOut` | experiments/paid-action/staking_fixed_model.py:28-61 | after any sequence of attempted operations on a pool opened with any such stakes, rejected ones included: funded is paid plus all entitlements plus unassigned, no debt exceeds stake times index, and every account can be read and claimed for the floor of its entitlement |
| `StakingFixed.StepSolvent` | experiments/paid-action/staking_fixed_model.py:32-61 | every operation keeps solvency, a rejected one leaves every field as it was, and a claim is never rejected |
| `StakingFixed.SetStakeSolvent` | experiments/paid-action/staking_fixed_model.py:32-38 | a stake change is accepted exactly within the two stake caps, and changes nobody's entitlement |
| `StakingFixed.ClaimSolvent` | experiments/paid-action/staking_fixed_model.py:56-61 | a claim pays the whole units of the entitlement, keeps the fraction, and leaves every other entitlement alone |
| `StakingFixed.PostDecision` | experiments/paid-action/staking_fixed_model.py:40-54 | a post is accepted exactly when fee, eligible stake, increment and the two counters allow it; the dust, entitlement and debt checks never decide |
| `StakingFixed.PostSolvent` | experiments/paid-action/staking_fixed_model.py:40-54 | an accepted post gives every account but the payer its stake times the increment |
| `StakingFixed.UnsoundClaimIsTorn` | experiments/paid-action/staking_fixed_model.py:56-61 | a concrete unsolvent state in which a rejected claim has already overwritten the credit: the invariant is what makes the write order harmless |
| `StakingEager.LazyRefinesEager` | experiments/paid-action/staking_fixed_model.py:28-78 | for any stakes a pool may open with and any accepted sequence, entitlements, the three pools and every claim result equal those of the simple model that pays everybody on every post |
| `StakingEager.StepRefines` | experiments/paid-action/staking_fixed_model.py:32-78 | one operation on both models keeps them in step and gives the same result |
| `StakingEager.PayerEarnsNothing` | experiments/paid-action/staking_fixed_model.py:40-54 | a post, accepted or rejected, leaves its payer's entitlement unchanged |
| `StakingEager.EarnedIsHeldOrClaimed` | experiments/paid-action/staking_fixed_model.py:40-61 | what posts and stakes say an account earned is its entitlement plus what it has been paid |
| `StakingEager.FinalClaimTotal` | experiments/paid-action/staking_fixed_model.py:56-61 | after one last claim the units paid are the floor of everything earned, wherever the earlier claims fell |
| `StakingEager.ClaimTimingIrrelevant` | experiments/paid-action/staking_fixed_model.py:56-61 | two runs with the same posts and stake changes pay the same total after a final claim |
| `StakingEager.RepeatedClaimPaysZero` | experiments/paid-action/staking_fixed_model.py:56-61 | claiming again at once pays zero and changes nothing |
| `StakingModels.Fixed.Create` | experiments/paid-action/staking_fixed_model.py:21-26 | gives a pool of exactly these stakes and zeros, or the error for stakes missing or out of range, or for too large a total |
| `StakingModels.Fixed.ReadPending` | experiments/paid-action/staking_fixed_model.py:28-30 | reads the entitlement with both range checks |
| `StakingModels.Fixed.SetStake` | experiments/paid-action/staking_fixed_model.py:32-38 | new fields and result are the specified ones, on rejection too |
| `StakingModels.Fixed.Post` | experiments/paid-action/staking_fixed_model.py:40-54 | new fields and result are the specified ones, on rejection too |
| `StakingModels.Fixed.Claim` | experiments/paid-action/staking_fixed_model.py:56-61 | new fields and result are the specified ones, on a half-written rejection too |
| `StakingModels.Eager.Post` | experiments/paid-action/staking_fixed_model.py:67-74 | the loop over recipients leaves the specified rewards and pools |
| `StakingModels.Eager.Claim` | experiments/paid-action/staking_fixed_model.py:75-78 | pays the whole units of the reward |
| `StakingModels.Eager.PayRecipients` | experiments/paid-action/staking_fixed_model.py:70-73 | every account but the payer gets stake times increment, and the sum handed out is counted |
| `StakingCheckpoint.ContinuingIsSafe` | experiments/paid-action/staking_checkpoint.py:24-45 | whatever sequence the source would have accepted, the finished checkpoint accepts with the same claim results, and every entitlement, stake and pool agrees at the end |
| `StakingCheckpoint.FinishIgnoresBatches` | experiments/paid-action/staking_checkpoint.py:24-45 | whatever batches were requested and refused, finishing succeeds exactly when all accounts were processed and gives one and the same state |
| `StakingCheckpoint.AdvanceSettles` | experiments/paid-action/staking_checkpoint.py:24-38 | from a solvent source a batch is refused for its cursor, size or completion only, with that error; otherwise it settles as many of the next accounts as were asked for, or all that are left |
| `StakingCheckpoint.EvenBatches` | experiments/paid-action/staking_checkpoint.py:24-38 | asking for the same number of accounts again and again settles just so many each time, until none are left |
| `StakingCheckpoint.NormalizedSameFuture` | experiments/paid-action/staking_checkpoint.py:40-45 | resetting the index with all accounts settled changes no entitlement and keeps solvency |
| `StakingCheckpoint.StepSameFuture` | experiments/paid-action/staking_checkpoint.py:24-45 | one operation has the same answer before and after, unless the old index was used up |
| `StakingModels.Checkpoint.Step` | experiments/paid-action/staking_checkpoint.py:24-38 | the batch loop leaves the specified progress, and a refused batch writes nothing |
| `StakingModels.Checkpoint.Finish` | experiments/paid-action/staking_checkpoint.py:40-45 | gives the specified state, or refuses while accounts are missing |
| `StakingBudget.HorizonIsExact` | experiments/paid-action/staking_budget.py:16-40 | from any solvent state, through any posts of one fee and one eligible stake with claims and stake changes among them, the posts accepted are those attempted up to the reported number and no further, each moving the counters by the reported steps |
| `StakingBudget.PastTheHorizon` | experiments/paid-action/staking_budget.py:35-39 | after any such run the next post is accepted exactly if fewer than the reported number were attempted; past it the index cap refuses if that counter is limiting, and the funded cap otherwise |
| `StakingBudget.HorizonFields` | experiments/paid-action/staking_budget.py:24-40 | the reported fields, the two unassigned fractions among them, and that the limiting counters are those that allow no further post |
| `StakingBudget.BudgetDecision` | experiments/paid-action/staking_budget.py:17-27 | which inputs are refused, with which of the three reasons, and when there is no increment |
| `StakingBudget.AdmittedIsAccepted` | experiments/paid-action/staking_budget.py:24-33 | on any solvent state the next post is accepted exactly if the report says it is admitted |
| `StakingBudget.IndexHorizon` | experiments/paid-action/staking_budget.py:28-39 | the horizon fits the index cap, and index is limiting exactly when one more post does not |
| `StakingBudget.FundedHorizon` | experiments/paid-action/staking_budget.py:29-39 | the same for the funded cap |
| `StakingBudget.HorizonIsReached` | experiments/paid-action/staking_budget.py:28-37 | short of the horizon a post is accepted and moves the counters by the reported steps |
| `StakingBudget.HorizonEnds` | experiments/paid-action/staking_budget.py:35-39 | the state the horizon ends in refuses one more post, and for which reason |
| `StakingBudget.NoIncrementMeansNoPost` | experiments/paid-action/staking_budget.py:25-27 | the report without an increment is given exactly when a post is rejected for it |
| `StakingRational.ExactFormsAgree` | experiments/paid-action/staking_accumulator_model.py:10-58 | on every run the indexed exact model agrees with the one that pays everybody, and what is pending is exactly the fees paid |
| `StakingRational.RoundingGap` | experiments/paid-action/staking_accumulator_model.py:10-58 | over any shared run the bounded-integer model falls short of the exact ideal by at least nothing and at most the account's stake summed over posts by others, and the shortfalls sum to the unassigned pool |
| `StakingRational.AccruedWithinGap` | experiments/paid-action/staking_fixed_model.py:40-54 | what an account earned in whole arithmetic is within that gap of the scaled exact entitlement |
| `StakingRational.AccruedTotal` | experiments/paid-action/staking_fixed_model.py:40-54 | floored earnings and the unassigned pool add up to all scaled fees |
| `StakingRational.FlooredShare` | experiments/paid-action/staking_fixed_model.py:45-50 | one floored increment costs an account at most its stake |
| `StakingRational.AcceptedExactly` | experiments/paid-action/staking_accumulator_model.py:26-42 | whatever the bounded model accepts the exact one accepts, with the same stakes |
| `StakingModels.LazyRational.Post` | experiments/paid-action/staking_accumulator_model.py:33-42 | settles the payer, moves the index, and leaves the specified state |
| `StakingModels.LazyRational.SetStake` | experiments/paid-action/staking_accumulator_model.py:26-31 | settles, moves the total, and leaves the specified state |
| `StakingModels.EagerRational.Post` | experiments/paid-action/staking_accumulator_model.py:52-58 | every account but the payer gets its exact share |
| `PaidAbi.AmountBack` | experiments/paid-action/run_paid_action.py:30 | reading the calldata the writer makes for a deposit, withdrawal or stake change gives back its fields |
| `PaidAbi.AmountSpelled` | reference/paid_action_reader.py:201-221 | accepted three-word calldata is the encoding of the fields read |
| `PaidAbi.PostBack` | experiments/paid-action/run_paid_action.py:92-94 | reading the writer's post calldata gives back every field, for every text of 1 to 1680 bytes and at most 420 scalars and every signature of at most 4096 bytes |
| `PaidAbi.PostSpelled` | reference/paid_action_reader.py:190-221 | accepted post calldata is, word by word, the encoding of the fields read with one signature; offsets, padding and lengths leave no freedom |
| `PaidAbi.PostInjective` | experiments/paid-action/run_paid_action.py:92-94 | equal encodings have equal fields and signatures |
| `PaidAbi.BlobBack` | reference/paid_action_reader.py:190-198 | a padded blob met in the data is read back and ends where it should |
| `PaidAbi.BlobSpelled` | reference/paid_action_reader.py:190-198 | whatever is read was a length word, the bytes and zero padding |
| `PaidHistory.Conservation` | reference/paid_action_reader.py:294-383 | in every accepted history credits plus dust are deposits less withdrawals, the total is the sum of the credits, the balance is tokens in less tokens out, stakes are backed, and dust is at most one unit per message |
| `PaidHistory.NoncesNeverRepeat` | reference/paid_action_reader.py:318-352 | each nonce counts its account's messages, message numbers run from one, and no two messages share account and nonce |
| `PaidHistory.OneOwnerPerEpoch` | reference/paid_action_reader.py:281-292 | epochs count transfers after minting, and all probe events of one account in one epoch carry one owner |
| `PaidHistory.InvariantCheckReduces` | reference/paid_action_reader.py:250-255 | of the closing check only the stake cap and the token backing can ever reject after a probe event |
| `PaidHistory.FeeSplit` | reference/paid_action_reader.py:338-348 | allocations and dust make up the fee, the dust is zero or one, and the payer gets nothing |
| `PaidHistory.SharesInProportion` | reference/paid_action_reader.py:336-340 | the allocations are the shares of the fee in proportion to the stakes of the others, rounded down, and nothing for the payer |
| `PaidHistory.PostFitsWord` | reference/paid_action_reader.py:339-341 | the stake cap keeps fee times stake and the eligible stake within 256 bits, so the overflow test never fires |
| `PaidHistory.ReplaySound` | reference/paid_action_reader.py:386-527 | the three invariants hold after every accepted history |
| `PaidBooks.BooksKept` | reference/paid_action_reader.py:264-383 | for every account of every accepted history, from the words of its events alone: credit is deposits less withdrawals and fees plus shares, stake is staked less unstaked, nonce is its posts, owner is the receiver of its last transfer; and the messages are those the events spell |
| `PaidDecisions.AmountDecision` | reference/paid_action_reader.py:311-383 | a deposit, withdrawal or stake change is accepted exactly if the present owner asked for just it, tokens moved with it, it can be afforded and the event reports what comes of it |
| `PaidDecisions.PostDecision` | reference/paid_action_reader.py:318-352 | a post is accepted exactly if its text, nonce, epoch and time are those asked for, its numbers those due, its shares in proportion, and the tokens back what is owed |
| `PaidDecisions.TransferDecision` | reference/paid_action_reader.py:281-292 | a registry transfer is accepted exactly as a mint in order or a move from the owner right after its clearing, and what it then changes |
| `PaidDecisions.ApprovalDecision` | reference/paid_action_reader.py:276-280 | when an approval is accepted, and that it changes nothing but what the next transfer may rely on |
| `PaidDecisions.TokenDecision` | reference/paid_action_reader.py:294-309 | when a token event is accepted, and how it moves the balance |
| `PaidDecisions.OtherEventsRefused` | reference/paid_action_reader.py:311-316 | no other event of the probe is accepted |
| `PaidDecisions.ReplayMeets` | reference/paid_action_reader.py:386-515 | the states these decisions speak of are those every accepted history passes through |
| `PaidDecisions.LogsMeet` | reference/paid_action_reader.py:497-505 | and those between the events of a transaction |
| `PaidDecisions.CreatedOnce` | reference/paid_action_reader.py:461-515 | either contract is created at most once, the registry with all three accounts before the probe, and the probe bound to the registry and its runtime |
| `PaidDecisions.RegistryOwners` | reference/paid_action_reader.py:507-511 | the registry is created with three events that give its accounts to the owners its calldata ends in |
| `PaidSurplus.CallSurplus` | reference/paid_action_reader.py:311-383 | a probe call changes tokens minus credits minus dust by exactly what it deposits and withdraws for accounts of the probe's own, and not at all if and only if there is no such event |
| `PaidSurplus.OtherSurplus` | reference/paid_action_reader.py:294-309 | any other transaction moves the surplus by the tokens it sends and leaves the books alone |
| `PaidSurplus.HistorySurplus` | reference/paid_action_reader.py:250-383 | over a whole history the surplus is the sum of these changes and never negative |
| `PaidOwnAccount.OwnDepositMovesTheSurplus` | reference/paid_action_reader.py:311-383 | with any contracts and any amount, an accepted history whose last probe call, a deposit by the probe for its own account, moves the whole surplus into credit |
| `PaidOwnAccount.StoryRead` | reference/paid_action_reader.py:264-309 | the reader accepts the creation of both contracts, with the probe owning all accounts, and a token transfer to the probe |
| `PaidReader.LiveLedger.constructor` | reference/paid_action_reader.py:238-248 | starts with the empty ledger |
| `PaidReader.LiveLedger.CheckInvariants` | reference/paid_action_reader.py:250-255 | accepts exactly the ledgers that meet all the closing conditions |
| `PaidReader.LiveLedger.RegistryTransfer` | reference/paid_action_reader.py:281-291 | mints in order or moves an account with its approval cleared, and counts the epoch |
| `PaidReader.LiveLedger.RegistryEvent` | reference/paid_action_reader.py:264-292 | accepts and updates exactly as specified |
| `PaidReader.LiveLedger.TokenEvent` | reference/paid_action_reader.py:294-309 | accepts and updates exactly as specified |
| `PaidReader.LiveLedger.CheckPost` | reference/paid_action_reader.py:332-343 | accepts exactly the posts that match calldata, clock, credit and stake shares |
| `PaidReader.LiveLedger.PostBranch` | reference/paid_action_reader.py:332-352 | the post arithmetic with its range checks |
| `PaidReader.LiveLedger.AmountBranch` | reference/paid_action_reader.py:358-379 | the four amount kinds with their range checks |
| `PaidReader.LiveLedger.ProbeEvent` | reference/paid_action_reader.py:311-383 | accepts and updates exactly as specified, authority and closing check included |
| `PaidReader.LiveLedger.ReadTransaction` | reference/paid_action_reader.py:461-513 | creation, call, every event in order, the missing-event check and the closing check |
| `PaidReconstruct.ReadBlock` | reference/paid_action_reader.py:419-515 | accepts a block exactly when it is in place, its entries are in order and its events are accepted; counters, cumulative gas and log positions run along |
| `PaidReconstruct.ReconstructHistory` | reference/paid_action_reader.py:386-527 | accepts exactly the histories of readable shape whose events the ledger accepts and whose end state it matches, and returns that ledger |
| `PaidReconstruct.CheckEntry` | reference/paid_action_reader.py:433-494 | accepts exactly the entries in place, given the gas and logs before them |
| `PaidReconstruct.ChainMeans` | reference/paid_action_reader.py:419-431 | a chain of readable blocks without repeats is one whose every block fits those before it |
| `PaidEndToEnd.AcceptedAsBooked` | reference/paid_action_reader.py:386-527 | a history is accepted exactly if it has the shape, its events are accepted, and its end state is what the events add up to, account by account, owner, epoch, nonce and totals |
| `PaidEndToEnd.EveryEntryIsRead` | reference/paid_action_reader.py:433-505 | every entry of every block is read once, in order, with its sender, destination, outcome, calldata, time and logs |
| `HistoryShape.ReadableSays` | reference/paid_action_reader.py:406-517 | an accepted history goes from start to end block on block, receipts count gas and logs on in their places, and no block or transaction comes twice |
| `PaidEndToEnd.EndStateAccounted` | reference/paid_action_reader.py:386-527 | the captured end state of every accepted history is what its events add up to: credit, stake, nonce, epoch and owner of each account, totals, dust and balance; and it is solvent |
| `AcquisitionSession.CurrentIsSelected` | reference/paid_acquisition_session.py:133-226 | in every interleaving a published result carries the manifest of the configuration now selected and was agreed, rebuilt and confirmed by its own attempt |
| `AcquisitionSession.PublishedIsConfirmed` | reference/paid_acquisition_session.py:210-214 | whenever an attempt has returned a result, its six closing reads returned the chain, the start header and the end header of that history, twice in order; and its end is that of its last block |
| `AcquisitionSession.WrongClosingRead` | reference/paid_acquisition_session.py:210-233 | a closing read that returns anything else ends the attempt unpublished, whatever happens afterwards, and is recorded as a chain or boundary failure of the final stage if the attempt is still current |
| `AcquisitionSession.NeverReturns` | reference/paid_acquisition_session.py:227-234 | an attempt that has failed or been interrupted never returns a result |
| `AcquisitionSession.UndisturbedIsPublished` | reference/paid_acquisition_session.py:195-226 | an undisturbed attempt whose collections agree with each other and the selection, can be rebuilt and are confirmed is published, with its counts |
| `AcquisitionSession.AcquisitionStarts` | reference/paid_acquisition_session.py:153-163 | an attempt starts exactly with the present token, in an idle session, for the first four |
| `AcquisitionSession.AgreementDecision` | reference/paid_acquisition_session.py:199-206 | two collections agree exactly if both manifests are the selected one, the histories are one and its end is that of its last block; otherwise which error |
| `AcquisitionSession.LeaseDecision` | reference/paid_acquisition_session.py:169-191 | a lease is granted a call, or bytes, exactly while its attempt is current, not over and not late, and the cap leaves room |
| `AcquisitionSession.LateIsNotPublished` | reference/paid_acquisition_session.py:217-226 | a confirmed attempt that is late or superseded publishes nothing, and which error |
| `AcquisitionSession.SupersededIsInert` | reference/paid_acquisition_session.py:169-242 | once superseded, an attempt's remaining steps change nothing but the busy flag, however it ends |
| `AcquisitionSession.SupersededForever` | reference/paid_acquisition_session.py:133-144 | a superseded attempt stays superseded |
| `AcquisitionSession.PublishedCounts` | reference/paid_acquisition_session.py:218-226 | a returned result counts exactly the calls and bytes granted to that attempt |
| `AcquisitionSession.Quotas` | reference/paid_acquisition_session.py:153-193 | at most one attempt is in flight, no token starts two, and calls, bytes and attempts only grow and never pass their caps |
| `AcquisitionSession.SelectionsRunOut` | reference/paid_acquisition_session.py:133-144 | past the last selection nothing is ever selected, handed out or published again |
| `AcquisitionSession.GenerationCountsSelections` | reference/paid_acquisition_session.py:134-138 | the generation is the number of select calls, so the 33rd is the one that closes the session |
| `AcquisitionSession.ExecSound` | reference/paid_acquisition_session.py:126-242 | every step of every thread keeps the session invariant |
| `AcquisitionSession.Live.BeginSelection` | reference/paid_acquisition_session.py:133-138 | invalidates everything before it can fail |
| `AcquisitionSession.Live.CommitSelection` | reference/paid_acquisition_session.py:140-144 | hands out a fresh token, unless superseded meanwhile |
| `AcquisitionSession.Live.BeginAcquisition` | reference/paid_acquisition_session.py:153-163 | admits one attempt, or refuses for the first failing condition |
| `AcquisitionSession.Live.GrantLease` | reference/paid_acquisition_session.py:178-181 | counts a call for an active attempt below the cap |
| `AcquisitionSession.Live.AcceptResponse` | reference/paid_acquisition_session.py:188-191 | counts bytes for an active attempt below the cap |
| `AcquisitionSession.Live.PublishResult` | reference/paid_acquisition_session.py:218-225 | replaces the current result and retires the token, if still active |
| `AcquisitionSession.Live.RecordError` | reference/paid_acquisition_session.py:229-232 | records the failure of the attempt that still holds the token |
| `AcquisitionSession.Live.EndAcquisition` | reference/paid_acquisition_session.py:235-242 | releases the session and spends a token left over by an interrupt |
| `CollectorsAgree.TraversalsAgree` | experiments/paid-acquisition/collect_by_hash.py:187-271 | if a hash names one content and both collectors accept, their histories are identical |
| `CollectorsAgree.EmitsTheParentPath` | experiments/paid-acquisition/collect_by_hash.py:187-202 | the emitted headers are a parent path from end hash to start hash, the start left out, and there is no other such path |
| `CollectorsAgree.OnePath` | experiments/paid-acquisition/collect_by_hash.py:187-202 | two parent paths between the same hashes are equal |
| `CollectorsCarryOver.CarriesOver` | experiments/paid-acquisition/collect_by_number.py:282-332 | over a store that also answers by hash, whatever the forward collector accepts the backward collector accepts |
| `CollectorsCarryOver.SameHistory` | experiments/paid-acquisition/collect_by_hash.py:187-274 | and returns the same history |
| `CollectorsCarryOver.ForwardEmitsTheParentPath` | experiments/paid-acquisition/collect_by_number.py:282-317 | so the forward collector emits the one parent path too |
| `CollectorsContents.ForwardHoldsTheChain` | experiments/paid-acquisition/collect_by_number.py:282-332 | every forward history holds the full blocks after the start number, field by field and receipt by receipt, the boundary headers, runtimes and end state the store gives |
| `CollectorsContents.BackwardHoldsTheChain` | experiments/paid-acquisition/collect_by_hash.py:187-274 | every block of a backward history is found again by its hash, every entry is the transaction and receipt its hash names, and the ends are the store's |
| `CollectorsAccept.ForwardEntryDecision` | experiments/paid-acquisition/collect_by_number.py:168-233 | the forward collector accepts exactly the entries the reader can read that are placed, answered and within its own tighter demands |
| `CollectorsAccept.ServedIsCollected` | experiments/paid-acquisition/collect_by_number.py:236-350 | whatever chain of such blocks a store serves, with its ends, logs, runtimes and end state, is accepted and returned as it is |
| `CollectorsLogs.RangeListsEveryLog` | experiments/paid-acquisition/collect_by_number.py:319-332 | the range query lists every receipt log of the interval once, at its place |
| `CollectorsLogs.HistoryListsEveryLog` | experiments/paid-acquisition/collect_by_hash.py:259-269 | the query of every walked block lists every log of its receipts, under its own index, and as many |
| `CollectorsReadable.ForwardIsReadable` | experiments/paid-acquisition/collect_by_number.py:168-332 | every history of the forward collector has the shape the reader demands |
| `CollectorsReadable.BackwardIsReadable` | experiments/paid-acquisition/collect_by_hash.py:205-273 | a history of the backward collector has that shape exactly when the store meets the demands this collector leaves out: runtime size, and along the walk from the end hash zero addresses, addresses of failed creations, logs without topics |
| `CollectorsReadable.LongRuntimeIsRefused` | experiments/paid-acquisition/collect_by_hash.py:276-281 | over a store of two blocks, any runtime of more than 24576 and at most 65536 bytes makes a history that the backward collector returns and the reader refuses |
| `PaidEndToEnd.CollectedIsJudgedByEvents` | reference/paid_action_reader.py:386-527 | whether the reader accepts a forward history depends on its events and end state only |
| `CollectByNumber.CheckLogs` | experiments/paid-acquisition/collect_by_number.py:185-198 | accepts exactly logs in place, and projects them |
| `CollectByNumber.CheckTransaction` | experiments/paid-acquisition/collect_by_number.py:201-233 | accepts exactly the receipts that fit their transaction, given the gas and logs before |
| `CollectByNumber.CheckBlock` | experiments/paid-acquisition/collect_by_number.py:298-312 | accepts exactly the blocks whose entries fit and bring nothing seen before, within the bounds |
| `CollectByNumber.CheckNumber` | experiments/paid-acquisition/collect_by_number.py:282-297 | accepts exactly a full block of that number, in its place |
| `CollectByNumber.CheckRange` | experiments/paid-acquisition/collect_by_number.py:319-332 | accepts exactly when the range query repeats every receipt log in order |
| `CollectByNumber.LogsApart` | experiments/paid-acquisition/collect_by_number.py:322-332 | no two logs of an interval claim the same block and position, so the duplicate check never fires |
| `CollectByNumber.Collect` | experiments/paid-acquisition/collect_by_number.py:236-382 | accepts exactly what the specification accepts, returns the specified history, and makes one request per block and per transaction and 25 more, never above 281, so the bound of 512 never refuses |
| `CollectByHash.Descend` | experiments/paid-acquisition/collect_by_hash.py:187-197 | accepts exactly when every step back is what was asked for, in order and new |
| `CollectByHash.CheckPair` | experiments/paid-acquisition/collect_by_hash.py:216-254 | accepts exactly a transaction and receipt that fit, both looked up by hash |
| `CollectByHash.CheckEntriesBack` | experiments/paid-acquisition/collect_by_hash.py:205-256 | accepts exactly the entries that fit and bring nothing seen before, within the bounds |
| `CollectByHash.CheckBlockLogs` | experiments/paid-acquisition/collect_by_hash.py:259-269 | accepts exactly when the block query lists the receipt logs, in any order, each once |
| `CollectByHash.CheckBlocksBack` | experiments/paid-acquisition/collect_by_hash.py:205-272 | accepts exactly when every walked block is accepted, from the start block's transactions on |
| `CollectByHash.Collect` | experiments/paid-acquisition/collect_by_hash.py:139-321 | accepts exactly what the specification accepts, returns the specified history, and makes two requests per walked block and per transaction and 24 more, never above 536, so the bound of 800 never refuses |
| `LegacyCodec.EncodeThenInspect` | experiments/paid-signed-body-acquisition/legacy_codec.py:110-155 | exactly the admissible fields are encoded, the size bound never decides, and reading the envelope gives the same record |
| `LegacyCodec.InspectThenEncode` | experiments/paid-signed-body-acquisition/legacy_codec.py:110-155 | encoding the fields of any accepted envelope gives the same text back |
| `LegacyCodec.RecordSays` | experiments/paid-signed-body-acquisition/legacy_codec.py:110-143 | for every accepted text and any digest: the hash is of the bytes the text spells, the signing hash is of the list of the first six values, 31337 and two empty strings, and every field is what its value spells |
| `LegacyCodec.SpelledAsStandard` | reference/fixtures/generate-ethereum-proof-fixtures.py:51-63 | strings and lists of fewer than 65536 bytes have the form the standard gives, case by case |
| `LegacyCodec.InspectInjective` | experiments/paid-signed-body-acquisition/legacy_codec.py:110-143 | two accepted envelopes with the same fields are the same |
| `LegacyCodec.CanonicalCheckNeverFails` | experiments/paid-signed-body-acquisition/legacy_codec.py:127-128 | the re-encoding check rejects nothing that reading has let through |
| `LegacyCodec.ValuesCanonical` | experiments/paid-signed-body-acquisition/legacy_codec.py:118-128 | whatever nine values are read, encoding them gives the very bytes read |
| `LegacyCodec.ReadItemCanonical` | experiments/paid-signed-body-acquisition/legacy_codec.py:80-102 | whatever one read accepts is the canonical encoding of what it returns |
| `LegacyCodec.ReadItemBack` | reference/fixtures/generate-ethereum-proof-fixtures.py:51-63 | the encoding of an item is read back as that item |
| `LegacyCodec.CoreFits` | experiments/paid-signed-body-acquisition/legacy_codec.py:146-154 | six admitted core items and three short ones always fit an envelope |
| `LegacyCodec.CollectValues` | experiments/paid-signed-body-acquisition/legacy_codec.py:120-125 | the loop gives the specified list of values |
| `LegacyCodec.InspectLegacy` | experiments/paid-signed-body-acquisition/legacy_codec.py:110-143 | the specified record, whose fields encode to the text read |
| `Snappy.FormatIsDecoded` | scripts/decode-capella-bootstrap-fixture.py:5-32 | every stream of the format, any header of up to five bytes and any spelling of each element, is decoded to the expansion of its elements |
| `Snappy.DecodedIsFormat` | scripts/decode-capella-bootstrap-fixture.py:5-32 | whatever is decoded is such a stream, and the output is its expansion, of the declared size and within the limits |
| `Snappy.CopyIsPeriodic` | scripts/decode-capella-bootstrap-fixture.py:30 | an overlapping copy repeats with its offset as the period |
| `Snappy.CopyBytes` | scripts/decode-capella-bootstrap-fixture.py:30 | appending byte by byte gives the periodic extension |
| `Snappy.ReadHeader` | scripts/decode-capella-bootstrap-fixture.py:12-16 | the loop reads the specified size header |
| `Snappy.Decompress` | scripts/decode-capella-bootstrap-fixture.py:5-32 | the loop gives the specified result, or the specified error |
| `Snappy.TagFields` | scripts/decode-capella-bootstrap-fixture.py:20-29 | the masks and shifts of a tag byte are the divisions and remainders used here |
| `ReorgNode.PhasesFollowTheOrder` | experiments/paid-reorg/reorg_node.py:33-48 | in any run the phases follow one order of seven, one generation per transition, if and only if no second snapshot is answered |
| `ReorgNode.SerialKeepsOrder` | experiments/paid-reorg/reorg_node.py:39-48 | they do in every serial run, one in which the controller asks for no snapshot while its own request is in flight |
| `ReorgNode.OverlappingSnapshotsBreakTheOrder` | experiments/paid-reorg/reorg_node.py:39-48 | two snapshots asked for at once: the second answer takes a node that already reads the left branch back to writing it |
| `ReorgNode.ControlledRequestsPass` | experiments/paid-reorg/reorg_node.py:94-98 | in a serial run a snapshot or a revert made by anybody passes exactly while the controller's own request of that name is in flight and the base guard admits it |
| `ReorgNode.OtherRequestsPass` | experiments/paid-reorg/reorg_node.py:99-106 | in a serial run any other request passes exactly as the base guard says while a branch is written, as the scope guard says for read methods under a lease while one is read, and never in between or after |
| `ReorgNode.WholeRunCloses` | experiments/paid-reorg/reorg_node.py:33-106 | if every guard admits and every answer is good the whole run goes through and ends closed |
| `ReorgNode.OnlyRightfulRequestsPass` | experiments/paid-reorg/reorg_node.py:94-106 | whatever passed the gate was entitled to: snapshot and revert under control of that name in their phase, in a read phase read methods the scope admits and only while a lease was in use, elsewhere what the base guard admits, a lease only in its own generation; the controller sends at most one revert |
| `ReorgNode.RetiredLeaseStaysUnused` | experiments/paid-reorg/reorg_node.py:57-72 | in any run, once its generation is over no request passes through a lease |
| `ReorgNode.ReadsAreNotOvertaken` | experiments/paid-reorg/reorg_node.py:63-92 | from the start of a read in a serial run to its end no phase changes, whatever else arrives |
| `ReorgNode.RevertInFlight` | experiments/paid-reorg/reorg_node.py:75-87 | while the controller's revert of a serial run is in flight nothing changes and only direct reverts pass |
| `ReorgNode.ShutForever` | experiments/paid-reorg/reorg_node.py:94-106 | a shut node refuses every call and stays as it is |
| `ReorgNode.FailedRevertShuts` | experiments/paid-reorg/reorg_node.py:75-87 | after a serial run, a revert unanswered or answered with anything but true shuts the node for good |
| `ReorgNode.RefusedRevertShuts` | experiments/paid-reorg/reorg_node.py:75-87 | after a serial run, so does a revert the base guard refuses |
| `ReorgNode.ExecSound` | experiments/paid-reorg/reorg_node.py:33-106 | every call, and every half of one that waits, keeps the node invariant as long as no second snapshot is answered |
| `ReorgNode.PhasedNode.Advance` | experiments/paid-reorg/reorg_node.py:33-37 | records the transition and counts the generation |
| `ReorgNode.PhasedNode.Admit` | experiments/paid-reorg/reorg_node.py:94-106 | lets a request pass exactly as the gate says |
| `ReorgNode.PhasedNode.AskSnapshot` | experiments/paid-reorg/reorg_node.py:39-46 | the specified effect up to the request, control cleared if it is refused |
| `ReorgNode.PhasedNode.FinishSnapshot` | experiments/paid-reorg/reorg_node.py:44-48 | the specified effect of the answer, a missing one included |
| `ReorgNode.PhasedNode.StartReading` | experiments/paid-reorg/reorg_node.py:50-55 | the specified effect |
| `ReorgNode.PhasedNode.GiveLease` | experiments/paid-reorg/reorg_node.py:57-61 | a lease of the present generation and phase, in a read phase only |
| `ReorgNode.PhasedNode.Read` | experiments/paid-reorg/reorg_node.py:63-70 | the specified effect of one leased read up to its request |
| `ReorgNode.PhasedNode.EndReading` | experiments/paid-reorg/reorg_node.py:71-72 | frees the lease |
| `ReorgNode.PhasedNode.AskRestore` | experiments/paid-reorg/reorg_node.py:75-81 | moves to the switch and sends the revert under control, control cleared if it is refused |
| `ReorgNode.PhasedNode.FinishRestore` | experiments/paid-reorg/reorg_node.py:81-87 | the specified effect of the answer, a failed revert included |
| `ReorgNode.PhasedNode.Send` | experiments/paid-reorg/reorg_node.py:94-106 | a request outside any lease passes exactly as the gate says |
| `ReorgNode.PhasedNode.Close` | experiments/paid-reorg/reorg_node.py:89-92 | the specified effect |

## Left out

- Hash functions, ECDSA recovery and UTF-8 decoding: parameters of the models; event signatures are an enumeration given by a parameter that maps topics to it.
- Python value checks that the types here already make (integers, strings, lists), negative list indices, and hexadecimal or decimal text except in the codec, where text is modelled.
- JSON sizes and nesting, response and output byte limits, file reading and source pins; the wall-clock deadline of a session is a Boolean given to each step.
- Optional header fields without a meaning for the collectors: one opaque string, compared as a whole; the uncle and withdrawal bounds are not modelled.
- Repeated endpoint reads of the collectors: the chain store is fixed, so they repeat their first answer; a store that changes during a collection is not modelled.
- The getters' calldata at the end block: one read gives the whole end state.
- Which error a collector or the reader reports: only whether it accepts, and what it then returns.
- PaidReader.LiveLedger.PostBranch: promises nothing of the ledger after a rejection, because a rejection ends the reading and the ledger is dropped; the same holds of the other methods of this class that change it.
- PaidReconstruct.ReadBlock: checks all of one entry before applying its events, where the source alternates log by log; acceptance and the resulting ledger are the same.
- PaidReconstruct.ReconstructHistory: the history's own schema, chain and address fields and their equality with the manifest (lines 391-401 of the reader) are merged into one configuration.
- CollectByNumber.Collect: of the acquisition report only the number of requests is modelled, not the other counts, method names and trust text; on a rejection the count takes the getters of the end state as all read. The same holds of CollectByHash.Collect.
- AcquisitionSession.CurrentIsSelected: the collectors' answers and the six closing reads are inputs of the interleaving, so nothing is said of the chain itself.
- The state() reading of a session, which only copies fields.
- StakingBudget.HorizonFields: the decimal rendering of the report is not modelled.
- LegacyCodec.EncodeThenInspect: the two byte hashes of a record are an uninterpreted digest; sender recovery is not part of this model.
- ReorgNode.OnlyRightfulRequestsPass: the parameter checks of the base guards and of the read scope are a Boolean of each request, and replies are inputs; process control and HTTP are left out.
- ReorgNode.ControlledRequestsPass: said of serial runs only, because the end of one snapshot clears the control of another that is still in flight.
- Experiment drivers, Solidity contracts, the EVM, JavaScript readers and all claims about consensus or finality.
