# A verified model of the bridge

This project models the Cosmos side of the token bridge (`module/x/nab`) as a state machine, puts an Ethereum event log
next to it, and proves what the two together guarantee. Two more parts stand by themselves: the byte-level store and the
protobuf codec under the module, and the two backward searches of the orchestrator.

The bridge itself:

- `types.dfy`, `ethereum.dfy`, `ledger.dfy`: tokens, claims, voucher denominations, a small bank, and what sending,
  cancelling and observed claims do.
- `effects.dfy`: which balances, supplies and tables each of them changes, account by account.
- `outgoing.dfy`, `selection.dfy`: the pool of transfers, the batches made of them, cancellation, execution, timeouts, and
  the choice of the transfers with the highest fees.
- `oracle.dfy`: votes on Ethereum events, quorums, the tally, pruning, export and import.
- `valsets.dfy`, `power.dfy`: validator sets, who is slashed for not signing them, pruning, normalized powers.
- `bridge.dfy`, `run.dfy`, `safety.dfy`, `fees.dfy`, `accounting.dfy`, `solvency.dfy`: both chains together, over whole runs.
- `witnesses.dfy`: concrete runs for what fails.
- `outgoing_keeper.dfy`, `oracle_keeper.dfy`, `valset_keeper.dfy`, `nab_keeper.dfy`, `nonces.dfy`: the keepers as classes
  over mutable tables, with the loops of the source. Every method is proved to do what the function of the same step in
  the files above says.
- `chain.dfy`: every message and every block that the keeper is given is its own step of the joint state machine
  (`Chain.Play`), so where the steps of the calls meet the assumptions below, the keeper's final tables are as the theorems
  about runs say (`Chain.KeeperNeverDoublePays`).

Below and beside it:

- `lex.dfy`, `keys.dfy`, `flatstore.dfy`: big-endian keys, prefix ranges, and the one flat store as typed tables.
- `wire.dfy`, `messages.dfy`: varints, fields, the backward writers and the readers of tokens, transfers, batches and sets
  of ids.
- `layout.dfy`: the same messages as a reader without message types sees them, field by field.
- `search.dfy`: the windowed backward searches of the relayer and the oracle.

Check the whole project with `dafny verify dfyconfig.toml`.

## What the proofs rest on

- Ethereum is an append-only log with consecutive event nonces and non-decreasing heights. A batch is executed only if it
  was once created on Cosmos, at a height not above its timeout, and with a nonce above all executed ones of its token
  (`solidity/contracts/Gravity.sol:323-422`; the contract even requires a height below the timeout, while the relayer in
  `orchestrator/ethereum_gravity/src/submit_batch.rs:42-54` gives up only above it).
- Honest validators vote only for events of that log, and the others cannot reach the threshold by themselves.
- The hash of an executed batch leaves the Ethereum height out (`module/x/nab/types/msgs.go:420-423`). So a quorum for the
  right hash can carry a wrong height, and the cleanup of batches works with it. That no cleanup cancels a batch which
  Ethereum has executed or can still execute is an assumption on runs (`Run.Spared`). `Safety.SafeIffSpared` says that this
  is exactly what keeps every transfer in the pool unpaid, in every honest run; where it fails, a double payment is at most
  two steps away (`Safety.UnsafeRunLeadsToDoublePay`). Heights that are not overstated are enough for it
  (`Safety.BoundedHeightsSuffice`), and some assumption has to be made: `Witnesses.OverstatedHeightPaysAndRefunds` is a run
  in which one faulty vote overstates one height by one, and a transfer is both paid and refunded.
- The hash of a claim is taken to tell all other fields apart. The source formats them with separators and hashes the text,
  so this assumes that the hash function has no collisions and that the texts differ. They need not: a deployed contract's
  name and symbol are joined by a slash (`module/x/nab/types/msgs.go:518`), so "x/x" with "x" looks like "x" with "x/x", and
  the members of a validator set are sorted first (`module/x/nab/types/msgs.go:651-653`), so their order is not covered.
- Runs start from the default genesis. Counters are unbounded and iteration that deletes as it goes works on a snapshot.
- The total power that staking reports is at least the sum over all validators, where quorums are compared.

## What is not as documented

- `OutgoingTxBatch.GetFees` (`module/x/nab/types/types.go:253-260`) drops the result of `sdk.Int.Add`, so it always reports
  zero and the test for a more profitable batch in `module/x/nab/keeper/batch.go:31-47` never rejects anything. The order
  of fees that the comments promise is therefore false: `Witnesses.FeeOrderFailsInRun` gives a run, and `Fees.FeeOrderIff`
  says of every run that the order holds throughout exactly if every batch would have passed the test with the right fees.
- The handler has no case for a logic call claim (`module/x/nab/keeper/attestation_handler.go:169-171`), although
  `module/x/nab/keeper/msg_server.go:366-384` accepts votes for one. `Run.BlocksStopOnlyOnUnsupported` says
  exactly when the observed claims stop the chain: one of them is a logic call, or a validator set update with a reward in a
  contract that is not in the index of cosmos-originated assets by then; never an executed batch. A run that ends so is
  `Witnesses.LogicCallStopsChain`. The one other way to stop is that the current validator set cannot be made, because all
  keyed validators have no power or the reward parameter stands for no contract (`NabKeeper.Keeper.EndBlocker`).
- A refund always pays the voucher denomination (`module/x/nab/keeper/pool.go:136-158`), also for a cosmos-originated asset
  whose coins were locked in another one. `Accounting.CancelGivesBackIff` says for every asset exactly when sending and
  cancelling gives everything back, and `Accounting.OriginatedCancelIff` what a sender of such an asset gets instead.
- With a total power below 5, or of exactly 6, the rounding of the 66 percent threshold lets two disjoint sets of voters
  both reach it (`Oracle.QuorumIntersection`).
- `RequestBatch` reads the nonce of a batch that does not exist where the pool holds nothing of the token
  (`module/x/nab/keeper/msg_server.go:144-155`). The transaction fails; in the model it changes nothing.

## Model

| member | source | states |
|---|---|---|
| Run.NoDoublePay | module/x/nab/abci.go:12-21 | at every point of every run of both chains no transfer id is paid twice on Ethereum or both paid and refunded; every id below the counter is pending, paid by a processed batch or refunded, and only one of these; each id is in one place; every executed but unprocessed batch is live |
| Run.BlocksStopOnlyOnUnsupported | module/x/nab/keeper/attestation_handler.go:64-171 | at every point of every run, a block has no successor exactly if it observes a logic call or a reward in a contract that neither was in the index before nor came into it by an earlier accepted deployment of the same block |
| Run.RunsSatisfy | module/x/nab/abci.go:12-21 | the joint invariant holds after every prefix of every run |
| Safety.SafeIffSpared | module/x/nab/abci.go:117-135 | over every honest run, no transfer in the pool is ever paid or payable on Ethereum exactly if every cleanup spares the batches that Ethereum has executed or can still execute |
| Safety.UnsafeRunLeadsToDoublePay | module/x/nab/keeper/pool.go:100-158 | at a point of an honest run where a transfer in the pool was or can be paid, its sender can take it back and Ethereum pays it too, unless the asset is cosmos-originated |
| Safety.BoundedHeightsSuffice | module/x/nab/types/msgs.go:420-423 | where no observed height of an executed batch is overstated, every cleanup spares those batches |
| Run.ObservedAreLogged | module/x/nab/keeper/attestation.go:61-107 | what a tally observes is the next stretch of the Ethereum log, up to heights of executed batches, since every quorum has an honest voter |
| Run.HandleAllPreserves | module/x/nab/keeper/attestation_handler.go:19-173 | applying the next logged events in order keeps the joint invariant and panics exactly if one of them is unsupported by then |
| Bridge.ProcessPreserves | module/x/nab/keeper/batch.go:102-123 | processing the next event keeps executed batches live, dead batches dead and every id accounted for |
| Bridge.CleanupPreserves | module/x/nab/abci.go:127-135 | cancelling the timed out batches keeps the joint invariant if it spares what Ethereum has executed or can still execute |
| Safety.CleanupIsSafeIff | module/x/nab/abci.go:127-135 | a cleanup leaves no transfer in the pool that was or can be paid exactly if it spares those batches |
| Bridge.LowHeightSpares | module/x/nab/abci.go:117-126 | a cleanup at or below the height of the last processed event spares them |
| Safety.OutOfReachIff | solidity/contracts/Gravity.sol:341-353 | a batch is past its timeout or overtaken exactly if no next event can execute it |
| Bridge.ExecutableIsLive | orchestrator/ethereum_gravity/src/submit_batch.rs:42-54 | any batch that Ethereum can still execute is live on Cosmos |
| Bridge.BuildPreserves | module/x/nab/keeper/batch.go:23-77 | a new batch keeps the joint invariant |
| Bridge.RefundPreserves | module/x/nab/keeper/pool.go:100-168 | a refund takes an id from pending to refunded, and it was never paid |
| Solvency.VouchersConserved | module/x/nab/keeper/attestation_handler.go:22-63 | over every run the processed deposits of an Ethereum-originated token equal voucher supply plus pending transfers plus paid ones, amounts and fees together |
| Solvency.EthereumStaysSolvent | module/x/nab/keeper/pool.go:31-61 | Ethereum never pays out more of such a token than was deposited, events not yet processed included |
| Accounting.CancelUndoesSend | module/x/nab/keeper/pool.go:100-158 | sending vouchers and cancelling restores every balance and every supply, in the same denomination |
| Accounting.HandleChangesClaimable | module/x/nab/keeper/attestation_handler.go:19-63 | an observed claim adds exactly its deposit to what can be claimed and takes exactly the executed batch off |
| Accounting.AddKeepsClaimable | module/x/nab/keeper/pool.go:20-94 | sending moves value from the supply to the pending transfers, none is lost |
| Accounting.RefundKeepsClaimable | module/x/nab/keeper/pool.go:100-158 | cancelling moves the value back |
| Accounting.CancelGivesBackIff | module/x/nab/keeper/pool.go:100-158 | for every asset, sending and cancelling restores all balances and supplies exactly if the refund pays in the denomination and by the way in which the coins were taken |
| Accounting.OriginatedCancelIff | module/x/nab/keeper/pool.go:136-158 | the transfer of a cosmos-originated asset can be cancelled exactly if the module holds enough vouchers of its contract, and then the sender gets those and not its own coins |
| Accounting.OriginatedCancelWitness | module/x/nab/keeper/pool.go:136-158 | a state in which a sender loses its coins to the module and gets vouchers |
| Accounting.DeployKeepsInverseIff | module/x/nab/keeper/attestation_handler.go:68-127 | an accepted deployment keeps the index of cosmos-originated assets one to one exactly if its contract was not indexed before |
| Effects.DepositIs | module/x/nab/keeper/attestation_handler.go:22-63 | an observed deposit raises the receiver's balance by the amount, in the denomination of the index, of the permanent swap or the voucher; locked coins leave the module, others are minted; no other balance or supply moves; it fails exactly if the receiver is invalid, the amount is zero or locked coins are missing |
| Effects.SendIs | module/x/nab/keeper/pool.go:20-94 | amount and fee leave the sender in the denomination sent: vouchers leave the supply, other coins go to the module; nothing else moves, and the entry is in the pool field by field |
| Effects.CancelIs | module/x/nab/keeper/pool.go:100-168 | exactly the sender's own entry leaves the pool, and amount and fee are paid to the sender in vouchers, out of the module if the contract is indexed and minted if not |
| Effects.ValsetUpdatedIs | module/x/nab/keeper/attestation_handler.go:128-168 | the observed set is stored with its members and reward and no height; a reward in an indexed contract is minted to the module, any other one panics |
| Effects.DeployedIs | module/x/nab/keeper/attestation_handler.go:68-127 | a deployment is accepted exactly if the denomination has metadata and no contract yet, name and symbol are its display name, and the decimals are the exponent of its display unit or zero; then both directions of the index hold it |
| Effects.RewardIs | module/x/nab/keeper/keeper_valset.go:254-270 | the reward's contract and amount: none for an empty parameter, a panic exactly if no valid contract stands for the denomination |
| Effects.LookupIs | module/x/nab/keeper/cosmos-originated.go:44-62 | a voucher denomination of a valid address stands for that contract, any other one for the contract of the index, or for nothing exactly if it is not indexed |
| Ethereum.DenomRoundTrip | module/x/nab/types/ethereum.go:64-105 | a denomination parses to a contract exactly if it is the voucher of that contract and the contract is a valid address |
| Types.SameHashIff | module/x/nab/types/msgs.go:420-423 | two claims have one hash exactly if they are equal or are executions of one batch that differ in the Ethereum height only |
| Outgoing.ExecuteEffect | module/x/nab/keeper/batch.go:99-123 | executing a batch removes exactly its transfers, returns exactly those of the lower batches of its contract to the pool, and touches no other batch |
| Outgoing.CancelKeepsPending | module/x/nab/keeper/batch.go:195-220 | cancelling any batches loses no transfer and makes none up |
| Outgoing.CancelOneMore | module/x/nab/abci.go:127-135 | cancelling one by one is cancelling together, so the order does not matter |
| Outgoing.CancelPreserves | module/x/nab/keeper/batch.go:195-220 | cancelling keeps every transfer in one place under its own key |
| Outgoing.EnqueuePreserves | module/x/nab/keeper/pool.go:61-78 | a new transfer's key is never taken, and it is the only new pending transfer |
| Outgoing.DropPreserves | module/x/nab/keeper/pool.go:191-199 | leaving the pool removes exactly that transfer |
| Outgoing.BatchTimeoutIs | module/x/nab/keeper/batch.go:80-97 | the timeout is the known Ethereum height, plus the Ethereum blocks in the time since it was known, plus those in the target time, each rounded down; zero where a height is unknown; the difference of the Cosmos heights is one of 64 bits |
| Outgoing.CleanupEffect | module/x/nab/abci.go:127-135 | the batches left are those with a timeout at or above the height, and the pool has gained exactly the transfers of the others |
| Selection.PickIsOptimal | module/x/nab/keeper/batch.go:155-175 | a batch takes min(max, available) transfers of its contract in descending order, and no other choice of at most max has a larger fee total |
| Selection.BuiltBatch | module/x/nab/keeper/batch.go:48-76 | a new batch has the next nonce, the given contract, timeout and block and one up to max transfers, all taken from the pool and gone from it, and is stored under its key |
| Selection.PredictionIsExact | module/x/nab/keeper/pool.go:277-291 | the predicted fee is the fee sum of the batch that would be picked |
| Selection.ContractScanIsFilteredScan | module/x/nab/keeper/pool.go:293-341 | one scan of the whole pool passes the entries of each contract in the order of the contract's own scan |
| Selection.MovedPreserves | module/x/nab/keeper/batch.go:23-77 | moving transfers into a batch keeps every id in one place |
| Selection.MovedKeepsPending | module/x/nab/keeper/batch.go:23-77 | building a batch neither loses nor adds a transfer |
| Selection.BuildKeepsFeeOrderIff | module/x/nab/keeper/batch.go:31-47 | a new batch keeps the fees of the live batches non-decreasing exactly if the last live batch has no more fees than predicted |
| Fees.FeeOrderIff | module/x/nab/keeper/batch.go:31-47 | over every run the live batches of every token have non-decreasing fees throughout exactly if no batch was built while the last live one of its token had more fees than predicted |
| Fees.NextKeepsOrderIff | module/x/nab/keeper/batch.go:102-123 | cancels, timeouts and executions never break the order, and a request does exactly if it is not guarded |
| Witnesses.FeeOrderFailsInRun | module/x/nab/types/types.go:253-260 | a run of two sends and two requests after which the fees of the live batches decrease |
| Witnesses.LogicCallStopsChain | module/x/nab/keeper/attestation_handler.go:169-171 | a run in which an honest vote for a logic call leads to a block without a successor |
| Witnesses.OverstatedHeightPaysAndRefunds | module/x/nab/types/msgs.go:420-423 | an honest run in which one overstated height of an executed batch makes one cleanup cancel too much, and a transfer is both paid and refunded |
| Oracle.InOrderExactlyOnce | module/x/nab/abci.go:77-116 | over every run, restarts included, the handler is given events 1, 2, ... up to the last observed one, once each, and each validator has one vote per nonce |
| Oracle.TallyPreserves | module/x/nab/abci.go:77-116 | a tally keeps the invariant, lowers no validator's nonce and leaves no quorum at the next nonce |
| Oracle.TallyObservesInOrder | module/x/nab/abci.go:77-116 | a tally observes consecutive nonces, each backed by distinct voters that reach the threshold |
| Oracle.TallyIsIdleIff | module/x/nab/abci.go:77-116 | a tally does nothing exactly where no attestation at the next nonce has a quorum, so a second one changes nothing |
| Oracle.TallyIgnoresOrder | module/x/nab/abci.go:91-114 | where quorums intersect, the order of the attestations of a nonce does not matter |
| Oracle.OneQuorumPerNonce | module/x/nab/keeper/attestation.go:69-101 | two attestations of one nonce never both reach the threshold |
| Oracle.QuorumIntersection | module/x/nab/types/genesis.go:21 | disjoint quorums are impossible exactly at the total powers 5 and 7 upwards |
| Oracle.QuorumHasHonestVoter | module/x/nab/keeper/attestation.go:69-101 | if the faulty validators are below the threshold, a quorum has an honest voter |
| Oracle.AttestPreserves | module/x/nab/keeper/attestation.go:15-56 | a vote keeps one vote per validator and nonce, and no validator's nonce falls |
| Oracle.NextVoteIs | module/x/nab/keeper/attestation.go:330-347 | a vote is accepted exactly for the event after the validator's last one; without a stored one for the last observed event, or event 1 if none was observed |
| Oracle.AttestEffect | module/x/nab/keeper/attestation.go:15-56 | the vote is appended to the attestation of its nonce and hash, which is made with the claim and the height if it is new; only the voter's nonce changes |
| Oracle.ThresholdIs | module/x/nab/keeper/attestation.go:68-77 | the power that a quorum needs is 66 percent of the total, rounded down |
| Oracle.ObserveIs | module/x/nab/keeper/attestation.go:80-101 | an observed attestation is stored as observed with its votes, and nonce and heights are taken over |
| Oracle.PrunePreserves | module/x/nab/abci.go:366-402 | pruning deletes only attestations more than 1000 below the last observed nonce and keeps the invariant |
| Oracle.PruneIs | module/x/nab/abci.go:366-402 | what is left are the attestations that are not more than 1000 below the last observed nonce |
| Oracle.GenesisRoundTrip | module/x/nab/keeper/genesis.go:53-93 | after export and import in any order the attestations are unchanged and each validator's nonce is the larger of its old one and the default |
| Oracle.RestartPreserves | module/x/nab/keeper/genesis.go:174-178 | the invariant survives export and import, so no validator can vote again where it voted |
| Valsets.SlashedOnceInOrder | module/x/nab/abci.go:156-250 | over every run with a window that may change, slashing processes the sets 1, 2, ... up to the watermark once each, and every set that is gone was processed |
| Valsets.SlashingIsContiguous | module/x/nab/keeper/keeper_valset.go:172-202 | a block processes the next sets without a gap, and all sets of the window's age lie below the watermark afterwards |
| Valsets.StepPreserves | module/x/nab/abci.go:42-61 | a block keeps nonces and heights in order, and whatever it prunes was slashed before |
| Valsets.CulpritIff | module/x/nab/abci.go:167-246 | who is slashed for a set, over the inputs: bonded, started below the set's height and unconfirmed under its Ethereum address; or unbonding, started below it, the set inside the unbonding window, and no confirmation by its orchestrator |
| Valsets.UnslashedAreOld | module/x/nab/keeper/keeper_valset.go:172-202 | the sets that a block processes are above the watermark and at least a window old |
| Valsets.PrunedIs | module/x/nab/abci.go:42-61 | what is left are the sets that are not both below the last observed nonce and older than the window |
| Valsets.CreatedIs | module/x/nab/keeper/keeper_valset.go:33-66 | the new set has the next nonce, the block's height, the members and the reward; no other set changes |
| Power.NormalizationBounds | module/x/nab/keeper/keeper_valset.go:249-252 | normalized powers keep the order, fit 32 bits, and their sum is below 2^32 by at most the number of validators |
| Power.GetCurrentMembers | module/x/nab/keeper/keeper_valset.go:229-252 | the two loops give the shares of the keyed validators; they divide by zero exactly if there are keyed validators and all have no power |
| Power.KeyedAre | module/x/nab/keeper/keeper_valset.go:229-248 | the members are the bonded validators that have an Ethereum key, with their powers |
| Power.SortIsUnique | module/x/nab/types/types.go:56-64 | the order by power and then address leaves one sorted list of given members |
| Power.SortMembers | module/x/nab/types/types.go:56-64 | the members in that order, none lost and none added |
| Power.SortedMeans | module/x/nab/types/types.go:56-64 | powers descend, and members of one power are ordered by address |
| Power.PowerDiff | module/x/nab/types/types.go:80-104 | the three loops give the sum of all changes of power |
| Power.DeltaIsDistance | module/x/nab/types/types.go:80-104 | between sets without repeated addresses that sum is symmetric, and zero exactly if every address has the same power in both |
| Power.DeltaIsSize | module/x/nab/types/types.go:80-104 | between sets without repeated addresses that sum and twice the power they share make up both totals |
| OutgoingKeeper.Keeper.PickUnbatchedTX | module/x/nab/keeper/batch.go:155-175 | the scan removes and returns exactly the picked transfers, and no duplicate is ever found |
| OutgoingKeeper.Keeper.CancelOutgoingTXBatch | module/x/nab/keeper/batch.go:195-220 | the batch's transfers are back in the pool and the batch is gone; the panic over a duplicate is unreachable |
| OutgoingKeeper.BatchFitsPool | module/x/nab/keeper/batch.go:200-205 | the transfers of a live batch have different ids and none of their keys is in the pool |
| OutgoingKeeper.Keeper.OutgoingTxBatchExecuted | module/x/nab/keeper/batch.go:102-123 | panics exactly if the batch is unknown, else the new tables are those of the specification |
| OutgoingKeeper.Keeper.CleanupTimedOutBatches | module/x/nab/abci.go:127-135 | exactly the batches with a timeout below the last observed height are cancelled |
| OutgoingKeeper.Keeper.BuildOutgoingTXBatch | module/x/nab/keeper/batch.go:23-77 | the batch, the pool and the counters after a request, with the rejected and the empty case |
| OutgoingKeeper.Keeper.GetLastOutgoingBatchByTokenType | module/x/nab/keeper/batch.go:247-258 | the live batch of the token with the highest nonce, none exactly if there is none |
| OutgoingKeeper.Keeper.GetBatchFeeByTokenType | module/x/nab/keeper/pool.go:277-291 | the loop gives the fee total of the highest max entries of the contract |
| OutgoingKeeper.Keeper.CreateBatchFees | module/x/nab/keeper/pool.go:314-341 | the single pass with counters gives for each contract present the total of its own scan, and no other entry |
| OutgoingKeeper.Keeper.Enqueue | module/x/nab/keeper/pool.go:61-78 | the transfer is stored under the next id, the counter goes up, nothing else changes |
| OutgoingKeeper.Keeper.GetUnbatchedTxById | module/x/nab/keeper/pool.go:215-230 | the pool entry with the id, none exactly if there is none |
| OutgoingKeeper.GetFees | module/x/nab/types/types.go:253-260 | the fees that a batch reports about itself are zero |
| OracleKeeper.Keeper.Attest | module/x/nab/keeper/attestation.go:15-56 | a vote is recorded exactly if it follows the validator's last one; the new tables are those of the specification |
| OracleKeeper.Keeper.TryAttestation | module/x/nab/keeper/attestation.go:61-107 | the early-exit loop observes an attestation exactly if all its votes together reach the threshold and it has one; both panics, exactly |
| OracleKeeper.Keeper.GetAttestationMapping | module/x/nab/keeper/attestation.go:177-193 | every stored attestation once, under its nonce |
| OracleKeeper.Keeper.PruneAttestations | module/x/nab/abci.go:366-402 | the loops delete exactly the attestations below the cutoff |
| OracleKeeper.Keeper.ExportGenesis | module/x/nab/keeper/genesis.go:174-178 | the list holds exactly the stored attestations |
| OracleKeeper.Keeper.InitGenesis | module/x/nab/keeper/genesis.go:53-93 | the attestations under their keys, and for each voter the highest nonce it voted at if that is above the default |
| ValsetKeeper.SlashBonded | module/x/nab/abci.go:167-200 | slashes exactly the bonded validators that started below the set's height and have no confirmation under their Ethereum address, and jails those not jailed yet |
| ValsetKeeper.SlashUnbonding | module/x/nab/abci.go:202-246 | slashes exactly the unbonding validators that started below the set's height, are in the window, and have no confirmation by their orchestrator |
| ValsetKeeper.SlashedIff | module/x/nab/abci.go:156-250 | an operator is slashed for a set exactly if the block processes the set and a validator of that operator, bonded or in the window of unbonding, started below the set's height and did not confirm it |
| ValsetKeeper.InnocentIsNotSlashed | module/x/nab/abci.go:156-250 | an operator whose validators confirmed the set or started at or above its height is not slashed for it |
| ValsetKeeper.Keeper.ValsetSlashing | module/x/nab/abci.go:156-250 | all slashes of a block in nonce order, the watermark at the last processed set, and the unbonding height set exactly if someone is jailed |
| ValsetKeeper.Keeper.CreateValsets | module/x/nab/abci.go:23-40 | a set with the next nonce, the block's height and the current members is stored exactly if there is no latest one, a validator began to unbond in the block, or twenty times the change of power is above 2^32 - 1 |
| ValsetKeeper.Keeper.PruneValsets | module/x/nab/abci.go:42-61 | deletes exactly the sets below the last observed one that are older than the window |
| NabKeeper.Keeper.EndBlocker | module/x/nab/abci.go:12-21 | the block takes the joint state and the validator sets exactly as the specified steps do, in the source's order; it does not finish exactly if a claim panics or the current validator set cannot be made |
| NabKeeper.Keeper.GetCurrentValset | module/x/nab/keeper/keeper_valset.go:229-273 | sorted normalized members and the contract of the reward, or a panic, exactly |
| NabKeeper.Keeper.UpdateValsets | module/x/nab/abci.go:23-61 | creation and pruning together are the valset part of a block |
| Chain.Play | module/x/nab/abci.go:12-21 | the messages, blocks and Ethereum events that a new keeper is given are, one for one and in order, the steps of a history of the joint state machine, and its tables are the last world; it stops early exactly at a block in which a claim panics or the current validator set cannot be made |
| Chain.Deliver | module/x/nab/keeper/msg_server.go:105-158 | each message takes the keeper's tables through the step of that message, with its arguments |
| Chain.DeliverBlock | module/x/nab/abci.go:12-21 | a block takes them through its step, and does not finish exactly if it stops the chain |
| Chain.KeeperNeverDoublePays | module/x/nab/abci.go:12-21 | where the steps of the calls meet the assumptions, the keeper's own final tables are safe: no id paid twice or paid and refunded, each pending in them, paid or refunded, and every executed unprocessed batch live in them |
| Chain.KeeperStopsOnlyOn | module/x/nab/keeper/attestation_handler.go:64-171 | a block that stops the keeper observed an unsupported event, or the current validator set cannot be made |
| NabKeeper.Keeper.AttestationTally | module/x/nab/abci.go:77-116 | the loop over all nonces is the tally that stops at the first nonce without a quorum, with every observed claim applied; the tally's own panics are unreachable |
| NabKeeper.Keeper.ProcessAttestation | module/x/nab/keeper/attestation.go:110-127 | a claim that fails leaves the state as it was, one that succeeds is committed |
| NabKeeper.Keeper.Handle | module/x/nab/keeper/attestation_handler.go:19-173 | the effect, the failure or the panic of each kind of claim, as the lemmas of `effects.dfy` spell them out |
| NabKeeper.Keeper.SendToEth | module/x/nab/keeper/pool.go:20-94 | a transfer takes effect as a whole or not at all |
| NabKeeper.Keeper.CancelSendToEth | module/x/nab/keeper/pool.go:100-168 | a refund takes effect as a whole or not at all |
| NabKeeper.Keeper.RequestBatch | module/x/nab/keeper/msg_server.go:134-158 | the stored batch of 1 to 50 transfers for the contract that the denomination stands for, with the next nonce, the block's height and the timeout that the known heights give |
| NabKeeper.ProgressEnd | module/x/nab/abci.go:90-115 | once every nonce was passed, the state is the one that the specified tally leaves |
| Keys.BigEndianOrder | module/x/nab/types/key.go:215-225 | big-endian bytes of one length are ordered and equal as the numbers are |
| Keys.PrefixRange | module/x/nab/keeper/keeper.go:247-273 | the carry loop ends with the prefix plus one, or an open end for a prefix of all ones |
| Keys.RangeIsPrefix | module/x/nab/keeper/keeper.go:247-273 | a key at least as long as the prefix is in the range exactly if it has the prefix |
| Keys.EncodeInjective | module/x/nab/types/key.go:21-284 | no two keys, of one table or of two, have the same bytes |
| Keys.PoolEntryParts | module/x/nab/types/key.go:208-225 | a pool key is 0x7, the contract, the fee in 32 big-endian bytes and the id in 8 |
| Keys.BatchParts | module/x/nab/types/key.go:227-232 | a batch key is 0xa, the contract and the nonce in 8 bytes |
| Keys.AttestationParts | module/x/nab/types/key.go:188-203 | an attestation key is 0x6, the nonce in 8 bytes and the hash |
| Keys.ValsetParts | module/x/nab/types/key.go:150-164 | set keys are 0x3 and the nonce, confirmation keys 0x4, the nonce and the validator |
| FlatStore.SetRefines | module/x/nab/types/key.go:132-284 | setting a key changes exactly one typed entry |
| FlatStore.DeleteRefines | module/x/nab/types/key.go:132-284 | deleting a key removes exactly one typed entry |
| FlatStore.GetRefines | module/x/nab/types/key.go:132-284 | reading a key reads its typed entry |
| FlatStore.PoolOrder | module/x/nab/types/key.go:208-225 | the byte order of pool keys is contract, then fee, then id |
| FlatStore.ContractScan | module/x/nab/keeper/pool.go:254-271 | whatever else is stored, the reverse scan of a contract's prefix is the descending list of its pool entries |
| FlatStore.TableScan | module/x/nab/keeper/pool.go:214-222 | the reverse scan of the pool's own prefix is the descending list of all pool entries |
| Wire.SovIsLength | module/x/nab/types/batch.pb.go:646-648 | the computed size is the length of the varint, for every value |
| Wire.EncodeVarint | module/x/nab/types/batch.pb.go:537-547 | the varint is written to end at the offset, and the rest of the buffer is untouched |
| Wire.DecodeVarint | module/x/nab/types/batch.pb.go:658-672 | the shifting loop reads a varint or fails as specified |
| Wire.VarintRoundTrip | module/x/nab/types/batch.pb.go:537-547 | every 64 bit value is read back as it was written |
| Wire.VarintIs | module/x/nab/types/batch.pb.go:537-547 | byte i of a varint is the i-th group of seven bits, with the high bit set on all but the last |
| Wire.Skip | module/x/nab/types/batch.pb.go:1305-1382 | the loop ends behind the unknown field, with nested groups closed |
| Wire.SkipsWhole | module/x/nab/types/batch.pb.go:1305-1382 | an unknown varint, 64 bit, length-delimited or 32 bit field is skipped from its key to its end |
| Messages.MarshalTxTo | module/x/nab/types/batch.pb.go:399-448 | the backward writer puts exactly the bytes of the transfer in front of the end and touches nothing else |
| Messages.MarshalBatchTo | module/x/nab/types/batch.pb.go:340-382 | the same for a batch |
| Messages.MarshalTokenTo | module/x/nab/types/attestation.pb.go:314-337 | the same for a token |
| Messages.MarshalIdSetTo | module/x/nab/types/pool.pb.go:160-184 | the same for a set of ids, through a scratch buffer that is never too small |
| Messages.MarshalBatch | module/x/nab/types/batch.pb.go:325-333 | a buffer of the computed size is filled completely, down to index 0 |
| Messages.MarshalTx | module/x/nab/types/batch.pb.go:384-392 | the same for a transfer |
| Messages.MarshalToken | module/x/nab/types/attestation.pb.go:299-307 | the same for a token |
| Messages.MarshalIdSet | module/x/nab/types/pool.pb.go:145-153 | the same for a set of ids |
| Messages.TxSizeIsExact | module/x/nab/types/batch.pb.go:576-601 | the size of a transfer is the number of bytes written |
| Messages.BatchSize | module/x/nab/types/batch.pb.go:548-574 | the size of a batch is the number of bytes written |
| Messages.IdSetSize | module/x/nab/types/pool.pb.go:237-251 | the size of a set of ids is the number of bytes written |
| Messages.UnmarshalTx | module/x/nab/types/batch.pb.go:825-1029 | the reading loop is the specified reader, errors included, for any codec of amounts |
| Messages.UnmarshalBatch | module/x/nab/types/batch.pb.go:652-824 | the same for a batch |
| Messages.UnmarshalIdSet | module/x/nab/types/pool.pb.go:274-399 | the same for a set of ids, packed or not |
| Messages.TxRoundTrip | module/x/nab/types/batch.pb.go:825-1029 | every transfer is read back as it was written |
| Messages.BatchRoundTrip | module/x/nab/types/batch.pb.go:652-824 | every batch is read back as it was written |
| Messages.TokenRoundTrip | module/x/nab/types/attestation.pb.go:553-668 | every token is read back as it was written |
| Messages.IdSetRoundTrip | module/x/nab/types/pool.pb.go:274-399 | every set of ids is read back as it was written |
| Layout.TxLayout | module/x/nab/types/batch.pb.go:399-448 | a reader that knows only numbers and wire types finds in the bytes of a transfer the non-empty ones of id as field 1, sender 2, dest 3, token 4, fee 5, in this order, and nothing else |
| Layout.TokenLayout | module/x/nab/types/attestation.pb.go:314-337 | the same of a token: contract as field 1 if not empty, amount as field 2 in any case |
| Layout.BatchLayout | module/x/nab/types/batch.pb.go:340-382 | the same of a batch: nonce 1, timeout 2, each transfer 3, contract 4, block 5 |
| Layout.IdSetLayout | module/x/nab/types/pool.pb.go:160-184 | the same of a set of ids: one packed field 1, or nothing |
| Layout.Examples | module/x/nab/types/batch.pb.go:399-448 | the bytes of a small transfer, token and batch |
| Layout.IdSetExample | module/x/nab/types/pool.pb.go:160-184 | the bytes of a set of two ids |
| Layout.TxReads | module/x/nab/types/batch.pb.go:825-1029 | whatever is read as a transfer: id, sender and dest are the last fields 1, 2 and 3, token and fee the merged fields 4 and 5 |
| Layout.TokenReads | module/x/nab/types/attestation.pb.go:553-668 | whatever is read as a token: contract and amount are the last fields 1 and 2 |
| Layout.BatchReads | module/x/nab/types/batch.pb.go:652-824 | whatever is read as a batch: nonce, timeout, contract and block are the last fields 1, 2, 4 and 5, the transfers all fields 3 in order |
| Layout.IdSetReads | module/x/nab/types/pool.pb.go:274-399 | whatever is read as a set of ids: the numbers of all fields 1 in order, packed or not |
| Layout.LastOneCounts | module/x/nab/types/batch.pb.go:859-959 | of a repeated field the last one counts |
| Search.FindLatestValset | orchestrator/relayer/src/find_latest_valset.rs:23-69 | the windows find the newest validator set update of the whole log, and the search panics exactly if there is none or no block after the first |
| Search.GetLastCheckedBlock | orchestrator/orchestrator/src/oracle_resync.rs:37-219 | the windows find the block of the event with the requested nonce, and the search panics exactly if the log has none |

## Left out

- Run.NoDoublePay: that no cleanup cancels a batch which Ethereum has executed or can still execute is assumed, because the
  claim hash does not cover the height; nothing is claimed across export and import, since the id counters are not part of
  the genesis state.
- Solvency.VouchersConserved: only tokens that never enter the cosmos-originated index and are not the swap token, because a
  refund always pays the voucher denomination (`module/x/nab/keeper/pool.go:138`); a deposit for an invalid receiver is
  rolled back and counts as none.
- Oracle.GenesisRoundTrip: the genesis of the oracle only; the other tables are copied without reconstruction.
- Oracle.Attest: the orchestrator key is taken as resolved to its validator; a missing one is a panic before any write.
- ValsetKeeper.Keeper.ValsetSlashing: slashing and jailing are records of who is slashed and jailed; what staking reports
  may differ from set to set, and how it changes by the slashing itself is not modelled.
- NabKeeper.Keeper.EndBlocker: the slashing for batches and logic calls is only the given fact whether it jailed someone, and
  the cleanup of logic calls is left out, since no message creates one.
- ValsetKeeper.Keeper.CreateValsets: the checkpoint that is stored with a new set is left out.
- Search.FindLatestValset: every event parses and every query succeeds; parse errors, retries and the comparison with the
  set that Cosmos has are left out.
- Search.GetLastCheckedBlock: the same, and every event has a block number.
- Outgoing.BatchTimeoutIs: the product of time and blocks and the final sum are unbounded, so the parameters are taken as small
  enough for 64 bits.
- FlatStore.PoolOrder: contracts have 42 ASCII characters, which message validation enforces; fees fit 32 bytes.
- OutgoingKeeper.Keeper.BuildOutgoingTXBatch: the second index of batches by block height, whose key holds one batch a
  block, and the signature checkpoints are left out.
- Messages.TokenRoundTrip: an amount is the byte string of its own codec, which is only known by which strings it accepts;
  messages are smaller than 2^63 bytes.
- NabKeeper.Keeper.SendToEth: the bank's send restrictions and blocked accounts, and overflow of sdk.Int and of 64 bit
  counters, are left out.
- Parsing of bech32 addresses: an address is a string that is empty or valid.
- Batch and logic call slashing, logic call creation and cancellation, evidence, confirmations of batches and sets, delegate
  keys: they follow the same shapes as what is modelled, or nothing in the repository creates their input.
- Contract addresses that differ only in upper and lower case are different strings, as in the source.
- Command line, queries, gateway, events, logging and the relayer's profitability checks.
