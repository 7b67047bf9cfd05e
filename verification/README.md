# Armada proof models

A Dafny model of five parts of the Armada repository, and proofs about them:

1. the incremental Merkle tree, and the shielded-note ledger that the wallet code spends from;
2. the Safe batch tool: launch CSV, validator, batch planner, canonical JSON and checksum;
3. the cross-chain relayer, with its packed message format;
4. the deploy-time transaction protocols: nonces, the send guard, timelock calls, lock activation and the reserve plan;
5. log scans that must miss nothing: timelock role holders and swept tokens.

Code that updates state is modelled by classes and methods with loops. Each is proved equal to a
specification function or to a statement about its new state, and the main results are lemmas about those functions
or invariants kept by every step. Everything the code gets from outside (RPC nodes, chains, the
operator, other users) is a class whose methods choose their answers freely within a stated contract.

| file | what it holds |
|---|---|
| `MerkleTree.dfy` | plain recursive tree hash, paths and binding; the class `MerkleTree` |
| `Transfers.dfy`, `NoteLedger.dfy` | commitments, nullifiers, transfers and unshields; the pool and its runs |
| `LaunchCsv.dfy`, `LaunchValidation.dfy`, `LaunchPlan.dfy`, `LaunchRefinement.dfy` | parser, validator, planner, the crowdfund's calls, and how they agree |
| `CanonicalJson.dfy`, `BatchChecksum.dfy` | the key-sorted serializer with its parser; the checksum preimage |
| `MessageV2.dfy`, `Relayer.dfy` | the packed message; the relayer against chains that move on |
| `NonceManager.dfy`, `SendGuard.dfy`, `DeployChain.dfy`, `TimelockCall.dfy` | nonces, guarded sends, the deployer's chain, timelock calls and lock activation |
| `ReservePlan.dfy` | the plan, the lock's constructor, and the checks before funding |
| `BlockLogs.dfy`, `LogScans.dfy` | logs by block; the two scans |
| `Wrappers.dfy`, `Strings.dfy`, `Positional.dfy` | option and result types, text operations, digits in a base |

## Findings

Where the code and its documentation or its use differ, the model follows the code.

- `insert` compares the index with the constant 2^16, not with 2^depth. With a smaller depth it takes leaves that the
  root does not show (`MerkleSpec.RootIgnoresLeafIff`, `MerkleTrees.CapacityCheckCoversDepth`).
- `verifyProof` looks at as many index bits as the path is long. A proof is accepted for every index that
  is the same modulo 2^depth, and for an empty path for any index (`MerkleSpec.FoldPathIsPeriodic`, `MerkleSpec.AcceptedProofBinds`).
- The validator misses two rules of the crowdfund: a file that names the zero address, or that needs more participant nodes than
  the contract's cap of 1800 leaves, passes `validateLaunchRows`, and its batch then reverts
  (`LaunchRefinement.ZeroAddressPassesAndReverts`, `LaunchRefinement.FullNodesPassAndRevert`). Apart from these two, passing and
  executing agree (`LaunchRefinement.ValidPlanNeverReverts`).
- `createUnshield` builds an unshield of amount 0, and both builders take negative amounts; the pool refuses them all
  (`NoteLedger.EmptyUnshieldIsRefused`, `NoteLedger.NegativeTransferIsRefused`).
- The builders take any number of notes, while the pool verifies only shapes with a registered key. With the shapes of `lib/artifacts.ts:70-100` a spend
  with two outputs, so every unshield, goes through only for one to six notes, and one with a single output only for one to eight
  (`NoteLedger.RegisteredInputCounts`, `NoteLedger.TooManyNotesAreRefused`).
- A written batch file verifies on import exactly when it had no checksum field before (`BatchChecksum.ImportVerifiesIff`).
  The files the tool builds have none.
- The relayer moves its block cursor past messages whose relay failed, so delivery is not guaranteed. What is proved is what each
  attempt's outcome means.
- `_legacy/relay-v2.ts:146-151` says its packing is the exact layout that the mock transmitter expects. It is not: the relayer packs an
  8-byte nonce and a 124-byte header, and `contracts/cctp/ICCTPV2.sol:211-228` reads a 32-byte nonce and 148 bytes. A
  packed event passes the transmitter's checks exactly when its body has 24 bytes or more and the word read as destination caller, which always holds the finality
  constant, is the relayer's own address (`TransmitterV2.PackedIsReceivedIff`, `TransmitterV2.CallerReadIs`). A standard-finality message is always
  refused (`TransmitterV2.FailingEventIsPackedAndRefused`), and a relayer whose address does not start with 0x000007d0 delivers nothing at all
  (`Relayer.ContractsTakeNothing`). The relayer results hold for any transmitter, and say what delivered means for each layout.
- The schedule check against the revenue lock already implies the total that the allocation check compares (`ReservePlans.CheckedLockIsThePlan`).

## Assumptions

- The Poseidon hash is an arbitrary function on lists of integers. Injectivity is a hypothesis of the lemmas that need it;
  binding is also stated without it, as "or here is a collision".
- The pool's rules are those of `contracts/privacy-pool/modules/TransactModule.sol:294-498`: its mode, chain, adapt contract, root recorded for the
  tree named, the unshielded output, a key registered for the shape (`contracts/privacy-pool/PrivacyPool.sol:513-521`) and the circuit relation, unused
  nullifiers. A batch that does not fit the last tree opens a new one (`contracts/privacy-pool/modules/MerkleModule.sol:79-120`). It takes a shield of a
  positive value. The circuit relation includes that output values are in the 120-bit range of the contracts' value type
  (`contracts/privacy-pool/types/PoolTypes.sol:78`); the circuits themselves are not part of this model. No commitment equals the padding value, a tree has
  more than one leaf, token transfers succeed, the gas price floor is 0 as the builders set it, and a request names the tree its wallet has synced.
- `isAddress`/`getAddress` are an arbitrary predicate and an idempotent normaliser whose results have no comma and no blank.
- The crowdfund's storage has `invitesReceived >= 1` exactly when whitelisted, and counters within their limits. `state.slots` shows what it
  holds for every row's address and hop.
- Relayer: one sender per chain; a send that throws was not broadcast; "already processed" errors come only from the transmitter, and are true;
  a message key is sent once on its source chain, and the fields of its event fit their types; `getLogs` returns all logs of the range;
  blocks are never removed. Failed transactions, failing nodes, and nodes that lag in the block number or the transaction count are allowed. The
  results hold for any transmitter, given by the key it marks for each packed event.
- Deploy chain: only the deployer's key uses its nonces; OpenZeppelin's timelock rules for schedule, execute and cancel; anyone may schedule, execute,
  cancel, activate or fund at any moment; every read may come from a node that shows any earlier state; a send that throws may or may not have been
  broadcast; the process may die inside any call; a node that accepts a used nonce has lost that transaction.
- A Ledger plugin error is raised before broadcast.

## Model

| member | source | states |
|---|---|---|
| MerkleSpec.NodeIsHalvesHash | lib/_legacy/merkle_tree.ts:75-83 | the reference tree: node `index` of a level is the hash by halves of the 2^level padded leaves below it |
| MerkleSpec.AppendOffPath | lib/_legacy/merkle_tree.ts:106-122 | a new leaf changes no node off its own path to the root, which is why one path update is enough |
| MerkleTrees.MerkleTree.constructor | lib/_legacy/merkle_tree.ts:42-51 | a new tree is valid and has no leaves: every read already equals the hash of an all-padding tree |
| MerkleTrees.MerkleTree.ComputeZeros | lib/_legacy/merkle_tree.ts:58-63 | after the loop every level holds the hash of an empty subtree of that height |
| MerkleTrees.MerkleTree.GetNode | lib/_legacy/merkle_tree.ts:75-83 | in a valid tree every read, stored or default, is the recursive hash of the padded leaves |
| MerkleTrees.MerkleTree.Root | lib/_legacy/merkle_tree.ts:68-70 | in a valid tree the root is the recursive hash of all padded leaves |
| MerkleTrees.MerkleTree.Insert | lib/_legacy/merkle_tree.ts:96-126 | appends exactly the leaf, returns its index and keeps the tree valid; a full tree is an error that changes nothing |
| MerkleTrees.MerkleTree.UpdatePathToRoot | lib/_legacy/merkle_tree.ts:106-122 | the level loop turns agreement at level 0 into agreement at every level for the extended leaves |
| MerkleTrees.MerkleTree.InsertBatch | lib/_legacy/merkle_tree.ts:131-133 | a batch equals repeated inserts with consecutive indices, and stops at the capacity with the earlier leaves kept |
| MerkleTrees.MerkleTree.GetProof | lib/_legacy/merkle_tree.ts:138-161 | the proof has the leaf, the tree's sibling path and its root; an unknown index is an error |
| MerkleTrees.MerkleTree.VerifyProof | lib/_legacy/merkle_tree.ts:166-182 | accepts exactly when folding the path from the leaf gives the claimed root |
| MerkleSpec.SiblingPathFolds | lib/_legacy/merkle_tree.ts:147-153 | the sibling path of any node leads to its ancestor |
| MerkleSpec.ProofOfLeafFolds | lib/_legacy/merkle_tree.ts:138-182 | completeness: every returned proof folds to the current root for an index inside the tree, and to its own subtree's top beyond it |
| MerkleSpec.PathBinds | lib/_legacy/merkle_tree.ts:166-182 | a path that reaches the tree's node carries the tree's own value and siblings, or shows a collision at some level |
| MerkleSpec.AcceptedProofBinds | lib/_legacy/merkle_tree.ts:166-182 | an accepted proof for any index carries the padded leaf at that index modulo 2^depth, or shows a collision |
| MerkleSpec.AcceptedProofCarriesLeaf | lib/_legacy/merkle_tree.ts:166-182 | with an injective hash and an index inside the tree: accepted exactly for the padded leaf with the tree's own path |
| MerkleSpec.FoldPathIsPeriodic | lib/_legacy/merkle_tree.ts:170-179 | verification does not see index bits above the path length |
| MerkleSpec.RootDeterminesLeaves | lib/_legacy/merkle_tree.ts:68-70 | with an injective hash, equal roots mean equal padded leaves |
| MerkleSpec.RootIgnoresLeafIff | lib/_legacy/merkle_tree.ts:96-122 | the exact condition under which an inserted leaf does not show in the root |
| MerkleTrees.CapacityCheckCoversDepth | lib/_legacy/merkle_tree.ts:15-16 | the constant capacity check guards 2^depth exactly when depth is at least 16 |
| MerkleTrees.MerkleTree.Export | lib/_legacy/merkle_tree.ts:201-213 | serializes exactly the leaves and root; fails exactly when one is no 32-byte value |
| MerkleTrees.MerkleTree.Import | lib/_legacy/merkle_tree.ts:218-229 | builds a valid tree of exactly the leaves as BigInt reads their texts; fails exactly on an unreadable leaf or too many leaves |
| MerkleTrees.ExportThenImport | lib/_legacy/merkle_tree.ts:201-229 | import undoes export: same leaves, root and node reads |
| Wallets.CommitmentOpensOnce | lib/_legacy/wallet.ts:152-202 | with an injective hash a commitment opens to one note of one wallet |
| Wallets.NullifierDetermines | lib/_legacy/wallet.ts:168-170 | with an injective hash a nullifier determines key and leaf index |
| Transfers.BuildCircuitInputs | lib/_legacy/prover.ts:182-258 | what it builds balances and uses one token on both sides |
| Transfers.InputProofs | lib/_legacy/transfer.ts:143-148 | the proofs of the inputs against the current tree, or the first error |
| Transfers.CreateTransfer | lib/_legacy/transfer.ts:102-179 | the method on the live tree equals the specified transfer over its leaves |
| Transfers.CreateUnshield | lib/_legacy/transfer.ts:188-295 | the method on the live tree equals the specified unshield over its leaves |
| Transfers.TransferBuiltIffWellFormed | lib/_legacy/transfer.ts:118-148 | a transfer is built exactly for a well-formed request, and never fails on balance, outputs or lengths |
| Transfers.UnshieldBuiltIffWellFormed | lib/_legacy/transfer.ts:207-251 | the same for an unshield, whose change note is always made |
| Transfers.FindSpendableNotes | lib/_legacy/transfer.ts:514-537 | the loop's result is the specified list of notes with their positions and paths |
| Transfers.SpendableAreAtTheirLeaf | lib/_legacy/transfer.ts:521-534 | that list has exactly the notes whose commitment is the leaf at their position |
| Transfers.SpendableRise | lib/_legacy/transfer.ts:521-534 | in rising leaf order, so each once |
| NoteLedger.NullifySucceedsIff | contracts/privacy-pool/modules/TransactModule.sol:391-398 | marking nullifiers one by one succeeds exactly when they are distinct and unused |
| NoteLedger.NullifierSpendsItsNote | lib/_legacy/wallet.ts:168-170 | a fresh nullifier of a leaf takes exactly that note's value out of the unspent total |
| NoteLedger.AcceptedInputsAreOwned | lib/_legacy/prover.ts:205-258 | a circuit accepted against any past root spends notes of its own wallet at their true value |
| NoteLedger.TransactMovesValue | lib/_legacy/prover.ts:202-223 | an accepted transaction moves its inputs' value to the notes it keeps, token by token |
| NoteLedger.InsertAddsWorth | contracts/privacy-pool/modules/MerkleModule.sol:79-120 | new notes go to the last tree, or all to a new one when they do not fit; either way they are appended to all notes and add their value |
| NoteLedger.RunConservesValue | lib/_legacy/transfer.ts:118-243 | over every run of shields, transfers and unshields, through any number of trees: unspent value equals value in minus value out |
| NoteLedger.WithdrawalsAreCovered | lib/_legacy/transfer.ts:118-243 | over every run and for every token no more goes out than came in |
| NoteLedger.OwnCircuitHoldsIff | lib/_legacy/prover.ts:213-258 | a circuit built from a wallet's own notes holds exactly when its output values are in range |
| NoteLedger.RootKnownIff | contracts/privacy-pool/modules/MerkleModule.sol:104-120 | its root is known to the pool exactly when the wallet stopped syncing at the end of a transaction |
| NoteLedger.OwnCircuitAcceptedIff | contracts/privacy-pool/modules/TransactModule.sol:314-398 | for a wallet's own notes, root, proof and nullifiers are accepted exactly when there is a key for the shape, the wallet synced whole transactions, output values are in range, and the notes are distinct and unspent |
| NoteLedger.OwnTransferAcceptedIff | lib/_legacy/transfer.ts:118-148 | a well-formed transfer of own notes goes through exactly when moreover the pool is open and the chain is its own; then the recipient holds the amount, the sender the rest if any, nothing leaves the pool and the inputs are spent, in a new tree if the last is full |
| NoteLedger.OwnUnshieldAcceptedIff | lib/_legacy/transfer.ts:207-251 | the same for an unshield, in any mode but paused, with a positive amount and an allowed payee: the sender keeps the change note, a zero one too, and exactly the amount leaves the pool |
| NoteLedger.UnshieldChecksIff | contracts/privacy-pool/modules/TransactModule.sol:300-364 | the checks of mode, chain, adapt contract and output pass exactly for a positive amount and a payee that is not the pool, for a redirected unshield the caller |
| NoteLedger.EmptyUnshieldIsRefused | contracts/privacy-pool/modules/TransactModule.sol:332-334 | an unshield of nothing or less is built by the wallet and refused by the pool |
| NoteLedger.NegativeTransferIsRefused | lib/_legacy/transfer.ts:119-140 | a transfer of a negative amount is built by the wallet and refused by the pool |
| NoteLedger.UnregisteredTransferIsRefused | contracts/privacy-pool/PrivacyPool.sol:513-521 | a transfer of a shape without a key is built and then refused |
| NoteLedger.UnregisteredUnshieldIsRefused | contracts/privacy-pool/PrivacyPool.sol:513-521 | so is an unshield |
| NoteLedger.RegisteredInputCounts | lib/artifacts.ts:70-100 | with the registered shapes, two outputs mean one to six notes and a single output one to eight |
| NoteLedger.TooManyNotesAreRefused | lib/_legacy/transfer.ts:215-233 | with the registered shapes an unshield of more than six notes is built and then refused |
| NoteLedger.UnshieldBuilds | lib/_legacy/transfer.ts:225-243 | an unshield has two outputs, the change first, and the last commitment is that of payee, token and amount |
| LaunchCsv.ParseLaunchCsv | scripts/safe-batch.ts:116-149 | the loops compute the specified parse, with its three errors |
| LaunchCsv.LineIsBadIff | scripts/safe-batch.ts:128-143 | a line is an error exactly when malformed, and skipped exactly when blank |
| LaunchCsv.ErrorsNameMalformedLines | scripts/safe-batch.ts:126-146 | the error list names exactly the malformed non-blank lines |
| LaunchCsv.ErrorsAscend | scripts/safe-batch.ts:126-146 | errors come in line order, at most one per line |
| LaunchCsv.CsvRoundTrip | scripts/safe-batch.ts:116-149 | printed rows, labels with commas included, with blank lines anywhere, blanks around fields, a header in any case and either line ending, parse back in order with true line numbers |
| LaunchValidation.ValidateLaunchRows | scripts/safe-batch.ts:215-269 | the method with its two lookup tables computes the specified findings, defined by occurrence counts over earlier rows |
| LaunchValidation.CheckRow | scripts/safe-batch.ts:231-256 | one turn of the loop: the verdict from the tables is the one from the counts, and the tables stay a shadow of the rows seen |
| LaunchPlan.Chunk | scripts/safe-batch.ts:273-277 | the slicing loop equals the recursive cutting |
| LaunchPlan.PlanLaunchBatches | scripts/safe-batch.ts:272-282 | the method computes the specified plan |
| LaunchPlan.Plan | scripts/safe-batch.ts:271-282 | every batch is non-empty, of one kind and within its limit |
| LaunchPlan.PlanKeepsRows | scripts/safe-batch.ts:272-282 | flattened, the plan is the seeds in file order and then the invites in file order |
| LaunchRefinement.FileCallsMeanRows | scripts/safe-batch.ts:312-320 | a file's calls name exactly the batch's addresses and hops, with fromHop = hop - 1 |
| LaunchRefinement.PlanCallsMeanRows | scripts/safe-batch.ts:271-334 | the calls of all files together name the seeds in file order and then the invites in file order |
| LaunchRefinement.SeedsTextRoundTrip | scripts/safe-batch.ts:315 | the seeds argument text reads back as the addresses |
| LaunchPlan.BatchesRunAsRows | contracts/crowdfund/ArmadaCrowdfund.sol:223-343 | executing the files call by call is executing their rows one by one |
| LaunchRefinement.ExecRowsIffLegal | contracts/crowdfund/ArmadaCrowdfund.sol:223-343 | rows execute exactly when each is legal given the counts and new nodes before it, and leave the counted state |
| LaunchRefinement.LegalIffFits | contracts/crowdfund/ArmadaCrowdfund.sol:223-343 | step-by-step legality, node cap included, is a property of totals, so independent of the order |
| LaunchRefinement.FitsInPlannedOrder | scripts/safe-batch.ts:271-282 | moving the seeds first breaks no rule and hides none |
| LaunchRefinement.ValidPlanNeverReverts | scripts/safe-batch.ts:215-282 | the refinement: with stacking allowed, no errors, no zero address and new nodes within the cap, exactly when the planned calls never revert inside the window |
| LaunchRefinement.ClosedSaleReverts | contracts/crowdfund/ArmadaCrowdfund.sol:792-801 | outside the window or phase every plan of non-empty rows reverts |
| LaunchRefinement.ZeroAddressPassesAndReverts | scripts/safe-batch.ts:231-256 | a zero-address invite has no error and reverts |
| LaunchRefinement.FullNodesPassAndRevert | contracts/crowdfund/ArmadaCrowdfund.sol:248-257 | with all nodes taken, a new invite has no error and reverts |
| LaunchRefinement.SummaryCountsMatchChain | scripts/safe-batch.ts:370-390 | the summary's "after" column is the counters on chain after the run |
| LaunchRefinement.StackedAreFurtherInvites | scripts/safe-batch.ts:244-251 | `stacked` is exactly the rows that add a further invite |
| LaunchRefinement.RowFindingsWithoutStacking | scripts/safe-batch.ts:248-254 | a file passes without stacking exactly when it passes with it and nothing is stacked |
| LaunchRefinement.WithoutStackingOneInviteEach | scripts/safe-batch.ts:248-254 | without stacking, a clean file executes unless it names the zero address or needs too many nodes, and then every invited address and hop ends at exactly one invite |
| JsonStrings.ReadOfQuote | scripts/safe-batch.ts:287-296 | a JSON string literal reads back, whatever follows it |
| SortedEntries.SortAscends | scripts/safe-batch.ts:291 | sorting distinct keys gives a strictly ascending list in UTF-16 order |
| CanonicalJson.ParseOfSerialize | scripts/safe-batch.ts:288-297 | the serializer has an inverse: a parser recovers every value up to key order |
| CanonicalJson.CanonIffSame | scripts/safe-batch.ts:291-294 | key-sorted forms are equal exactly when values are equal up to key order |
| CanonicalJson.SameTextIffSame | scripts/safe-batch.ts:288-297 | equal text exactly when the values are equal up to key order at every depth |
| BatchChecksum.PreimageIgnoresExactlyName | scripts/safe-batch.ts:299-301 | two files hash the same text exactly when they agree on everything but meta.name |
| BatchChecksum.ImportVerifiesIff | scripts/safe-batch.ts:284-305 | deleting the added checksum and recomputing verifies exactly when no checksum was there before |
| MessageV2.FieldOffsets | _legacy/relay-v2.ts:31-43 | the length is 124 plus the body and every field sits at its documented offset |
| MessageV2.DecodeOfEncode | _legacy/relay-v2.ts:152-182 | a decoder undoes the encoding for all in-range fields and every body |
| MessageV2.EncodeOfDecode | _legacy/relay-v2.ts:152-182 | every message that decodes is the encoding of what it decodes to |
| MessageV2.EncodingIsInjective | _legacy/relay-v2.ts:152-182 | different in-range events have different encodings |
| TransmitterV2.PackedIsReceivedIff | contracts/cctp/MockCCTPV2.sol:440-464 | a packed event passes the contracts' checks of layout and caller exactly when it is for this chain, its body has at least 24 bytes, and the word read as destination caller is the relayer's address |
| TransmitterV2.CallerReadIs | contracts/cctp/ICCTPV2.sol:211-220 | that word is the relayer's address exactly for an event whose destination caller ends in zeros, without minimum finality, and a relayer address of the finality constant and the body's first 16 bytes |
| TransmitterV2.StandardEventIsRefused | _legacy/relay-v2.ts:146-151 | an event that asks for standard finality is refused whoever relays it |
| TransmitterV2.OrdinaryRelayerIsRefused | contracts/cctp/MockCCTPV2.sol:447-455 | a relayer whose address does not start with the finality constant has every event refused |
| TransmitterV2.FailingEventIsPackedAndRefused | _legacy/relay-v2.ts:146-151 | a concrete event, open to any caller, that is packed and refused for every relayer |
| BlockLogs.LogsBetweenJoin | _legacy/relay-v2.ts:436-453 | scanning two adjacent ranges finds what one scan over both finds |
| Relayer.CCTPV2Relayer.constructor | _legacy/relay-v2.ts:290-302 | fresh chain states, with cursor 0, nothing processed and no pending nonce, satisfy the invariant |
| Relayer.CCTPV2Relayer.RelayMessage | _legacy/relay-v2.ts:319-413 | relays at most one message, marks it exactly when it was relayed or found processed, and then it is delivered; fails only after a failed call, and keeps the pending nonces in sync |
| Relayer.CCTPV2Relayer.Settle | _legacy/relay-v2.ts:395-412 | success and "already processed" mark the message; exactly a nonce error resets the destination's pending nonce; nothing else changes |
| Relayer.CCTPV2Relayer.EnsureNonce | _legacy/relay-v2.ts:360-369 | a missing pending nonce is fetched; it is then the account's next unused nonce exactly when this count read did not lag |
| Relayer.CCTPV2Relayer.SendWithNonce | _legacy/relay-v2.ts:371-393 | a send accepted raises the pending nonce by one at once, also when the transaction later reverts; a failed send leaves it; a nonce in sync stays in sync |
| Relayer.CCTPV2Relayer.RelayLogs | _legacy/relay-v2.ts:462-468 | every log found is attempted once, in order, whatever the outcomes |
| Relayer.CCTPV2Relayer.PollChain | _legacy/relay-v2.ts:418-474 | keeps the invariant; the cursor starts at the head, moves to the head after a successful fetch, and stays otherwise, which takes a failed call or no new block; other chains' cursors and processed sets are untouched |
| Relayer.CCTPV2Relayer.Sweep | _legacy/relay-v2.ts:519-522 | a pass over all chains keeps the invariant and only adds to each history |
| Relayer.CCTPV2Relayer.Start | _legacy/relay-v2.ts:515-528 | so does any number of sweeps |
| Relayer.WhatARunGuarantees | _legacy/relay-v2.ts:418-474 | for each chain: scanned ranges are disjoint and cover exactly the blocks from the start to the cursor, exactly their logs were attempted, no message twice, each outcome is true (known domain and not failed means the destination's transmitter processed it), and a pending nonce is never ahead and is the account's next unused one unless the count read it came from lagged |
| Relayer.NoFailureMeansDelivered | _legacy/relay-v2.ts:319-474 | as long as no call has failed, every message found for a known domain has been processed by its destination's transmitter |
| Relayer.ProcessedIffDone | _legacy/relay-v2.ts:395-404 | a chain's processed set has exactly the keys of the attempts that relayed or found processed, each of them delivered |
| Relayer.PackedLayoutDelivers | _legacy/relay-v2.ts:31-43 | with transmitters of the documented layout, processed means under the event's own source domain and nonce |
| Relayer.ContractsTakeIff | contracts/cctp/MockCCTPV2.sol:440-464 | which events from this relayer pass the checks of the contracts' transmitters, exactly |
| Relayer.ContractsTakeNothing | contracts/cctp/MockCCTPV2.sol:440-464 | with the contracts' transmitters and an ordinary relayer address, every attempt for a known domain fails and nothing is ever marked |
| NonceManagers.NonceManager.Override | scripts/deploy-utils.ts:121-127 | hands out the next nonce and moves on by one |
| NonceManagers.RetryReadOnLag | scripts/deploy-utils.ts:71-87 | returns the first success; the last error only after max(1, attempts) failures, all earlier checks having failed |
| NonceManagers.AwaitExpectedNonce | scripts/deploy-utils.ts:158-182 | succeeds exactly when the first read that does not lag, within the attempts, shows the expected nonce; aborts exactly when it shows a higher one |
| NonceManagers.CreateNonceManager | scripts/deploy-utils.ts:102-128 | starts at the expected nonce, or at the one read when none is expected |
| NonceManagers.StartCrowdfundStage | scripts/deploy-utils.ts:136-149 | a hardened live crowdfund stage that starts does so where governance ended |
| SendGuards.SendGuardProvider.Request | scripts/send-guard.ts:51-71 | at most one broadcast per request; every retry is the identical request, confirmed by the operator; only eth_sendTransaction is retried, and a Ledger error surfaces only after a refusal |
| SendGuards.SendAll | scripts/deploy-utils.ts:115-127 | a run of guarded sends broadcasts a gap-free range of nonces, each once and in order; an aborted run broadcast the earlier ones and the last at most once |
| DeployChain.PastIsBehind | scripts/deploy-utils.ts:465-475 | what a lagging node shows as done or active is still so now, so a stale "done" may be trusted |
| DeployWorld.Submit | scripts/deploy-utils.ts:478-482 | a send and its own receipt show that it took exactly the next nonce |
| DeployWorld.BroadcastIsRecorded | scripts/deploy-utils.ts:478-513 | the record the protocols keep is complete: every broadcast of the history is on it with its place, time and a view true by then |
| DeployWorld.RecordedIsBroadcast | scripts/deploy-utils.ts:478-513 | and holds nothing else: everything on it was broadcast, in that order |
| TimelockCalls.EnsureScheduled | scripts/deploy-utils.ts:470-483 | takes a nonce, exactly one, only after an answer that the operation is not pending, and none after an answer that it is; on a normal return that nonce is mined as the schedule call and the result is the timestamp a node showed |
| TimelockCalls.WaitUntilReady | scripts/deploy-utils.ts:485-496 | returns only once the chain's time has reached the timestamp |
| TimelockCalls.ExecuteOp | scripts/deploy-utils.ts:503-523 | nothing is sent before the timestamp read has come; same-nonce retries; a normal return means the execute call is mined, successful, as the last nonce used |
| TimelockCalls.TimelockCall | scripts/deploy-utils.ts:446-523 | a normal return leaves the operation done, and the nonces this run handed out are exactly the last ones mined: none when shown done, the execute call when shown pending, schedule and execute otherwise; no nonce is taken before an answer that it is not done, and nothing sent without a nonce |
| TimelockCalls.ManyRuns | scripts/deploy-utils.ts:446-523 | any number of runs that die or throw anywhere execute the operation at most once and not before its ready time, and exactly once after a normal return; every call they broadcast is on a record of calls made only after the answers that call for them |
| TimelockCalls.BroadcastsFollowWhatWasShown | scripts/deploy-utils.ts:465-513 | every broadcast of the history follows the latest answers got before it, each true of the chain at some moment before it: schedule when neither done nor pending and with the delay read, execute when not done and not before the chain's time reached the timestamp read, activate when inactive and possible |
| LockActivations.EnsureRevenueLockActivated | scripts/revenue-reserve.ts:271-292 | a normal return means the lock is active and was shown so, and a nonce taken was mined and is the last one used; a nonce is taken only after answers that the lock is inactive and the call possible |
| LockActivations.SendActivation | scripts/revenue-reserve.ts:283-291 | a normal return means this very transaction was mined at its nonce, as a success or a revert, and the lock was then shown active; nothing else is tolerated |
| ReservePlans.SumDirect | scripts/revenue-reserve.ts:45-54 | the loop accepts exactly lists of distinct non-zero addresses with positive amounts, and sums them |
| ReservePlans.ValidateReservePlan | scripts/revenue-reserve.ts:40-64 | returns the cap of an accepted plan, and fails exactly when no cap makes it one |
| ReservePlans.RevenueLockSchedule | scripts/revenue-reserve.ts:12-22 | the constructor arguments are the direct entries and then the reserve, or an error when they are no schedule |
| ReservePlans.AssertRevenueLockSchedule | scripts/revenue-reserve.ts:25-37 | passes exactly when the plan is a schedule and count and every planned amount match |
| RevenueLocks.AddAllBuildsSchedule | contracts/governance/RevenueLock.sol:191-203 | the constructor's loop accepts exactly the schedules; the map, count and total it builds are the schedule's |
| ReservePlans.ChecksPassIffSameMap | scripts/revenue-reserve.ts:24-37 | count plus planned amounts match exactly when the on-chain map is the plan: none extra, missing or changed |
| ReservePlans.CheckedLockIsThePlan | scripts/revenue-reserve.ts:24-64 | for an accepted plan a passing check fixes every allocation, and the lock's total is the configured funding |
| ReservePlans.DeployedPlanPasses | scripts/revenue-reserve.ts:11-37 | a lock deployed from a schedule passes that schedule's check |
| RoleHistory.UnexpectedAreExactlyHolders | scripts/verify-timelock.ts:57-70 | looking only at accounts named in the history finds every holder that is not permitted, and nobody else |
| RoleScan.NineHalvings | scripts/verify-timelock.ts:27-50 | the chunk reaches its minimum at the ninth rejection and not before |
| RoleScan.ScanAccounts | scripts/verify-timelock.ts:42-57 | ends, scans each block exactly once in chained ranges, and fails exactly at the tenth rejection |
| RoleScan.TimelockUnexpectedRoleHolders | scripts/verify-timelock.ts:32-71 | the list has exactly the (account, role) pairs held and not permitted, given the history starts at the first block scanned |
| SweptTokens.FetchSweptTokens | scripts/deploy_redemption_router.ts:39-51 | the swept set exactly, in strictly ascending order, each block queried once |
| SweptTokens.FetchInChunks | scripts/deploy_redemption_router.ts:42-48 | the same for any chunk size |
| SweptTokens.SortTokens | scripts/deploy_redemption_router.ts:50 | strictly ascending with exactly the elements of the set |
| SweptTokens.AscendingIsUnique | scripts/deploy_redemption_router.ts:49-50 | such a list is unique, so the result does not depend on the chunk size |

## Left out

- Poseidon, EdDSA, keccak256, field reduction and zero-knowledge proof generation: abstract functions or absent.
- `syncTreeFromContract`, `submitTransfer`, `submitUnshield`, `formatTransactionForContract`, `noteToSpentNote`: fetching and shaping of data.
- Transfers.CreateTransfer: random values are parameters; bound parameters, ciphertexts and signatures are absent. Negative amounts are built, as the code does.
- NoteLedger.RunConservesValue: protocol fees, cross-chain shields and unshields, and batches of several requests.
- LaunchCsv.ParseLaunchCsv: `toLowerCase` changes ASCII letters only, which is all that the header and valid addresses have.
- Error and warning texts of the validator and the summary's layout: errors are constructors with the numbers in the texts.
- CanonicalJson.ParseOfSerialize: a number is its printed text, so number formatting is not modelled; lone surrogates are not escaped.
- `cancelBatchFile`, `batchFileName`: constants and a name.
- Relayer: `initialize`, polling intervals and `stop`; delivery after a failed attempt, which the code does not promise; that the contracts now emit another event than the one the relayer parses.
- TransmitterV2.PackedIsReceivedIff: replay protection, and the dispatch to the recipient that layout reads, which may still revert, come after the checks stated.
- Relayer.ContractsTakeIff: the same.
- SendGuards.SendGuardProvider.Request: the log lines and the nonce shown in them.
- NonceManagers.CreateNonceManager: local chains, where no nonce is handed out.
- The local (Anvil) path of `timelockCall`, and the deterministic salt: one operation is modelled.
- TimelockCalls.WaitUntilReady: the process polls finitely often in its life, so a wait without end shows as its death.
- TimelockCalls.TimelockCall: progress. With nodes that never answer or an operation that others cancel, no run need ever return.
- `withGasHeadroom`, gas limits and gas prices.
- ReservePlans.AssertRevenueLockSchedule: contract reads that fail.
- `assertCreationProvenance`, `assertReservePreFunding`, `assertReservePostFunding`, multisig and role-distinctness checks: single comparisons.
- RoleScan.TimelockUnexpectedRoleHolders: role changes after the latest block scanned, and normalising of addresses, which are numbers here.
- The Solidity contracts beyond the rules cited in the table.
