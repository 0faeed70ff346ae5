# ethrex in Dafny: chain, payload builder, fee market, RLP, discovery and snap sync

This project models the parts of the ethrex Ethereum client that carry real invariants and
proves what they promise. `dafny verify dfyconfig.toml` checks all of it.

| file | what it models |
|---|---|
| `ForkChoice.dfy` | the block tree, adding blocks, fork choice updates and the walk to the link block |
| `HeaderRules.dfy` | header validation and the header a payload is started from |
| `FeeMarket.dfy` | base fee per gas, the gas-limit check, the two fake exponentials |
| `PayloadQueue.dfy` | effective tips, the mempool filter, the queue of per-sender heads |
| `PayloadBuilder.dfy`, `BuiltBlock.dfy` | filling a payload with transactions, what the built block is validated by, and the build from the mempool to the validated block |
| `RlpItems.dfy`, `RlpTypes.dfy`, `RlpBuffer.dfy`, `EthRlp.dfy` | RLP items, typed encoders and decoders, the buffer-writing encoders, headers, transactions, blocks and receipts |
| `Kademlia.dfy`, `Discovery.dfy`, `Lookup.dfy` | the peer table, the interleaved discovery tasks, the recursive lookup |
| `SnapSync.dfy` | the account-range server and client loop, the bytecode fetcher, and the two together |
| `Merkle.dfy` | the L2 withdrawal tree: root, proof and the bridge contract's check |
| `Prelude.dfy`, `Types.dfy` | options, results, headers, transactions, receipts |

Where the Rust code changes something in place, the model has a class or a method with loops,
proved against a specification function; the properties are then lemmas about that function.
Where it computes, the model has functions and lemmas.

What is taken as given:

- Hash functions are parameters. Where collisions matter the contract requires the parameter to
  be injective; `EthRlp.HeaderEncodingIsInjective` shows that the header encoding adds no
  collision of its own between headers whose optional fields are readable.
- Executing a transaction is an arbitrary function of the transactions committed before it, with
  `gas used <= gas limit` as its only law; state, transactions and receipts roots are functions of
  the block's contents. Whether a block executes is a flag of the step that adds it.
- The clock, the network, the peers' answers and the order in which tasks get the table's lock are
  parameters or free choices of a step, so every statement holds for all of them.
- The range check of snap sync is an oracle: it accepts contiguous slices and tells whether keys
  remain to the right.
- Integers are unbounded. The base fee, the two fake exponentials and the RLP splitters have 64-bit
  overflow as an explicit outcome with its exact condition (where the Rust operation is unchecked
  that outcome stands for its panic, or for its wrap-around in a build without overflow checks; for
  the base fee the wrapped values are modelled too). The RLP round trips require encodings shorter
  than 2^64 bytes. Block numbers, gas sums, block values and excess blob gas are taken to stay
  below their bounds.

Promises that turned out not to hold as stated, each with the exact condition:

- A stored safe or finalized block that an update accepts is an ancestor of the new head exactly
  when it is not the old canonical block at the link number
  (`ForkChoice.AcceptedIsAncestorUnlessDisplaced`, example `ForkChoice.DisplacedSafeIsAccepted`).
- The base fee rises by at most max(1, one eighth) exactly under the condition of
  `FeeMarket.BaseFeeRiseBound`; an odd gas limit can break it (`FeeMarket.OddLimitCanRiseMore`).
- For every gas a parent can have used the base fee exists and does not fall with more of it,
  exactly when the full block's does not overflow (`FeeMarket.MonotoneIffFullBlockFits`). With
  wrapping products the bound on falls and the floor of 7 stay and monotonicity goes
  (`FeeMarket.WrappedFloor`, example `FeeMarket.WrappingIsNotMonotone`).
- A header is read back exactly when after every missing optional field the next present one is of
  the other kind, number or hash (`EthRlp.BlockHeaderRoundTrip`, misread headers in
  `EthRlp.MissingFieldsAreMisread`); headers whose present fields come first always are
  (`EthRlp.PrefixIsReadable`).
- Splitting off an RLP item never overflows exactly when no long length reaches the end of the
  machine word (`RlpItems.OverflowExactly`, example `RlpItems.LargestLengthOverflows`).
- A typed transaction's network form is read back exactly from 56 canonical bytes on
  (`EthRlp.NetworkRoundTrip`, example `EthRlp.EmptyTypedTransactionIsLost`).
- A payload header passes validation exactly under the four conditions of
  `HeaderRules.PayloadHeaderIsValid`; the gas-limit rules agree from 4997 upwards. A whole built
  block is accepted exactly under the same ones, provided that Cancun is active, execution rejects
  blob transactions or no pooled one pays the fees (`BuiltBlock.BuildAndValidate`).
- The revalidation task finds every id at its turn, and so never panics, exactly when every failed
  connection to a pending id is followed, before that id's turn, by a step that makes it a peer
  again (`Discovery.NeverPanicsIffMended`, examples `Discovery.FailedConnectionPanics` and
  `Discovery.ReinsertedTurnIsSafe`). Pending ids are in the table at every moment exactly when no
  connection to one fails (`Discovery.PendingStaysPresent`).
- The account sync ends exactly when every account but the last is smaller than a response
  (`SnapSync.SyncEndsIffRoom`); real accounts always are (`SnapSync.RealAccountsLeaveRoom`).
- The contract accepts the node's proof of a withdrawal exactly when all copies of the leaf share
  one pair of siblings (`MerkleTree.ProofVerifies`, example `MerkleTree.RepeatedLeafBreaksProof`).
  It looks at no length, so that it accepts nothing but committed leaves rests on leaves not being
  pair hashes (`MerkleTree.AcceptedExactly`, example `MerkleTree.NodeAsLeafIsAccepted`).

Where code and documentation disagree the code is modelled: the selection of peers to revalidate
is documented by last ping and compares last pongs; a missed revalidation is documented to subtract
a third of the liveness and divides it by three.

## Model

| member | source | states |
|---|---|---|
| `ForkChoice.Ancestors` | crates/blockchain/fork_choice.rs:170-178 | the simple specification of a chain: one stored block per number from genesis to the head, each at its own number |
| `ForkChoice.AncestorsAreLinked` | crates/blockchain/fork_choice.rs:194-212 | consecutive blocks of an ancestor chain are parent and child |
| `ForkChoice.AncestorsAgreeBelow` | crates/blockchain/fork_choice.rs:179-215 | two ancestor chains that meet at a number coincide below it |
| `ForkChoice.LinkOf` | crates/blockchain/fork_choice.rs:179-215 | there is a link number: below it the new chain is canonical, from it on nothing is, except a head that is canonical itself |
| `ForkChoice.Store.FindLinkWithCanonicalChain` | crates/blockchain/fork_choice.rs:179-215 | the walk always finds the link and returns exactly the blocks between it and the head, highest first; it never meets a missing parent |
| `ForkChoice.GuardIsAncestorOrAtLink` | crates/blockchain/fork_choice.rs:83-114 | the written guard on safe and finalized accepts exactly the ancestors of head and the old canonical block at the link |
| `ForkChoice.GuardMeansAdmitted` | crates/blockchain/fork_choice.rs:83-114 | the same over the stored tree, for the branch the walk returned |
| `ForkChoice.Store.CheckForkChoice` | crates/blockchain/fork_choice.rs:28-114 | the checks end in exactly the specified verdict, in their order, and an accepted update carries the right branch |
| `ForkChoice.Store.InstallBranch` | crates/blockchain/fork_choice.rs:119-136 | writing only the branch, removing what is above and writing the head makes the canonical map equal to the whole ancestor chain |
| `ForkChoice.Store.ApplyForkChoice` | crates/blockchain/fork_choice.rs:22-139 | an accepted update leaves exactly the ancestors of head canonical and sets latest, safe and finalized; a rejected one changes nothing |
| `ForkChoice.AcceptedIsAncestorUnlessDisplaced` | crates/blockchain/fork_choice.rs:83-114 | after an accepted update a stored safe or finalized block is an ancestor of head if and only if it was not displaced at the link |
| `ForkChoice.DisplacedSafeIsAccepted` | crates/blockchain/fork_choice.rs:83-114 | a reachable state in which a displaced block is accepted as safe |
| `ForkChoice.AddedIsTree` | crates/blockchain/blockchain.rs:176-184 | storing a child of a stored block keeps every block's parent stored one number below |
| `ForkChoice.AddedKeepsCanonical` | crates/blockchain/blockchain.rs:30-69 | adding a block keeps the chain invariant, the canonical map and every stored block; a refused one stores nothing |
| `ForkChoice.Store.AddBlock` | crates/blockchain/blockchain.rs:30-69 | unknown parent, invalid block and stored block, each with its whole new state |
| `ForkChoice.Run` | crates/blockchain/fork_choice.rs:22-139 | every sequence of added blocks and updates from genesis ends in a state whose canonical map is the ancestor chain of its latest block |
| `ForkChoice.ReachableChainIsLinked` | crates/blockchain/fork_choice.rs:28-136 | in every reachable state the canonical map is gap-free and parent-linked from genesis to latest with nothing above, and every stored block has its parent stored one below |
| `ForkChoice.StepMovesCanonical` | crates/blockchain/fork_choice.rs:22-139 | what one more step of any run does to the canonical map |
| `ForkChoice.ReachableBlocksAreValidated` | crates/blockchain/blockchain.rs:189-214 | every stored block of every run validated against the parent it names |
| `ForkChoice.ReachableBaseFeeFloor` | crates/common/types/block.rs:490-507 | from a genesis base fee of at least 7, no stored block on any branch has less |
| `HeaderRules.BaseFeeFloor` | crates/common/types/block.rs:490-507 | along any validated chain the base fee never drops below 7 once there |
| `HeaderRules.BaseFeeFloorIsTight` | crates/common/types/block.rs:409-447 | no higher floor holds: 8 can become 7 |
| `HeaderRules.BuilderLimitPasses` | crates/blockchain/payload.rs:125-143 | the builder's gas limit passes the validator's check exactly from a parent limit of 4997 on |
| `HeaderRules.MissingBaseFeeIsFarOff` | crates/blockchain/payload.rs:66-123 | without a parent base fee builder and validator expect fees that cannot agree |
| `HeaderRules.PayloadHeaderIsValid` | crates/blockchain/payload.rs:66-123 | a started payload header validates if and only if the parent limit is at least 4997, the parent has a base fee, the timestamp is later and a Cancun payload has a beacon root |
| `FeeMarket.CheckedLimitHasTarget` | crates/common/types/block.rs:335-341 | a passing gas-limit check rules out a zero divisor |
| `FeeMarket.FeeOverflowsExactly` | crates/common/types/block.rs:409-447 | past the limit check the fee overflows exactly when its product or its raised value leaves 64 bits |
| `FeeMarket.FullBlockDecides` | crates/common/types/block.rs:409-447 | no amount of gas used overflows if and only if the full block does not |
| `FeeMarket.BaseFeeMonotone` | crates/common/types/block.rs:409-447 | more parent gas never lowers the fee where neither computation overflows |
| `FeeMarket.MonotoneIffFullBlockFits` | crates/common/types/block.rs:409-447 | over all amounts of parent gas the fee exists and is monotone if and only if the full block's fee does not overflow |
| `FeeMarket.BaseFeeFallsByAtMostOneEighth` | crates/common/types/block.rs:435-446 | the fee, where it does not overflow, falls by at most one eighth |
| `FeeMarket.BaseFeeRiseBound` | crates/common/types/block.rs:424-434 | exactly when a rise that does not overflow stays within max(1, one eighth) |
| `FeeMarket.EvenLimitRise` | crates/common/types/block.rs:424-434 | an even parent limit always stays within it |
| `FeeMarket.OddLimitCanRiseMore` | crates/common/types/block.rs:424-434 | an odd one need not |
| `FeeMarket.WrappedAgrees` | crates/common/types/block.rs:409-447 | the fee with wrapping arithmetic is the same wherever nothing overflows |
| `FeeMarket.WrappedFallIsSmall` | crates/common/types/block.rs:435-446 | it too falls by at most one eighth |
| `FeeMarket.WrappedRise` | crates/common/types/block.rs:424-434 | and rises past the target, unless the fee is within 2^50 of 64 bits |
| `FeeMarket.WrappedFloor` | crates/common/types/block.rs:409-447 | so the floor of 7 survives wrapping products |
| `FeeMarket.WrappingIsNotMonotone` | crates/common/types/block.rs:424-434 | but at 1300 gwei a full block of 30M gas gets a lower fee than one of 29M |
| `FeeMarket.PlainFromValue` | crates/common/types/block.rs:353-363 | what the plain loop returns from any of its states, and exactly when a sum, a product or a divisor overflows |
| `FeeMarket.FakeExponential` | crates/common/types/block.rs:353-363 | the loop ends for every positive denominator; it computes the truncated series, or overflows exactly when something it forms leaves 64 bits |
| `FeeMarket.FakeExponentialAtZero` | crates/common/types/block.rs:353-363 | the value at numerator 0 is the factor |
| `FeeMarket.FakeExponentialAtLeastLinear` | crates/common/types/block.rs:353-363 | the value is at least the factor, and at least the series' linear part |
| `FeeMarket.FakeExponentialMonotone` | crates/common/types/block.rs:353-363 | it is monotone in the numerator |
| `FeeMarket.TermSumTracksSeries` | crates/common/types/block.rs:353-363 | the integer sum stays below the exact real series and within the accumulated rounding of it |
| `FeeMarket.CheckedFromValue` | crates/common/types/block.rs:375-405 | what the checked loop returns from any of its states, saturation and overflow included |
| `FeeMarket.FakeExponentialChecked` | crates/common/types/block.rs:375-405 | a zero denominator, an overflowing divisor and an overflowing product each have their error, on every input; otherwise the saturated series divided by the denominator |
| `FeeMarket.CheckedAgreesWithPlain` | crates/common/types/block.rs:353-405 | whenever the plain variant does not overflow, the checked one returns the same value |
| `PayloadQueue.SortByNonce` | crates/common/types/transaction.rs:2208-2215 | a sender's transactions are a permutation sorted by nonce, later arrivals first |
| `PayloadQueue.FilterTransactions` | crates/storage/store/storage.rs:325-349 | exactly the passing transactions of the pool, each in its sender's list once, every list sorted |
| `PayloadQueue.FilteredIsSuitable` | crates/blockchain/mempool.rs:68-103 | everything the filter lets through has a tip for the same base fee and the right kind |
| `PayloadQueue.NewIsValid` | crates/blockchain/payload.rs:475-502 | a new queue satisfies the queue invariant |
| `PayloadQueue.PoppedIsValid` | crates/blockchain/payload.rs:522-527 | popping keeps it |
| `PayloadQueue.ShiftedIsValid` | crates/blockchain/payload.rs:531-556 | shifting keeps heads sorted by tip and time, one per sender, each with its effective tip |
| `PayloadQueue.SearchHeads` | crates/blockchain/payload.rs:547-551 | the binary search returns an index at which inserting keeps the order |
| `PayloadQueue.SortHeads` | crates/blockchain/payload.rs:495-496 | the heads are a sorted permutation |
| `PayloadQueue.TransactionQueue.New` | crates/blockchain/payload.rs:475-502 | everybody's first transaction becomes a head, whatever order the map is walked in; an error exactly when one of them has no tip |
| `PayloadQueue.TransactionQueue.Clear` | crates/blockchain/payload.rs:505-508 | nothing is left |
| `PayloadQueue.TransactionQueue.Pop` | crates/blockchain/payload.rs:522-527 | the head leaves with all of its sender's transactions |
| `PayloadQueue.TransactionQueue.Shift` | crates/blockchain/payload.rs:531-556 | the head makes way for its sender's next transaction, in order, and this never fails on filtered transactions |
| `PayloadBuilder.ExecuteBlock` | crates/vm/vm.rs:217-230 | executing a block yields one receipt per transaction with the running gas, or none if a transaction is rejected |
| `PayloadBuilder.ReceiptIsRunningSum` | crates/vm/vm.rs:217-230 | receipt i carries the gas of transactions 0 to i |
| `PayloadBuilder.VerifyBlobGasUsage` | crates/blockchain/blockchain.rs:242-271 | passes exactly for at most six blobs and a header that counts them |
| `PayloadBuilder.AddedBundleMatches` | crates/blockchain/mempool.rs:22-41 | a validated bundle keeps every stored bundle as long as its transaction's hashes |
| `PayloadBuilder.ExtendedKeepsGas` | crates/blockchain/payload.rs:401-423 | one more executed transaction keeps remaining plus used gas equal to the limit, the receipts and the block value |
| `PayloadBuilder.PlainKeepsConsistent` | crates/blockchain/payload.rs:401-423 | a plain transaction keeps all three accounts |
| `PayloadBuilder.BlobKeepsConsistent` | crates/blockchain/payload.rs:368-398 | so does a blob transaction whose blobs fit |
| `PayloadBuilder.PayloadBuildContext.constructor` | crates/blockchain/payload.rs:164-178 | a fresh context has the whole gas limit left and nothing else |
| `PayloadBuilder.PayloadBuildContext.RemoveTransaction` | crates/storage/store/storage.rs:304-321 | a transaction leaves the mempool, a blob transaction together with its bundle |
| `PayloadBuilder.PayloadBuildContext.ApplyPlainTransaction` | crates/blockchain/payload.rs:401-423 | the subtraction never saturates; gas, value and receipt follow the result; a rejected transaction changes nothing |
| `PayloadBuilder.PayloadBuildContext.ApplyBlobTransaction` | crates/blockchain/payload.rs:368-398 | runs exactly when the bundle is stored, its blobs fit and execution accepts; then blob gas and bundle grow together |
| `PayloadBuilder.CountersDecide` | crates/blockchain/payload.rs:272-351 | the remaining gas, the blob count and the mempool of the moment decide exactly whether a transaction is refused after those already in the block |
| `PayloadBuilder.PayloadBuildContext.RunnableUnlessRefused` | crates/blockchain/payload.rs:292-351 | what cannot be run is refused at this moment; what passed the gas, fork and blob checks is run exactly when it is not refused |
| `PayloadBuilder.PayloadBuildContext.ApplyTransaction` | crates/blockchain/payload.rs:357-365 | runs exactly what execution accepts and whose bundle is there and fits; then the accounts stay right, otherwise nothing changes |
| `PayloadBuilder.PayloadBuildContext.FinalizePayload` | crates/blockchain/payload.rs:425-439 | the three roots are those of the block's state, transactions and receipts, the gas used is the gas of the included transactions |
| `PayloadBuilder.IncludedLeaves` | crates/blockchain/payload.rs:326-333 | including a transaction pulls it, and nothing that is not in the block, from the mempool |
| `PayloadBuilder.PayloadBuildContext.Record` | crates/blockchain/payload.rs:326-349 | the executed transaction leaves the mempool and joins the block with its receipt; order and acceptance of all included heads are kept |
| `PayloadBuilder.PayloadBuildContext.Pull` | crates/blockchain/payload.rs:313-333 | the mempool stays what is left of it once the included, and without replay protection the refused protected, transactions are pulled |
| `PayloadBuilder.RefuseProtected` | crates/blockchain/payload.rs:306-322 | a protected transaction that must not be included leaves the queue with its sender and the mempool alone |
| `PayloadBuilder.NextTransaction` | crates/blockchain/payload.rs:284-290 | the chosen head is least over both queues, a blob one only if strictly better than every plain one |
| `PayloadBuilder.OrderAppend` | crates/blockchain/payload.rs:284-290 | a head that no included one should have followed extends the order of the block |
| `PayloadBuilder.TurnedInOrder` | crates/blockchain/payload.rs:284-351 | after a turn the waiting heads of the same queue are still in order behind everything included while they waited |
| `PayloadBuilder.OtherInOrder` | crates/blockchain/payload.rs:284-351 | so are those of the other queue |
| `PayloadBuilder.RefusedStays` | crates/blockchain/payload.rs:292-351 | a refusal at its turn, after its sender's last included transaction, outlasts anybody else's turn |
| `PayloadBuilder.ShiftedTracks` | crates/blockchain/payload.rs:324-333 | an included head's sender has its next transaction queued or all of its list in the block |
| `PayloadBuilder.PoppedTracks` | crates/blockchain/payload.rs:299-322 | a refused head's sender is finished, the others stand where they stood |
| `PayloadBuilder.ClearedTracks` | crates/blockchain/payload.rs:277-282 | clearing the blob queue only gives up transactions that can no longer fit |
| `PayloadBuilder.TakeTurn` | crates/blockchain/payload.rs:292-351 | one turn pops the refused head or includes it and shifts, keeping the accounts, the order and every sender's standing |
| `PayloadBuilder.FillTransactions` | crates/blockchain/payload.rs:265-353 | the loop ends; gas, value and blob accounts are right; no head precedes a better one that was waiting, plain before equally good blobs; no included transaction was refusable at its place; every sender's share is a prefix of its list and, with gas to spare, its next transaction was refused after the last included one, at its own turn in that order or because all blobs were in; the mempool lost every included transaction and, with replay protection, no other; the bundle joins the included bundles in block order |
| `PayloadBuilder.ValidateBody` | crates/blockchain/blockchain.rs:30-69 | passes exactly when blobs, execution, gas used, state root and receipts root are right |
| `PayloadBuilder.BuiltBodyPasses` | crates/blockchain/blockchain.rs:227-271 | when validation comes to the builder's results and state root, the built block passes every check of the body |
| `BuiltBlock.CompletedHeaderIsValid` | crates/blockchain/payload.rs:425-439 | the completed header validates exactly when the started one does and no blob transaction is in a block before Cancun |
| `BuiltBlock.FetchMempool` | crates/blockchain/payload.rs:229-261 | the lists of one kind are the filtered pool, each transaction once, and suitable for a queue |
| `BuiltBlock.IncludedOnce` | crates/blockchain/payload.rs:265-353 | no transaction of a pool keyed by hash is in the block twice |
| `BuiltBlock.RejectedBlobsStayOut` | crates/blockchain/payload.rs:368-398 | no blob is in the block when execution rejects blob transactions |
| `BuiltBlock.FilteredBlobsStayOut` | crates/blockchain/payload.rs:229-261 | nor when no pooled blob transaction pays the fees |
| `BuiltBlock.BuildPayload` | crates/blockchain/payload.rs:203-214 | from the pool to the completed block: filtered, filled and finalized, no transaction twice, failing exactly when the blob fee overflows |
| `BuiltBlock.BuildAndValidate` | crates/blockchain/blockchain.rs:30-69 | once validation comes to the builder's results and state, the built block is accepted exactly when the conditions on parent and arguments hold and no blob is in it before Cancun; with blobs kept out, when the former hold |
| `RlpItems.SplittersAgree` | crates/common/rlp/decode.rs:433-487 | both splitters succeed together with the same rest, and item plus rest is the input |
| `RlpItems.OverflowExactly` | crates/common/rlp/decode.rs:433-487 | the sum of prefix and payload length overflows exactly when the announced length reaches the end of the machine word, in both splitters |
| `RlpItems.LargestLengthOverflows` | crates/common/rlp/decode.rs:433-487 | nine bytes, with anything behind them, on which it does |
| `RlpItems.MinimalPads` | crates/common/rlp/decode.rs:516-534 | left-padding a minimal number gives its fixed-width form |
| `RlpItems.BytesItemRoundTrip` | crates/common/rlp/encode.rs:182-202 | an encoded byte string splits into itself and any suffix |
| `RlpItems.ListItemRoundTrip` | crates/common/rlp/encode.rs:254-265 | so does an encoded list payload |
| `RlpItems.TreeRoundTrip` | crates/common/rlp/decode.rs:368-424 | every nested tree of strings and lists is decoded back, in front of any suffix |
| `RlpItems.ForestRoundTrip` | crates/common/rlp/decode.rs:267-293 | so is every list of trees |
| `RlpItems.EncodingIsPrefixFree` | crates/common/rlp/encode.rs:182-265 | no encoding is a proper prefix of another one; encoding is injective |
| `RlpItems.ForestIsInjective` | crates/common/rlp/encode.rs:237-265 | concatenated encodings determine the list |
| `RlpTypes.UintRoundTrip` | crates/common/rlp/decode.rs:74-115 | integers of every width are decoded back |
| `RlpTypes.U8RoundTrip` | crates/common/rlp/decode.rs:46-72 | so are single bytes |
| `RlpTypes.KindRoundTrip` | crates/common/types/transaction.rs:273-290 | call targets and creation are told apart |
| `RlpTypes.RoundTrip` | crates/common/rlp/structs.rs:51-104 | every value of every modelled type is decoded back under conditions on its optional fields and short envelopes |
| `RlpTypes.VecRoundTrip` | crates/common/rlp/decode.rs:267-293 | vectors are decoded back, the empty one included |
| `RlpTypes.OptionsRoundTrip` | crates/common/rlp/structs.rs:83-104 | optional fields are read back although any decoding error counts as absent |
| `RlpTypes.AmbiguousIsMisread` | crates/common/rlp/structs.rs:83-104 | if an absent field is followed by one of the same kind they are not |
| `RlpTypes.EnvelopeOpens` | crates/common/types/transaction.rs:225-263 | a long envelope opens to its type and fields |
| `RlpTypes.ShortEnvelopeFails` | crates/common/rlp/decode.rs:489-499 | a short one is refused |
| `RlpBuffer.Buffer.PutUint` | crates/common/rlp/encode.rs:113-132 | appends exactly the integer's encoding |
| `RlpBuffer.Buffer.PutBytes` | crates/common/rlp/encode.rs:182-202 | appends exactly the string's encoding |
| `RlpBuffer.Buffer.PutLength` | crates/common/rlp/encode.rs:254-265 | appends exactly a list prefix |
| `RlpBuffer.Buffer.PutVec` | crates/common/rlp/encode.rs:237-252 | summing the lengths first and writing after gives the list's encoding |
| `RlpBuffer.EncodeStruct` | crates/common/rlp/structs.rs:174-213 | field by field into the temporary buffer and out again is the struct's encoding |
| `RlpBuffer.Encoder.EncodeOptionalField` | crates/common/rlp/structs.rs:192-199 | an absent field leaves no trace |
| `RlpBuffer.Encoder.Finish` | crates/common/rlp/structs.rs:211-215 | the buffered fields become one list |
| `RlpBuffer.DecodeElements` | crates/common/rlp/decode.rs:276-291 | the loop decodes exactly the payload's elements or fails with the first error |
| `RlpBuffer.DecodeVec` | crates/common/rlp/decode.rs:267-293 | the vector decoder is the specified one |
| `EthRlp.BlockHeaderRoundTrip` | crates/common/types/block.rs:130-208 | a header is read back, in front of any suffix, if and only if its missing optional fields are readable |
| `EthRlp.PrefixIsReadable` | crates/common/types/block.rs:130-208 | headers whose present optional fields come first are readable |
| `EthRlp.MissingFieldsAreMisread` | crates/common/types/block.rs:130-208 | a header with blob gas but neither base fee nor withdrawals root is decoded to a different header with the same bytes |
| `EthRlp.HeaderEncodingIsInjective` | crates/common/types/block.rs:285-289 | the hashed bytes determine a header with readable fields |
| `EthRlp.TransactionValueIsInjective` | crates/common/types/transaction.rs:310-500 | the encoded fields determine the transaction |
| `EthRlp.CanonicalRoundTrip` | crates/common/types/transaction.rs:1193-1255 | every transaction of every type survives its canonical form |
| `EthRlp.NetworkRoundTrip` | crates/common/types/transaction.rs:212-263 | the network form survives, in front of any suffix, if and only if it is legacy or has at least 56 canonical bytes |
| `EthRlp.ShortTransactionIsLost` | crates/common/types/transaction.rs:225-263 | a shorter one is refused with a string error |
| `EthRlp.EmptyTypedTransactionIsLost` | crates/common/types/transaction.rs:225-263 | and there is one |
| `EthRlp.BlockBodyRoundTrip` | crates/common/types/block.rs:257-282 | a body is read back, with or without withdrawals, whenever its parts are |
| `EthRlp.BlockRoundTrip` | crates/common/types/block.rs:54-81 | so is a block |
| `EthRlp.InnerReceiptRoundTrip` | crates/common/types/receipt.rs:51-106 | receipts of every type survive the consensus form |
| `EthRlp.ReceiptRoundTrip` | crates/common/types/receipt.rs:120-180 | and the network form, unconditionally |
| `EthRlp.ReceiptIsDetermined` | crates/common/types/receipt.rs:190-213 | the decoded fields, logs included, determine the receipt |
| `Kademlia.BitLength` | crates/networking/p2p/kademlia.rs:298-304 | the position of the highest set bit |
| `Kademlia.DistanceIsSymmetric` | crates/networking/p2p/kademlia.rs:298-304 | insertion and replacement, which pass the two ids in opposite orders, agree on the bucket |
| `Kademlia.DistanceIsFirstDifference` | crates/networking/p2p/kademlia.rs:298-304 | bucket n holds exactly the digests that first differ from ours n bits from the end |
| `Kademlia.DistanceIsUltrametric` | crates/networking/p2p/kademlia.rs:298-304 | a detour never brings two digests closer than its longer leg |
| `Kademlia.GetAgreesWithScan` | crates/networking/p2p/kademlia.rs:41-56 | looking in one bucket finds exactly what a scan of the whole table finds |
| `Kademlia.InsertIsOk` | crates/networking/p2p/kademlia.rs:62-124 | insertion keeps every entry in its bucket, ids unique, sizes within 16 and 10 and replacements behind full buckets only |
| `Kademlia.ReplaceIsOk` | crates/networking/p2p/kademlia.rs:224-258 | so does replacement |
| `Kademlia.InsertKeepsPeers` | crates/networking/p2p/kademlia.rs:78-106 | insertion changes no peer and adds at most the new one |
| `Kademlia.ReplaceRemovesOne` | crates/networking/p2p/kademlia.rs:238-258 | replacement removes that peer and no other |
| `Kademlia.SetPeerIsOk` | crates/networking/p2p/kademlia.rs:150-182 | updating a peer changes what is found under its id and nothing else |
| `Kademlia.GetLeastRecentlyPingedPeers` | crates/networking/p2p/kademlia.rs:192-216 | the result and the rest share out all peers, and nothing left out has an older pong |
| `Kademlia.KademliaTable.constructor` | crates/networking/p2p/kademlia.rs:28-34 | the empty table satisfies the invariant |
| `Kademlia.KademliaTable.InsertNode` | crates/networking/p2p/kademlia.rs:62-106 | the new table, what is returned and whether the node became a peer |
| `Kademlia.KademliaTable.InsertAsReplacement` | crates/networking/p2p/kademlia.rs:108-114 | the oldest replacement makes room |
| `Kademlia.KademliaTable.RemoveFromReplacements` | crates/networking/p2p/kademlia.rs:116-124 | replacements with another id stay, in order |
| `Kademlia.KademliaTable.ReplacePeer` | crates/networking/p2p/kademlia.rs:224-258 | the newest replacement takes the slot, or the slot disappears |
| `Kademlia.KademliaTable.PongAnswered` | crates/networking/p2p/kademlia.rs:150-161 | a pong proves its peer, if it is still there, and touches no other |
| `Kademlia.KademliaTable.UpdatePeerPing` | crates/networking/p2p/kademlia.rs:163-182 | a ping's hash is recorded for its peer only |
| `Discovery.StepIsOk` | crates/networking/p2p/net.rs:135-337 | every step of every task keeps the table invariant, the endpoint proofs and the neighbour counts |
| `Discovery.RunIsOk` | crates/networking/p2p/net.rs:135-453 | so does every interleaving |
| `Discovery.ProvenPeerAnsweredPing` | crates/networking/p2p/net.rs:205-247 | in every interleaving a proven peer once echoed, in an unexpired pong, a ping hash recorded for it before |
| `Discovery.NeighborsPerRequest` | crates/networking/p2p/net.rs:284-333 | in every interleaving at most sixteen neighbours are accepted between two requests to the same peer |
| `Discovery.StepKeepsFound` | crates/networking/p2p/net.rs:397-427 | a peer leaves the table exactly when its own connection fails or its own turn ends its life |
| `Discovery.NeighborsFind` | crates/networking/p2p/net.rs:284-333 | what a neighbours message adds to the table, and that it removes nobody |
| `Discovery.StepBringsFound` | crates/networking/p2p/net.rs:135-450 | an id that is no peer becomes one exactly by an insertion, an accepted neighbour or as the replacement of a removed peer |
| `Discovery.StepKeepsPresent` | crates/networking/p2p/net.rs:397-450 | one step keeps all awaited ids in the table exactly if it is not a failed connection to one of them |
| `Discovery.PendingStaysPresent` | crates/networking/p2p/net.rs:397-450 | over every interleaving all awaited ids are in the table at every moment if and only if no connection to one of them fails |
| `Discovery.AbsentHasCause` | crates/networking/p2p/net.rs:397-450 | a pending id that is not in the table had a failed connection, and since then neither a turn nor a step that brought it back |
| `Discovery.NeverPanicsIffMended` | crates/networking/p2p/net.rs:397-450 | over every interleaving the task never panics if and only if every failed connection to a pending id is followed, before its turn, by a step that makes it a peer again |
| `Discovery.DisruptedTurnPanics` | crates/networking/p2p/rlpx/connection.rs:180-196 | right after a failed connection the id's turn finds nothing to unwrap |
| `Discovery.ReinsertedTurnIsSafe` | crates/networking/p2p/net.rs:397-427 | once the node is inserted again it finds it |
| `Discovery.FailedConnectionPanics` | crates/networking/p2p/net.rs:402-404 | such a run exists for every node |
| `Discovery.SelectedAreInTable` | crates/networking/p2p/net.rs:432-446 | the peers selected for revalidation are in the table |
| `Lookup.AskRound` | crates/networking/p2p/net.rs:572-625 | at most three new peers are asked, none twice, and a round without questions leaves only peers that were asked or could not be |
| `Lookup.PeersToAskPush` | crates/networking/p2p/net.rs:627-650 | the list stays the closest of all nodes offered to it; a full list gives up its farthest |
| `Lookup.PushUnseen` | crates/networking/p2p/net.rs:555-561 | every answered node is heard of once |
| `Lookup.RecursiveLookup` | crates/networking/p2p/net.rs:524-570 | over finitely many ids the lookup ends, asks nobody twice, hears of every answer, ends only when everybody on its list was asked or could not be, and its list is the sixteen closest nodes heard of |
| `SnapSync.SlimRoundTrip` | crates/networking/p2p/rlpx/snap.rs:397-437 | the slim form of an account loses nothing |
| `SnapSync.ProcessAccountRange` | crates/networking/p2p/snap.rs:15-41 | the server's loop returns the specified entries |
| `SnapSync.ServedFrom` | crates/networking/p2p/snap.rs:21-30 | they are a contiguous slice from the requested key on |
| `SnapSync.AlwaysAPrefix` | crates/networking/p2p/sync.rs:283-341 | after any number of rounds the received accounts are the server's first ones |
| `SnapSync.ProgressEveryRound` | crates/networking/p2p/sync.rs:283-341 | with room in a response every round brings a new account, although it restarts at the last one |
| `SnapSync.StuckAtBigAccount` | crates/networking/p2p/sync.rs:283-341 | behind an account that fills a response alone the loop never ends |
| `SnapSync.SyncEndsIffRoom` | crates/networking/p2p/sync.rs:283-341 | it ends if and only if every account but the last is smaller than a response |
| `SnapSync.FinishedIsServerState` | crates/networking/p2p/sync.rs:283-341 | a finished sync holds exactly the server's accounts and has queued exactly their storages |
| `SnapSync.RealAccountsLeaveRoom` | crates/networking/p2p/peer_channels.rs:130-142 | real accounts always leave room in the requested 512 KiB |
| `SnapSync.RebuildState` | crates/networking/p2p/sync.rs:269-352 | the client's loop against this server ends with exactly the server's accounts, each brought by one of its rounds, and their storages to fetch; queued are exactly the codes the store lacked at a round that brought them |
| `SnapSync.FetchBytecodeBatch` | crates/networking/p2p/sync.rs:394-411 | the answered bytecodes are stored under the first hashes of the batch, in order, and the other hashes are returned |
| `SnapSync.BytecodeFetcher` | crates/networking/p2p/sync.rs:355-391 | every requested hash is stored, none is lost between queue and batches |
| `SnapSync.SendCodes` | crates/networking/p2p/sync.rs:297-321 | a response's code hashes are queued, and never as an empty message, which would end the fetcher |
| `SnapSync.FetchSnapState` | crates/networking/p2p/sync.rs:244-266 | accounts and bytecodes together: all accounts arrive, every code is empty, fetched, or was stored at the round that brought its account, and exactly the missing ones are fetched |
| `MerkleTree.Merkelize` | crates/l2/utils/merkle_tree.rs:13-31 | the loop computes the root, an empty list is an error |
| `MerkleTree.MerkleProof` | crates/l2/utils/merkle_tree.rs:33-68 | the loop computes the scanned siblings, a foreign leaf has no proof |
| `MerkleTree.LevelDistinct` | crates/l2/utils/merkle_tree.rs:43-65 | levels of distinct hashes stay distinct |
| `MerkleTree.OneChunkScanIsPath` | crates/l2/utils/merkle_tree.rs:33-68 | if all copies of a leaf share a pair, exactly its sibling is pushed per level |
| `MerkleTree.SecondChunkIsTooLong` | crates/l2/utils/merkle_tree.rs:33-68 | a copy in another pair makes the proof longer than the tree is deep |
| `MerkleTree.ProofIsPathIffOneChunk` | crates/l2/utils/merkle_tree.rs:33-68 | the proof is the path of siblings, and has its length, if and only if all copies share a pair |
| `MerkleTree.ProofVerifies` | crates/l2/utils/merkle_tree.rs:33-68 | the contract accepts the node's proof of a leaf if and only if all copies of the leaf share a pair |
| `MerkleTree.DistinctProofVerifies` | crates/l2/utils/merkle_tree.rs:33-68 | a proof over distinct leaves is the path and folds to the root |
| `MerkleTree.FoldsFromSlot` | crates/l2/contracts/src/l1/CommonBridge.sol:192-215 | among proofs of the tree's depth exactly the siblings of the index's leaf fold to the root |
| `MerkleTree.ShortProofStartsAtNode` | crates/l2/contracts/src/l1/CommonBridge.sol:192-215 | what a shorter proof folds to the root is a pair hash |
| `MerkleTree.LongProofMakesNodeALeaf` | crates/l2/contracts/src/l1/CommonBridge.sol:192-215 | a longer one makes a pair hash a leaf |
| `MerkleTree.AcceptedExactly` | crates/l2/contracts/src/l1/CommonBridge.sol:192-215 | for every index and every proof of any length: accepted if and only if the leaf is the one the index stands for and the proof its committed siblings |
| `MerkleTree.AcceptedLeafIsInTree` | crates/l2/contracts/src/l1/CommonBridge.sol:192-215 | whatever is accepted, with a proof of any length, is a real leaf, and the proof has the tree's depth |
| `MerkleTree.AcceptedProofIsThePath` | crates/l2/contracts/src/l1/CommonBridge.sol:192-215 | at an index inside the tree exactly its leaf with its path is accepted |
| `MerkleTree.VerifyWithdrawProof` | crates/l2/contracts/src/l1/CommonBridge.sol:192-215 | the contract's loop accepts exactly what folds to the root |
| `MerkleTree.RepeatedLeafBreaksProof` | crates/l2/utils/merkle_tree.rs:33-68 | four leaves with a copy in the other pair: the proof is too long and folds to something else |
| `MerkleTree.NodeAsLeafIsAccepted` | crates/l2/contracts/src/l1/CommonBridge.sol:192-215 | with a leaf that is its own pair hash a proof that is too long would fold to the root |

## Left out

- FakeExponential: `Overflow` stands for an unchecked operation that leaves 64 bits, which panics or wraps around depending on the build.
- FakeExponentialChecked: the same for its one unchecked product.
- BuiltBodyPasses: assumes the validator's execution gives the builder's results and state root, because withdrawals are applied before the transactions when building and after them when validating.
- BuildAndValidate: the same assumption.
- BuildPayload: leaves out the withdrawals and the beacon-root call before the transactions, because execution is a parameter.
- AcceptedExactly: requires that neither the claimed leaf nor a committed one is a pair hash, because leaves are digests of 84 bytes and nodes of 64.
- BaseFeeMonotone: `FeeOverflow` stands for an unchecked operation that leaves 64 bits; validation answers it with an error of its own where the code panics or goes on with the wrapped fee.
- RebuildState: requires every account but the last to be smaller than a response, because otherwise the loop never ends (`SyncEndsIffRoom`).
- RecursiveLookup: requires the starting nodes to be distinct and at most sixteen, as the peer table returns them; a lookup over infinitely many ids need not end.
- SortHeads: does not fix the order of equal heads, because no statement depends on it.
- StepIsOk: the server task is modelled more freely than it runs, its steps may interleave with each other; every real run is one of the modelled ones.
- ExecuteBlock: leaves out the beacon-root call before and the withdrawals after the transactions, because execution is a parameter.
- FetchBytecodeBatch: does not check that a bytecode belongs to its hash, because the code pairs them by position.
- OverflowExactly: `LengthOverflow` is an error of the model where the code panics or wraps around; a reader of optional fields would take the model's error for an absent field.
- FetchSnapState: one state root, where the code takes a list of them one after the other; whether a code is known is asked of an arbitrary function of time.
- EVM execution, the computation of state, receipts and transactions roots, tries and the database: oracles or parameters.
- Find-node messages and the answers to pings, which change no state of ours.
- I/O errors of the store, locks that fail and closed channels.
- Keccak, KZG proofs, signatures and address recovery.
- Writes to the canonical map outside fork choice (command line import and the full-sync path).
- The second variant of block import for the other virtual machine, which makes the same header checks.
- Canonicity of the RLP decoder, which accepts some non-minimal forms on purpose.
- The mempool transaction's own RLP, whose encoder and decoder disagree on the number of fields.
- The sixteen "closest" nodes of the table, whose selection replaces the first farther slot and not the farthest.
- Convergence of the builder's gas limit.
- Intrinsic gas, mempool admission rules other than the bundle check, fork identifiers: they would only add easy members.
- Storage-range and receipt download, healing, state diffs, the L2 proposer and prover, JSON, RPC, configuration and the command line.
