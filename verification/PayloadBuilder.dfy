/**
  Filling a payload from the mempool: the running gas, value and blob accounting, what the block
  is validated by afterwards, and which transactions got in.
 */
module PayloadBuilder {
  import opened Prelude
  import opened Types
  import opened PayloadQueue

  const TX_GAS_COST: nat := 21000
  const GAS_PER_BLOB: nat := 131072
  const MAX_BLOB_NUMBER_PER_BLOCK: nat := 6
  const MAX_BLOB_GAS_PER_BLOCK: nat := MAX_BLOB_NUMBER_PER_BLOCK * GAS_PER_BLOB

  datatype ExecutionResult = ExecutionResult(success: bool, gasUsed: nat, logs: seq<Log>)

  datatype BlobsBundle = BlobsBundle(blobs: seq<Bytes>, commitments: seq<Bytes>, proofs: seq<Bytes>)

  /**
    What the builder takes from elsewhere: executing a transaction after the ones already
    committed (none when it is rejected), the transaction hash, the bloom of a list of logs, the
    root of the state after a block's transactions and withdrawals, and the roots of the tries.
   */
  datatype Env = Env(
    execute: (seq<Transaction>, Transaction) -> Option<ExecutionResult>,
    hashOf: Transaction -> Hash,
    bloomOf: seq<Log> -> nat,
    stateRootOf: seq<Transaction> -> Hash,
    transactionsRootOf: seq<Transaction> -> Hash,
    receiptsRootOf: seq<Receipt> -> Hash)

  ghost predicate GasBounded(env: Env) {
    forall done: seq<Transaction>, tx: Transaction ::
      env.execute(done, tx).Some? ==> env.execute(done, tx).value.gasUsed <= tx.gasLimit
  }

  function SaturatingSub(a: nat, b: nat): nat {
    if b <= a then a - b else 0
  }

  /** Legacy signatures with these recovery values predate replay protection. */
  predicate Protected(tx: Transaction) {
    !(tx.LegacyTransaction? && tx.v in {0, 1, 27, 28})
  }

  // ---------------------------------------------------------------- executing a block

  function Last<T>(s: seq<T>): T
    requires s != []
  {
    s[|s| - 1]
  }

  function Front<T>(s: seq<T>): seq<T>
    requires s != []
  {
    s[..|s| - 1]
  }

  /** The results of executing `txs` one after the other, if none is rejected. */
  ghost function Results(env: Env, txs: seq<Transaction>): (rs: Option<seq<ExecutionResult>>)
    ensures rs.Some? ==> |rs.value| == |txs|
  {
    if txs == [] then Some([])
    else
      var before, result := Results(env, Front(txs)), env.execute(Front(txs), Last(txs));
      if before.None? || result.None? then None else Some(before.value + [result.value])
  }

  ghost function SumGas(rs: seq<ExecutionResult>): nat {
    if rs == [] then 0 else SumGas(Front(rs)) + Last(rs).gasUsed
  }

  function NewReceipt(bloomOf: seq<Log> -> nat, tx: Transaction, result: ExecutionResult, cumulative: nat): Receipt {
    Receipt(TypeOf(tx), result.success, cumulative, bloomOf(result.logs), result.logs)
  }

  ghost function ReceiptsOf(bloomOf: seq<Log> -> nat, txs: seq<Transaction>,
                            rs: seq<ExecutionResult>): (receipts: seq<Receipt>)
    requires |txs| == |rs|
    ensures |receipts| == |txs|
  {
    if txs == [] then []
    else ReceiptsOf(bloomOf, Front(txs), Front(rs)) + [NewReceipt(bloomOf, Last(txs), Last(rs), SumGas(rs))]
  }

  /** How a block is executed when it is validated: a running sum of gas, one receipt each. */
  method ExecuteBlock(env: Env, txs: seq<Transaction>) returns (receipts: Option<seq<Receipt>>)
    ensures receipts.Some? <==> Results(env, txs).Some?
    ensures receipts.Some? ==> receipts.value == ReceiptsOf(env.bloomOf, txs, Results(env, txs).value)
  {
    var done: seq<Receipt>, cumulative: nat := [], 0;
    for i := 0 to |txs|
      invariant Results(env, txs[..i]).Some?
      invariant cumulative == SumGas(Results(env, txs[..i]).value)
      invariant done == ReceiptsOf(env.bloomOf, txs[..i], Results(env, txs[..i]).value)
    {
      assert Front(txs[..i + 1]) == txs[..i] && Last(txs[..i + 1]) == txs[i];
      var result := env.execute(txs[..i], txs[i]);
      if result.None? {
        RejectedStays(env, txs, i + 1);
        return None;
      }
      AppendResult(env, txs[..i], txs[i]);
      assert txs[..i] + [txs[i]] == txs[..i + 1];
      cumulative := cumulative + result.value.gasUsed;
      done := done + [NewReceipt(env.bloomOf, txs[i], result.value, cumulative)];
    }
    assert txs[..|txs|] == txs;
    return Some(done);
  }

  /** In a block that executes, every transaction was accepted after the ones before it. */
  lemma {:induction false} ExecutedAt(env: Env, txs: seq<Transaction>, i: nat)
    requires Results(env, txs).Some? && i < |txs|
    ensures env.execute(txs[..i], txs[i]).Some?
    decreases |txs|
  {
    if i < |txs| - 1 {
      ExecutedAt(env, Front(txs), i);
      assert Front(txs)[..i] == txs[..i];
    }
  }

  /** A block with a rejected prefix is rejected. */
  lemma {:induction false} RejectedStays(env: Env, txs: seq<Transaction>, n: nat)
    requires n <= |txs| && Results(env, txs[..n]).None?
    ensures Results(env, txs).None?
    decreases |txs| - n
  {
    if n < |txs| {
      assert Front(txs[..n + 1]) == txs[..n];
      RejectedStays(env, txs, n + 1);
    } else {
      assert txs[..n] == txs;
    }
  }

  /** One more executed transaction adds one result, its gas and its receipt. */
  lemma AppendResult(env: Env, txs: seq<Transaction>, tx: Transaction)
    requires Results(env, txs).Some? && env.execute(txs, tx).Some?
    ensures Results(env, txs + [tx]) == Some(Results(env, txs).value + [env.execute(txs, tx).value])
    ensures SumGas(Results(env, txs + [tx]).value) ==
            SumGas(Results(env, txs).value) + env.execute(txs, tx).value.gasUsed
    ensures ReceiptsOf(env.bloomOf, txs + [tx], Results(env, txs + [tx]).value)
         == ReceiptsOf(env.bloomOf, txs, Results(env, txs).value)
          + [NewReceipt(env.bloomOf, tx, env.execute(txs, tx).value, SumGas(Results(env, txs + [tx]).value))]
  {
  }

  /** Receipt `i` carries the gas of transactions `0..i`. */
  lemma {:induction false} ReceiptIsRunningSum(bloomOf: seq<Log> -> nat, txs: seq<Transaction>,
                                               rs: seq<ExecutionResult>, i: nat)
    requires |txs| == |rs| && i < |txs|
    ensures ReceiptsOf(bloomOf, txs, rs)[i] == NewReceipt(bloomOf, txs[i], rs[i], SumGas(rs[..i + 1]))
    decreases |txs|
  {
    if i < |txs| - 1 {
      ReceiptIsRunningSum(bloomOf, Front(txs), Front(rs), i);
      assert Front(rs)[..i + 1] == rs[..i + 1];
    } else {
      assert rs[..i + 1] == rs;
    }
  }

  // ---------------------------------------------------------------- block checks after execution

  predicate ValidateGasUsed(receipts: seq<Receipt>, header: BlockHeader) {
    receipts != [] ==> Last(receipts).cumulativeGasUsed == header.gasUsed
  }

  function BlobsOf(tx: Transaction): nat {
    if tx.EIP4844Transaction? then |tx.blobVersionedHashes| else 0
  }

  ghost function BlobCount(txs: seq<Transaction>): nat {
    if txs == [] then 0 else BlobCount(Front(txs)) + BlobsOf(Last(txs))
  }

  datatype BlobGasError = ExceededMaxBlobGasPerBlock | ExceededMaxBlobNumberPerBlock | BlobGasUsedMismatch

  /** The block's blob check passes exactly for at most six blobs and a matching header. */
  method VerifyBlobGasUsage(header: BlockHeader, txs: seq<Transaction>) returns (e: Option<BlobGasError>)
    ensures e.None? <==>
            && BlobCount(txs) <= MAX_BLOB_NUMBER_PER_BLOCK
            && (header.blobGasUsed.Some? ==> header.blobGasUsed.value == GAS_PER_BLOB * BlobCount(txs))
  {
    var blobGasUsed: nat, blobsInBlock: nat := 0, 0;
    for i := 0 to |txs|
      invariant blobsInBlock == BlobCount(txs[..i])
      invariant blobGasUsed == GAS_PER_BLOB * blobsInBlock
    {
      assert Front(txs[..i + 1]) == txs[..i] && Last(txs[..i + 1]) == txs[i];
      if txs[i].EIP4844Transaction? {
        blobGasUsed := blobGasUsed + GAS_PER_BLOB * |txs[i].blobVersionedHashes|;
        blobsInBlock := blobsInBlock + |txs[i].blobVersionedHashes|;
      }
    }
    assert txs[..|txs|] == txs;
    if blobGasUsed > MAX_BLOB_GAS_PER_BLOCK {
      return Some(ExceededMaxBlobGasPerBlock);
    }
    if blobsInBlock > MAX_BLOB_NUMBER_PER_BLOCK {
      return Some(ExceededMaxBlobNumberPerBlock);
    }
    if header.blobGasUsed.Some? && header.blobGasUsed.value != blobGasUsed {
      return Some(BlobGasUsedMismatch);
    }
    return None;
  }

  // ---------------------------------------------------------------- the mempool's blob bundles

  datatype BlobsBundleError = BlobBundleEmpty | BlobsBundleWrongLen | BlobVersionedHashes | BlobToCommitmentAndProof

  /** A bundle matches its transaction; commitment hashing and proof checking are parameters. */
  function ValidateBundle(b: BlobsBundle, hashes: seq<Hash>, versionedHash: Bytes -> Hash,
                          proves: (Bytes, Bytes, Bytes) -> bool)
    : Option<BlobsBundleError>
  {
    if |b.blobs| == 0 then Some(BlobBundleEmpty)
    else if |b.blobs| != |b.commitments| || |b.blobs| != |b.proofs| || |b.blobs| != |hashes|
    then Some(BlobsBundleWrongLen)
    else if exists i :: 0 <= i < |hashes| && hashes[i] != versionedHash(b.commitments[i]) then Some(BlobVersionedHashes)
    else if exists i :: 0 <= i < |b.blobs| && !proves(b.blobs[i], b.commitments[i], b.proofs[i]) then
      Some(BlobToCommitmentAndProof)
    else None
  }

  /** Every stored bundle has as many blobs as the transaction it belongs to has versioned hashes. */
  ghost predicate BundlesMatch(hashOf: Transaction -> Hash, bundles: map<Hash, BlobsBundle>) {
    forall tx: Transaction :: IsBlob(tx) && hashOf(tx) in bundles ==> |bundles[hashOf(tx)].blobs| == BlobsOf(tx)
  }

  /** Adding a validated bundle keeps the pool matched, for a hash without collisions. */
  lemma AddedBundleMatches(hashOf: Transaction -> Hash, bundles: map<Hash, BlobsBundle>, tx: Transaction,
                           b: BlobsBundle,
                           versionedHash: Bytes -> Hash, proves: (Bytes, Bytes, Bytes) -> bool)
    requires forall x: Transaction, y: Transaction :: hashOf(x) == hashOf(y) ==> x == y
    requires BundlesMatch(hashOf, bundles) && IsBlob(tx)
    requires ValidateBundle(b, tx.blobVersionedHashes, versionedHash, proves).None?
    ensures BundlesMatch(hashOf, bundles[hashOf(tx) := b])
  {
  }

  // ---------------------------------------------------------------- the payload being built

  datatype Payload = Payload(
    header: BlockHeader, transactions: seq<Transaction>, remainingGas: nat, receipts: seq<Receipt>, blockValue: nat,
    bundle: BlobsBundle)

  /** The transactions of the included heads, in block order. */
  ghost function TxsOf(heads: seq<HeadTransaction>): (txs: seq<Transaction>)
    ensures |txs| == |heads|
  {
    if heads == [] then [] else TxsOf(Front(heads)) + [Last(heads).tx.tx]
  }

  ghost function SumValue(heads: seq<HeadTransaction>, rs: seq<ExecutionResult>): nat
    requires |heads| == |rs|
  {
    if heads == [] then 0 else SumValue(Front(heads), Front(rs)) + Last(rs).gasUsed * Last(heads).tip
  }

  lemma ValueAppend(heads: seq<HeadTransaction>, rs: seq<ExecutionResult>, head: HeadTransaction, r: ExecutionResult)
    requires |heads| == |rs|
    ensures SumValue(heads + [head], rs + [r]) == SumValue(heads, rs) + r.gasUsed * head.tip
  {
    assert Front(heads + [head]) == heads && Front(rs + [r]) == rs;
  }

  /** The gas account: what is left and what was used add up to the limit; receipts and value follow. */
  ghost predicate GasAccounted(env: Env, p: Payload, heads: seq<HeadTransaction>) {
    var rs := Results(env, p.transactions);
    && rs.Some?
    && p.remainingGas + SumGas(rs.value) == p.header.gasLimit
    && p.receipts == ReceiptsOf(env.bloomOf, p.transactions, rs.value)
    && p.transactions == TxsOf(heads)
    && p.blockValue == SumValue(heads, rs.value)
  }

  /** The blob account: one blob per versioned hash, at most six, all of them in the header. */
  ghost predicate BlobsAccounted(p: Payload) {
    && |p.bundle.blobs| == BlobCount(p.transactions) <= MAX_BLOB_NUMBER_PER_BLOCK
    && UnwrapOr(p.header.blobGasUsed, 0) == GAS_PER_BLOB * BlobCount(p.transactions)
  }

  ghost predicate HasBlob(txs: seq<Transaction>) {
    exists i :: 0 <= i < |txs| && IsBlob(txs[i])
  }

  lemma HasBlobAppend(txs: seq<Transaction>, tx: Transaction)
    ensures HasBlob(txs + [tx]) <==> HasBlob(txs) || IsBlob(tx)
  {
    var more := txs + [tx];
    assert more[|txs|] == tx;
    if HasBlob(txs) {
      var i :| 0 <= i < |txs| && IsBlob(txs[i]);
      assert IsBlob(more[i]);
    }
  }

  /** Only the blob gas of the started header changes: it is there from the start or with the first blob transaction. */
  ghost predicate SameStart(started: BlockHeader, header: BlockHeader, txs: seq<Transaction>) {
    && header == started.(blobGasUsed := header.blobGasUsed)
    && (header.blobGasUsed.Some? <==> started.blobGasUsed.Some? || HasBlob(txs))
  }

  function Joined(a: BlobsBundle, b: BlobsBundle): BlobsBundle {
    BlobsBundle(a.blobs + b.blobs, a.commitments + b.commitments, a.proofs + b.proofs)
  }

  /** The bundles of the included blob transactions, joined in block order. */
  ghost function Collected(hashOf: Transaction -> Hash, bundles: map<Hash, BlobsBundle>,
                           txs: seq<Transaction>): BlobsBundle {
    if txs == [] then BlobsBundle([], [], [])
    else
      var before, h := Collected(hashOf, bundles, Front(txs)), hashOf(Last(txs));
      if IsBlob(Last(txs)) && h in bundles then Joined(before, bundles[h]) else before
  }

  lemma CollectedAppend(hashOf: Transaction -> Hash, bundles: map<Hash, BlobsBundle>, txs: seq<Transaction>,
                        tx: Transaction)
    ensures Collected(hashOf, bundles, txs + [tx]) ==
            if IsBlob(tx) && hashOf(tx) in bundles then Joined(Collected(hashOf, bundles, txs), bundles[hashOf(tx)])
            else Collected(hashOf, bundles, txs)
  {
    assert Front(txs + [tx]) == txs && Last(txs + [tx]) == tx;
  }

  /** All accounts of a payload; `bundles` are the stored ones when the build began. */
  ghost predicate Consistent(env: Env, bundles: map<Hash, BlobsBundle>, started: BlockHeader, p: Payload,
                             heads: seq<HeadTransaction>) {
    && GasAccounted(env, p, heads) && BlobsAccounted(p) && SameStart(started, p.header, p.transactions)
    && p.bundle == Collected(env.hashOf, bundles, p.transactions)
  }

  function WithBlobs(p: Payload, b: BlobsBundle): Payload {
    p.(header := p.header.(blobGasUsed := Some(UnwrapOr(p.header.blobGasUsed, 0) + |b.blobs| * GAS_PER_BLOB)),
       bundle := Joined(p.bundle, b))
  }

  /** The payload after one more executed transaction. */
  function Extended(env: Env, p: Payload, head: HeadTransaction, result: ExecutionResult): Payload
    requires result.gasUsed <= p.remainingGas <= p.header.gasLimit
  {
    var left: nat := p.remainingGas - result.gasUsed;
    p.(transactions := p.transactions + [head.tx.tx],
       remainingGas := left,
       receipts := p.receipts + [NewReceipt(env.bloomOf, head.tx.tx, result, p.header.gasLimit - left)],
       blockValue := p.blockValue + result.gasUsed * head.tip)
  }

  lemma ExtendedKeepsGas(env: Env, p: Payload, heads: seq<HeadTransaction>, head: HeadTransaction)
    requires GasAccounted(env, p, heads)
    requires env.execute(p.transactions, head.tx.tx).Some?
    requires env.execute(p.transactions, head.tx.tx).value.gasUsed <= p.remainingGas
    ensures GasAccounted(env, Extended(env, p, head, env.execute(p.transactions, head.tx.tx).value), heads + [head])
  {
    var result, rs := env.execute(p.transactions, head.tx.tx).value, Results(env, p.transactions).value;
    AppendResult(env, p.transactions, head.tx.tx);
    ValueAppend(heads, rs, head, result);
    assert Front(heads + [head]) == heads;
  }

  lemma BlobCountAppend(txs: seq<Transaction>, tx: Transaction)
    ensures BlobCount(txs + [tx]) == BlobCount(txs) + BlobsOf(tx)
  {
  }

  lemma PlainKeepsConsistent(env: Env, bundles: map<Hash, BlobsBundle>, started: BlockHeader, p: Payload,
                             heads: seq<HeadTransaction>, head: HeadTransaction)
    requires Consistent(env, bundles, started, p, heads) && !IsBlob(head.tx.tx)
    requires env.execute(p.transactions, head.tx.tx).Some?
    requires env.execute(p.transactions, head.tx.tx).value.gasUsed <= p.remainingGas
    ensures Consistent(env, bundles, started, Extended(env, p, head, env.execute(p.transactions, head.tx.tx).value),
                       heads + [head])
  {
    ExtendedKeepsGas(env, p, heads, head);
    BlobCountAppend(p.transactions, head.tx.tx);
    HasBlobAppend(p.transactions, head.tx.tx);
    CollectedAppend(env.hashOf, bundles, p.transactions, head.tx.tx);
  }

  lemma BlobKeepsConsistent(env: Env, bundles: map<Hash, BlobsBundle>, started: BlockHeader, p: Payload,
                            heads: seq<HeadTransaction>, head: HeadTransaction, b: BlobsBundle)
    requires Consistent(env, bundles, started, p, heads) && IsBlob(head.tx.tx)
    requires env.execute(p.transactions, head.tx.tx).Some?
    requires env.execute(p.transactions, head.tx.tx).value.gasUsed <= p.remainingGas
    requires env.hashOf(head.tx.tx) in bundles && bundles[env.hashOf(head.tx.tx)] == b
    requires |b.blobs| == BlobsOf(head.tx.tx) && |p.bundle.blobs| + |b.blobs| <= MAX_BLOB_NUMBER_PER_BLOCK
    ensures var done := Extended(env, p, head, env.execute(p.transactions, head.tx.tx).value);
            Consistent(env, bundles, started, WithBlobs(done, b), heads + [head])
  {
    ExtendedKeepsGas(env, p, heads, head);
    BlobCountAppend(p.transactions, head.tx.tx);
    HasBlobAppend(p.transactions, head.tx.tx);
    CollectedAppend(env.hashOf, bundles, p.transactions, head.tx.tx);
  }

  lemma SameConsistent(env: Env, bundles: map<Hash, BlobsBundle>, started: BlockHeader, p: Payload, p': Payload,
                       heads: seq<HeadTransaction>)
    requires Consistent(env, bundles, started, p, heads) && p' == p
    ensures Consistent(env, bundles, started, p', heads)
  {
  }

  // ---------------------------------------------------------------- the mempool meanwhile

  datatype Mempool = Mempool(txs: map<Hash, MempoolTransaction>, bundles: map<Hash, BlobsBundle>)

  ghost predicate HasHash(hashOf: Transaction -> Hash, txs: seq<Transaction>, h: Hash) {
    exists i :: 0 <= i < |txs| && hashOf(txs[i]) == h
  }

  /** The mempool without one transaction and, for a blob transaction, without its bundle. */
  ghost function Without(hashOf: Transaction -> Hash, m: Mempool, h: Hash): Mempool {
    if h !in m.txs then m
    else Mempool(m.txs - {h}, if IsBlob(m.txs[h].tx) then m.bundles - {hashOf(m.txs[h].tx)} else m.bundles)
  }

  /** The mempool once the transactions of a block are pulled from it, one after the other. */
  ghost function MempoolAfter(hashOf: Transaction -> Hash, start: Mempool, txs: seq<Transaction>): Mempool {
    if txs == [] then start else Without(hashOf, MempoolAfter(hashOf, start, Front(txs)), hashOf(Last(txs)))
  }

  /** The mempool only loses entries: every included one and, with replay protection, no other. */
  ghost predicate Pulled(env: Env, eip155: bool, start: Mempool, now: Mempool, txs: seq<Transaction>) {
    && (forall h :: h in now.txs ==> h in start.txs && now.txs[h] == start.txs[h])
    && (forall h :: h in now.bundles ==> h in start.bundles && now.bundles[h] == start.bundles[h])
    && (forall i :: 0 <= i < |txs| ==> env.hashOf(txs[i]) !in now.txs)
    && (eip155 ==> forall h :: h in start.txs && h !in now.txs ==> HasHash(env.hashOf, txs, h))
  }

  ghost predicate MempoolOk(env: Env, eip155: bool, start: Mempool, now: Mempool, txs: seq<Transaction>) {
    && BundlesMatch(env.hashOf, now.bundles) && Pulled(env, eip155, start, now, txs)
    && (eip155 ==> now == MempoolAfter(env.hashOf, start, txs))
  }

  lemma IncludedLeaves(env: Env, eip155: bool, start: Mempool, now: Mempool, txs: seq<Transaction>, tx: Transaction)
    requires MempoolOk(env, eip155, start, now, txs)
    ensures MempoolOk(env, eip155, start, Without(env.hashOf, now, env.hashOf(tx)), txs + [tx])
  {
    var later, more := Without(env.hashOf, now, env.hashOf(tx)), txs + [tx];
    assert Front(more) == txs && Last(more) == tx;
    assert more[|txs|] == tx;
    forall h | eip155 && h in start.txs && h !in later.txs ensures HasHash(env.hashOf, more, h) {
      if h !in now.txs {
        var i :| 0 <= i < |txs| && env.hashOf(txs[i]) == h;
        assert more[i] == txs[i];
      } else {
        assert env.hashOf(more[|txs|]) == h;
      }
    }
  }

  lemma ProtectedLeaves(env: Env, start: Mempool, now: Mempool, txs: seq<Transaction>, h: Hash)
    requires MempoolOk(env, false, start, now, txs)
    ensures MempoolOk(env, false, start, Without(env.hashOf, now, h), txs)
  {
  }

  // ---------------------------------------------------------------- in which order

  /** `a` may come before `b` while both wait: a better tip, or as good and no later; plain before equal blobs. */
  predicate Follows(a: HeadTransaction, b: HeadTransaction) {
    LessEq(a, b) && (IsBlob(a.tx.tx) && !IsBlob(b.tx.tx) ==> Less(a, b))
  }

  predicate SameLine(a: HeadTransaction, b: HeadTransaction) {
    a.sender == b.sender && IsBlob(a.tx.tx) == IsBlob(b.tx.tx)
  }

  /** `h` was waiting at the head of its line all the while `heads[i..j]` were included. */
  ghost predicate Awaited(heads: seq<HeadTransaction>, i: nat, j: nat, h: HeadTransaction)
    requires i <= j <= |heads|
  {
    forall k :: i <= k < j ==> !SameLine(heads[k], h)
  }

  /** No head was included while a better one was waiting. */
  ghost predicate InOrder(heads: seq<HeadTransaction>) {
    forall i: nat, j: nat :: i < j < |heads| && Awaited(heads, i, j, heads[j]) ==> Follows(heads[i], heads[j])
  }

  ghost predicate HeadInOrder(heads: seq<HeadTransaction>, h: HeadTransaction) {
    forall i: nat :: i < |heads| && Awaited(heads, i, |heads|, h) ==> Follows(heads[i], h)
  }

  ghost predicate QueueInOrder(heads: seq<HeadTransaction>, q: Queue) {
    forall k :: 0 <= k < |q.heads| ==> HeadInOrder(heads, q.heads[k])
  }

  lemma OrderAppend(heads: seq<HeadTransaction>, head: HeadTransaction)
    requires InOrder(heads) && HeadInOrder(heads, head)
    ensures InOrder(heads + [head])
  {
    var more := heads + [head];
    forall i: nat, j: nat | i < j < |more| && Awaited(more, i, j, more[j]) ensures Follows(more[i], more[j]) {
      assert forall k :: i <= k < j ==> more[k] == heads[k];
      if j < |heads| {
        assert Awaited(heads, i, j, heads[j]);
      } else {
        assert Awaited(heads, i, |heads|, head);
      }
    }
  }

  /** Somebody who waits behind the included head keeps waiting in order. */
  lemma HeadStaysInOrder(heads: seq<HeadTransaction>, head: HeadTransaction, h: HeadTransaction)
    requires SameLine(head, h) || (HeadInOrder(heads, h) && Follows(head, h))
    ensures HeadInOrder(heads + [head], h)
  {
    var more := heads + [head];
    assert more[|heads|] == head;
    forall i: nat | i < |more| && Awaited(more, i, |more|, h) ensures Follows(more[i], h) {
      assert !SameLine(more[|heads|], h);
      assert forall k :: i <= k < |heads| ==> more[k] == heads[k];
      if i < |heads| {
        assert Awaited(heads, i, |heads|, h);
      }
    }
  }

  /** What one turn does: the head is refused with its sender, or included and followed by the next one. */
  ghost predicate Turned(q: Queue, q': Queue, taken: seq<HeadTransaction>, taken': seq<HeadTransaction>)
    requires q.heads != []
  {
    || (taken' == taken && q' == Popped(q))
    || (taken' == taken + [q.heads[0]] && IsShifted(q, q'))
  }

  /** A queue stays in order over a turn of its best head. */
  lemma TurnedInOrder(q: Queue, q': Queue, taken: seq<HeadTransaction>, taken': seq<HeadTransaction>, blobs: bool)
    requires Valid(q, blobs) && q.heads != [] && Turned(q, q', taken, taken') && QueueInOrder(taken, q)
    ensures QueueInOrder(taken', q')
  {
    var head := q.heads[0];
    assert HeadOk(head, q, blobs);
    if taken' == taken && q' == Popped(q) {
      forall k | 0 <= k < |q'.heads| ensures HeadInOrder(taken', q'.heads[k]) {
        assert q'.heads[k] == q.heads[k + 1];
      }
    } else {
      forall k | 0 <= k < |q'.heads| ensures HeadInOrder(taken', q'.heads[k]) {
        var h := q'.heads[k];
        if h in q.heads[1..] {
          var m :| 0 <= m < |q.heads[1..]| && q.heads[1..][m] == h;
          assert q.heads[m + 1] == h && HeadOk(q.heads[m + 1], q, blobs);
        } else {
          assert Suitable(q.txs[head.sender][0], head.sender, q.baseFee, blobs);
        }
        HeadStaysInOrder(taken, head, h);
      }
    }
  }

  /** So does the other queue, when the head was the best of both. */
  lemma OtherInOrder(q: Queue, q': Queue, other: Queue, taken: seq<HeadTransaction>, taken': seq<HeadTransaction>)
    requires q.heads != [] && Turned(q, q', taken, taken') && QueueInOrder(taken, other)
    requires forall k :: 0 <= k < |other.heads| ==> Follows(q.heads[0], other.heads[k])
    ensures QueueInOrder(taken', other)
  {
    if taken' != taken {
      forall k | 0 <= k < |other.heads| ensures HeadInOrder(taken', other.heads[k]) {
        HeadStaysInOrder(taken, q.heads[0], other.heads[k]);
      }
    }
  }

  // ---------------------------------------------------------------- who got in, and why not the others

  /** What a sender got into the block from the plain or the blob queue, in order. */
  ghost function Taken(heads: seq<HeadTransaction>, blobs: bool, sender: Address): (taken: seq<MempoolTransaction>)
    ensures forall k :: 0 <= k < |taken| ==> IsBlob(taken[k].tx) == blobs
  {
    if heads == [] then []
    else
      var before := Taken(Front(heads), blobs, sender);
      if Last(heads).sender == sender && IsBlob(Last(heads).tx.tx) == blobs then before + [Last(heads).tx] else before
  }

  lemma TakenAppend(heads: seq<HeadTransaction>, head: HeadTransaction, blobs: bool, sender: Address)
    ensures Taken(heads + [head], blobs, sender) ==
            if head.sender == sender && IsBlob(head.tx.tx) == blobs then Taken(heads, blobs, sender) + [head.tx]
            else Taken(heads, blobs, sender)
  {
  }

  lemma {:induction false} TxsOfAt(heads: seq<HeadTransaction>, i: nat)
    requires i < |heads|
    ensures TxsOf(heads)[i] == heads[i].tx.tx
    decreases |heads|
  {
    if i < |heads| - 1 {
      TxsOfAt(Front(heads), i);
    }
  }

  /** An included head stands in its sender's share behind what was included before it. */
  lemma {:induction false} TakenAt(heads: seq<HeadTransaction>, i: nat)
    requires i < |heads|
    ensures var blobs, a := IsBlob(heads[i].tx.tx), heads[i].sender;
            var k := |Taken(heads[..i], blobs, a)|;
            k < |Taken(heads, blobs, a)| && Taken(heads, blobs, a)[k] == heads[i].tx
    decreases |heads|
  {
    if i < |heads| - 1 {
      TakenAt(Front(heads), i);
      assert Front(heads)[..i] == heads[..i];
    } else {
      assert heads[..i] == Front(heads);
    }
  }

  lemma {:induction false} TakenGrows(heads: seq<HeadTransaction>, i: nat, blobs: bool, a: Address)
    requires i <= |heads|
    ensures |Taken(heads[..i], blobs, a)| <= |Taken(heads, blobs, a)|
    decreases |heads|
  {
    if i < |heads| {
      TakenGrows(Front(heads), i, blobs, a);
      assert Front(heads)[..i] == heads[..i];
    } else {
      assert heads[..i] == heads;
    }
  }

  /** Two included heads of one line have different places in it. */
  lemma TakenApart(heads: seq<HeadTransaction>, i: nat, j: nat)
    requires i < j < |heads| && SameLine(heads[i], heads[j])
    ensures var blobs, a := IsBlob(heads[i].tx.tx), heads[i].sender;
            |Taken(heads[..i], blobs, a)| < |Taken(heads[..j], blobs, a)|
  {
    var blobs, a, before := IsBlob(heads[i].tx.tx), heads[i].sender, heads[..i + 1];
    assert Front(before) == heads[..i] && heads[..j][..i + 1] == before;
    TakenGrows(heads[..j], i + 1, blobs, a);
  }

  /** The facts a refusal is judged by: gas limit, fork, base fee and the mempool when the build began. */
  datatype Setting = Setting(env: Env, gasLimit: nat, eip155: bool, baseFee: Option<nat>, start: Mempool)

  /** A pooled transaction as a head, with its tip. */
  function HeadOf(s: Setting, t: MempoolTransaction, sender: Address): HeadTransaction {
    HeadTransaction(t, sender, UnwrapOr(EffectiveGasTip(t.tx, s.baseFee), 0))
  }

  /** All blobs are in, or not all of this transaction's fit. */
  predicate NoBlobRoom(blobs: nat, tx: Transaction) {
    blobs >= MAX_BLOB_NUMBER_PER_BLOCK || blobs + BlobsOf(tx) > MAX_BLOB_NUMBER_PER_BLOCK
  }

  /** Why `tx` is not included when the transactions `done` are in the block and out of the mempool. */
  ghost predicate RefusedAt(s: Setting, done: seq<Transaction>, tx: Transaction) {
    var results := Results(s.env, done);
    || (results.Some? && s.gasLimit < SumGas(results.value) + tx.gasLimit)
    || (Protected(tx) && !s.eip155)
    || s.env.execute(done, tx).None?
    || (IsBlob(tx) && s.env.hashOf(tx) !in MempoolAfter(s.env.hashOf, s.start, done).bundles)
    || (IsBlob(tx) && NoBlobRoom(BlobCount(done), tx))
  }

  /** The blob transaction came too late: all blobs are in. */
  ghost predicate BlobsFull(taken: seq<HeadTransaction>, h: HeadTransaction) {
    IsBlob(h.tx.tx) && BlobCount(TxsOf(taken)) >= MAX_BLOB_NUMBER_PER_BLOCK
  }

  /** After the first `n` heads it was the turn of `h`: nothing better was waiting then, included since or not. */
  ghost predicate Leads(taken: seq<HeadTransaction>, n: nat, h: HeadTransaction, waiting: set<HeadTransaction>)
    requires n <= |taken|
  {
    && (forall j: nat :: n <= j < |taken| && Awaited(taken, n, j, taken[j]) ==> Follows(h, taken[j]))
    && (forall g :: g in waiting && Awaited(taken, n, |taken|, g) ==> Follows(h, g))
  }

  /**
    It was refused when the first `n` heads were in: at its turn, or because all blobs were in.
    Nothing was included before it that should have come after, and its sender got nothing in since.
   */
  ghost predicate RefusedSince(s: Setting, taken: seq<HeadTransaction>, n: nat, blobs: bool, h: HeadTransaction,
                               waiting: set<HeadTransaction>)
    requires n <= |taken|
  {
    && Taken(taken[..n], blobs, h.sender) == Taken(taken, blobs, h.sender)
    && RefusedAt(s, TxsOf(taken[..n]), h.tx.tx)
    && HeadInOrder(taken[..n], h)
    && (BlobsFull(taken[..n], h) || Leads(taken, n, h, waiting))
  }

  ghost predicate Refused(s: Setting, taken: seq<HeadTransaction>, blobs: bool, h: HeadTransaction,
                          waiting: set<HeadTransaction>) {
    exists n: nat :: n <= |taken| && RefusedSince(s, taken, n, blobs, h, waiting)
  }

  lemma RefusedNow(s: Setting, taken: seq<HeadTransaction>, blobs: bool, h: HeadTransaction,
                   waiting: set<HeadTransaction>)
    requires RefusedAt(s, TxsOf(taken), h.tx.tx) && HeadInOrder(taken, h)
    requires BlobsFull(taken, h) || forall g :: g in waiting ==> Follows(h, g)
    ensures Refused(s, taken, blobs, h, waiting)
  {
    assert taken[..|taken|] == taken;
    assert RefusedSince(s, taken, |taken|, blobs, h, waiting);
  }

  /** What a turn does to the waiting heads: some leave, or one is included and its line moves up. */
  ghost predicate Moves(taken: seq<HeadTransaction>, taken': seq<HeadTransaction>, waiting: set<HeadTransaction>,
                        waiting': set<HeadTransaction>, head: HeadTransaction) {
    || (taken' == taken && waiting' <= waiting)
    || (taken' == taken + [head] && head in waiting && forall g :: g in waiting' ==> g in waiting || SameLine(head, g))
  }

  lemma LeadsStays(taken: seq<HeadTransaction>, n: nat, h: HeadTransaction, waiting: set<HeadTransaction>,
                   head: HeadTransaction, waiting': set<HeadTransaction>)
    requires n <= |taken| && Leads(taken, n, h, waiting) && Moves(taken, taken + [head], waiting, waiting', head)
    ensures Leads(taken + [head], n, h, waiting')
  {
    var more := taken + [head];
    assert more[|taken|] == head && forall k :: 0 <= k < |taken| ==> more[k] == taken[k];
    assert more != taken;
    forall j: nat | n <= j < |more| && Awaited(more, n, j, more[j]) ensures Follows(h, more[j]) {
      assert Awaited(taken, n, j, more[j]);
    }
    forall g | g in waiting' && Awaited(more, n, |more|, g) ensures Follows(h, g) {
      assert !SameLine(more[|taken|], g);
      assert Awaited(taken, n, |taken|, g);
    }
  }

  /** A refusal outlasts anybody else's turn. */
  lemma RefusedStays(s: Setting, taken: seq<HeadTransaction>, taken': seq<HeadTransaction>, head: HeadTransaction,
                     blobs: bool, h: HeadTransaction, waiting: set<HeadTransaction>, waiting': set<HeadTransaction>)
    requires Refused(s, taken, blobs, h, waiting) && Moves(taken, taken', waiting, waiting', head)
    requires taken' == taken || head.sender != h.sender || IsBlob(head.tx.tx) != blobs
    ensures Refused(s, taken', blobs, h, waiting')
  {
    var n: nat :| n <= |taken| && RefusedSince(s, taken, n, blobs, h, waiting);
    if taken' != taken {
      assert taken'[..n] == taken[..n];
      TakenAppend(taken, head, blobs, h.sender);
      if Leads(taken, n, h, waiting) {
        LeadsStays(taken, n, h, waiting, head, waiting');
      }
    }
    assert RefusedSince(s, taken', n, blobs, h, waiting');
  }

  /** No included transaction could have been refused when its turn came. */
  ghost predicate AllAccepted(s: Setting, heads: seq<HeadTransaction>) {
    forall j :: 0 <= j < |heads| ==> !RefusedAt(s, TxsOf(heads[..j]), heads[j].tx.tx)
  }

  lemma AcceptedAppend(s: Setting, heads: seq<HeadTransaction>, head: HeadTransaction)
    requires AllAccepted(s, heads) && !RefusedAt(s, TxsOf(heads), head.tx.tx)
    ensures AllAccepted(s, heads + [head])
  {
    var more := heads + [head];
    forall j | 0 <= j < |more| ensures !RefusedAt(s, TxsOf(more[..j]), more[j].tx.tx) {
      assert more[..j] == heads[..j];
      assert heads[..|heads|] == heads;
    }
  }

  // ---------------------------------------------------------------- where the senders' lists stand

  predicate HasHead(q: Queue, sender: Address) {
    HasSender(q.heads, sender)
  }

  /** A queued head is its sender's next transaction, with the rest of the list behind it. */
  ghost predicate Queued(lists: TransactionLists, taken: seq<HeadTransaction>, blobs: bool, q: Queue, i: nat)
    requires i < |q.heads|
  {
    var a := q.heads[i].sender;
    a in lists && a in q.txs && lists[a] == Taken(taken, blobs, a) + [q.heads[i].tx] + q.txs[a]
  }

  /** Everything of this sender is in the block, or its next transaction was refused once the last was in. */
  ghost predicate Finished(s: Setting, lists: TransactionLists, taken: seq<HeadTransaction>, blobs: bool, a: Address,
                           waiting: set<HeadTransaction>)
    requires a in lists
  {
    var mine := Taken(taken, blobs, a);
    mine <= lists[a] && (|mine| < |lists[a]| ==> Refused(s, taken, blobs, HeadOf(s, lists[a][|mine|], a), waiting))
  }

  ghost function HeadsOf(q: Queue): set<HeadTransaction> {
    set i | 0 <= i < |q.heads| :: q.heads[i]
  }

  /** Where every sender's list stands during the loop; `waiting` are the heads of both queues. */
  ghost predicate Tracks(s: Setting, lists: TransactionLists, taken: seq<HeadTransaction>, blobs: bool, q: Queue,
                         waiting: set<HeadTransaction>) {
    && (forall i :: 0 <= i < |q.heads| ==> Queued(lists, taken, blobs, q, i))
    && (forall a :: a in lists ==> Taken(taken, blobs, a) <= lists[a])
    && (forall a :: a in lists && !HasHead(q, a) ==> Finished(s, lists, taken, blobs, a, waiting))
    && (forall a :: a !in lists ==> Taken(taken, blobs, a) == [])
  }

  /** Each sender's share of the block is the start of its list; with gas to spare it is all that was not refused. */
  ghost predicate Outcome(s: Setting, lists: TransactionLists, taken: seq<HeadTransaction>, blobs: bool,
                          gasLeft: bool) {
    && (forall a :: a in lists ==> Taken(taken, blobs, a) <= lists[a])
    && (forall a :: a !in lists ==> Taken(taken, blobs, a) == [])
    && (gasLeft ==> forall a :: a in lists ==> Finished(s, lists, taken, blobs, a, {}))
  }

  /** Senders without a head stay finished over a turn, if it was not theirs. */
  lemma FinishedStays(s: Setting, lists: TransactionLists, taken: seq<HeadTransaction>, taken': seq<HeadTransaction>,
                      head: HeadTransaction, blobs: bool, a: Address, waiting: set<HeadTransaction>,
                      waiting': set<HeadTransaction>)
    requires a in lists && Finished(s, lists, taken, blobs, a, waiting)
    requires Moves(taken, taken', waiting, waiting', head)
    requires taken' == taken || head.sender != a || IsBlob(head.tx.tx) != blobs
    ensures Finished(s, lists, taken', blobs, a, waiting')
  {
    var mine := Taken(taken, blobs, a);
    if taken' != taken {
      TakenAppend(taken, head, blobs, a);
    }
    if |mine| < |lists[a]| {
      RefusedStays(s, taken, taken', head, blobs, HeadOf(s, lists[a][|mine|], a), waiting, waiting');
    }
  }

  /** With fewer heads waiting everybody stands where they stood. */
  lemma FewerWaitingTracks(s: Setting, lists: TransactionLists, taken: seq<HeadTransaction>, blobs: bool, q: Queue,
                           waiting: set<HeadTransaction>, waiting': set<HeadTransaction>)
    requires Tracks(s, lists, taken, blobs, q, waiting) && waiting' <= waiting
    ensures Tracks(s, lists, taken, blobs, q, waiting')
  {
    forall a | a in lists && !HasHead(q, a) ensures Finished(s, lists, taken, blobs, a, waiting') {
      var mine := Taken(taken, blobs, a);
      if |mine| < |lists[a]| {
        var h := HeadOf(s, lists[a][|mine|], a);
        RefusedStays(s, taken, taken, h, blobs, h, waiting, waiting');
      }
    }
  }

  lemma TracksOutcome(s: Setting, lists: TransactionLists, taken: seq<HeadTransaction>, blobs: bool, q: Queue,
                      waiting: set<HeadTransaction>)
    requires Tracks(s, lists, taken, blobs, q, waiting)
    ensures Outcome(s, lists, taken, blobs, q.heads == [])
    ensures Outcome(s, lists, taken, blobs, false)
  {
    FewerWaitingTracks(s, lists, taken, blobs, q, waiting, {});
  }

  lemma NewIsQueued(lists: TransactionLists, baseFee: Option<nat>, q: Queue, blobs: bool, i: nat)
    requires IsNew(lists, baseFee, q) && i < |q.heads|
    ensures Queued(lists, [], blobs, q, i)
  {
  }

  lemma NewTracks(s: Setting, lists: TransactionLists, baseFee: Option<nat>, q: Queue, blobs: bool,
                  waiting: set<HeadTransaction>)
    requires IsNew(lists, baseFee, q)
    requires forall a :: a in lists ==> lists[a] != []
    ensures Tracks(s, lists, [], blobs, q, waiting)
  {
    forall i | 0 <= i < |q.heads| ensures Queued(lists, [], blobs, q, i) {
      NewIsQueued(lists, baseFee, q, blobs, i);
    }
    forall a | a in lists ensures HasHead(q, a) {
    }
  }

  /** The head was refused: its sender is finished, the others stand where they stood. */
  lemma PoppedTracks(s: Setting, lists: TransactionLists, taken: seq<HeadTransaction>, blobs: bool, q: Queue,
                     others: set<HeadTransaction>)
    requires Valid(q, blobs) && q.heads != [] && q.baseFee == s.baseFee
    requires Tracks(s, lists, taken, blobs, q, HeadsOf(q) + others)
    requires RefusedAt(s, TxsOf(taken), q.heads[0].tx.tx) && HeadInOrder(taken, q.heads[0])
    requires forall g :: g in HeadsOf(q) + others ==> Follows(q.heads[0], g)
    ensures Tracks(s, lists, taken, blobs, Popped(q), HeadsOf(Popped(q)) + others)
  {
    var q' := Popped(q);
    var waiting, waiting' := HeadsOf(q) + others, HeadsOf(q') + others;
    forall i | 0 <= i < |q'.heads| ensures Queued(lists, taken, blobs, q', i) {
      assert Queued(lists, taken, blobs, q, i + 1);
    }
    PoppedHeads(q);
    forall a | a in lists && !HasHead(q', a) ensures Finished(s, lists, taken, blobs, a, waiting') {
      if a == q.heads[0].sender {
        assert Queued(lists, taken, blobs, q, 0) && HeadOk(q.heads[0], q, blobs);
        RefusedNow(s, taken, blobs, q.heads[0], waiting');
      } else {
        PoppedKeepsOthers(q, a);
        FinishedStays(s, lists, taken, taken, q.heads[0], blobs, a, waiting, waiting');
      }
    }
  }

  lemma PoppedHeads(q: Queue)
    requires q.heads != []
    ensures HeadsOf(Popped(q)) <= HeadsOf(q)
  {
    forall g | g in HeadsOf(Popped(q)) ensures g in HeadsOf(q) {
      var i :| 0 <= i < |Popped(q).heads| && Popped(q).heads[i] == g;
      assert q.heads[i + 1] == g;
    }
  }

  lemma PoppedKeepsOthers(q: Queue, a: Address)
    requires q.heads != [] && a != q.heads[0].sender
    ensures HasHead(q, a) ==> HasHead(Popped(q), a)
  {
  }

  /** No blob gas is left: every blob transaction still queued is refused. */
  lemma ClearedTracks(s: Setting, lists: TransactionLists, taken: seq<HeadTransaction>, q: Queue,
                      waiting: set<HeadTransaction>)
    requires Valid(q, true) && q.baseFee == s.baseFee && Tracks(s, lists, taken, true, q, waiting)
    requires QueueInOrder(taken, q) && BlobCount(TxsOf(taken)) >= MAX_BLOB_NUMBER_PER_BLOCK
    ensures Tracks(s, lists, taken, true, Cleared(q), waiting)
  {
    forall a | a in lists ensures Finished(s, lists, taken, true, a, waiting) {
      if HasHead(q, a) {
        var i :| 0 <= i < |q.heads| && q.heads[i].sender == a;
        assert Queued(lists, taken, true, q, i) && HeadOk(q.heads[i], q, true);
        RefusedNow(s, taken, true, q.heads[i], waiting);
      }
    }
  }

  /** A turn of the queue moves its heads on, and leaves those of the other queue. */
  lemma TurnedMoves(q: Queue, q': Queue, taken: seq<HeadTransaction>, taken': seq<HeadTransaction>, blobs: bool,
                    others: set<HeadTransaction>)
    requires Valid(q, blobs) && q.heads != [] && Turned(q, q', taken, taken')
    ensures Moves(taken, taken', HeadsOf(q) + others, HeadsOf(q') + others, q.heads[0])
  {
    var head := q.heads[0];
    assert head in HeadsOf(q) && HeadOk(head, q, blobs);
    if taken' == taken && q' == Popped(q) {
      PoppedHeads(q);
    } else {
      forall g | g in HeadsOf(q') ensures g in HeadsOf(q) || SameLine(head, g) {
        if g in q.heads[1..] {
          var m :| 0 <= m < |q.heads[1..]| && q.heads[1..][m] == g;
          assert q.heads[m + 1] == g;
        } else {
          assert Suitable(q.txs[head.sender][0], head.sender, q.baseFee, blobs);
        }
      }
    }
  }

  /** The head was included: its sender's next transaction is queued, or all of its list is in. */
  lemma ShiftedTracks(s: Setting, lists: TransactionLists, taken: seq<HeadTransaction>, blobs: bool, q: Queue,
                      q': Queue, others: set<HeadTransaction>)
    requires Valid(q, blobs) && q.heads != [] && IsShifted(q, q')
    requires Tracks(s, lists, taken, blobs, q, HeadsOf(q) + others)
    ensures Tracks(s, lists, taken + [q.heads[0]], blobs, q', HeadsOf(q') + others)
  {
    var head := q.heads[0];
    var taken', waiting, waiting' := taken + [head], HeadsOf(q) + others, HeadsOf(q') + others;
    assert HeadOk(head, q, blobs) && Queued(lists, taken, blobs, q, 0);
    TurnedMoves(q, q', taken, taken', blobs, others);
    forall a
      ensures Taken(taken', blobs, a) == Taken(taken, blobs, a) + if a == head.sender then [head.tx] else []
    {
      TakenAppend(taken, head, blobs, a);
    }
    forall i | 0 <= i < |q'.heads| ensures Queued(lists, taken', blobs, q', i) {
      ShiftedQueued(lists, taken, blobs, q, q', i);
    }
    forall a | a in lists && !HasHead(q', a) ensures Finished(s, lists, taken', blobs, a, waiting') {
      ShiftedKeepsOthers(q, q', a);
      if a != head.sender {
        FinishedStays(s, lists, taken, taken', head, blobs, a, waiting, waiting');
      }
    }
  }

  /** Other senders keep their heads; the included one has a head while its list lasts. */
  lemma ShiftedKeepsOthers(q: Queue, q': Queue, a: Address)
    requires q.heads != [] && IsShifted(q, q')
    ensures a != q.heads[0].sender && HasHead(q, a) ==> HasHead(q', a)
    ensures a == q.heads[0].sender && a in q.txs && q.txs[a] != [] ==> HasHead(q', a)
  {
    var rest, sender := q.heads[1..], q.heads[0].sender;
    if a != sender && HasHead(q, a) {
      var i :| 0 <= i < |q.heads| && q.heads[i].sender == a;
      assert rest[i - 1] == q.heads[i];
      assert rest[i - 1] in q'.heads;
    } else if a == sender && a in q.txs && q.txs[a] != [] {
      var next := q.txs[a][0];
      assert HeadTransaction(next, a, EffectiveGasTip(next.tx, q.baseFee).value) in q'.heads;
    }
  }

  lemma ShiftedQueued(lists: TransactionLists, taken: seq<HeadTransaction>, blobs: bool, q: Queue, q': Queue, i: nat)
    requires Valid(q, blobs) && q.heads != [] && IsShifted(q, q') && i < |q'.heads|
    requires forall k :: 0 <= k < |q.heads| ==> Queued(lists, taken, blobs, q, k)
    ensures Queued(lists, taken + [q.heads[0]], blobs, q', i)
  {
    var head := q.heads[0];
    assert HeadOk(head, q, blobs) && Queued(lists, taken, blobs, q, 0);
    var a := q'.heads[i].sender;
    TakenAppend(taken, head, blobs, a);
    ShiftedSendersDistinct(q, q');
    if q'.heads[i] in q.heads[1..] {
      var k :| 0 <= k < |q.heads[1..]| && q.heads[1..][k] == q'.heads[i];
      assert q.heads[k + 1] == q'.heads[i];
      assert Queued(lists, taken, blobs, q, k + 1);
    } else {
      var next := q.txs[a][0];
      assert q'.heads[i] == HeadTransaction(next, a, EffectiveGasTip(next.tx, q.baseFee).value);
      assert q.txs[a] == [next] + q'.txs[a];
    }
  }

  /** Whatever a turn did to the chosen queue, the other one still tracks its lists. */
  lemma OtherTracks(s: Setting, lists: TransactionLists, taken: seq<HeadTransaction>, taken': seq<HeadTransaction>,
                    blobs: bool, q: Queue, head: HeadTransaction, waiting: set<HeadTransaction>,
                    waiting': set<HeadTransaction>)
    requires Tracks(s, lists, taken, blobs, q, waiting) && IsBlob(head.tx.tx) != blobs
    requires Moves(taken, taken', waiting, waiting', head)
    ensures Tracks(s, lists, taken', blobs, q, waiting')
  {
    forall a ensures Taken(taken', blobs, a) == Taken(taken, blobs, a) {
      TakenAppend(taken, head, blobs, a);
    }
    forall i | 0 <= i < |q.heads| ensures Queued(lists, taken', blobs, q, i) {
      assert Queued(lists, taken, blobs, q, i);
    }
    forall a | a in lists && !HasHead(q, a) ensures Finished(s, lists, taken', blobs, a, waiting') {
      FinishedStays(s, lists, taken, taken', head, blobs, a, waiting, waiting');
    }
  }

  // ---------------------------------------------------------------- termination

  /** The places of the transactions still waiting behind a head. */
  ghost function Waiting(q: Queue): set<(Address, int)> {
    set a, k | a in q.txs && 0 <= k < |q.txs[a]| :: (a, k)
  }

  /** Less is waiting, or as much is waiting and fewer heads are queued. */
  ghost predicate Shrinks(q: Queue, q': Queue) {
    Waiting(q') < Waiting(q) || (Waiting(q') == Waiting(q) && |q'.heads| < |q.heads|)
  }

  lemma TurnedShrinks(q: Queue, q': Queue, taken: seq<HeadTransaction>, taken': seq<HeadTransaction>)
    requires q.heads != [] && Turned(q, q', taken, taken')
    ensures Shrinks(q, q')
  {
    var sender := q.heads[0].sender;
    if q' == Popped(q) {
      assert Waiting(q') <= Waiting(q);
    } else if sender in q.txs && q.txs[sender] != [] {
      var last := (sender, |q.txs[sender]| - 1);
      assert last in Waiting(q) && last !in Waiting(q');
      assert Waiting(q') <= Waiting(q);
    }
  }

  // ---------------------------------------------------------------- the build context

  /** The running counters and the mempool of the moment decide exactly what a refusal is defined by. */
  lemma CountersDecide(s: Setting, started: BlockHeader, p: Payload, heads: seq<HeadTransaction>, now: Mempool,
                       tx: Transaction)
    requires Consistent(s.env, s.start.bundles, started, p, heads) && s.gasLimit == p.header.gasLimit
    requires MempoolOk(s.env, s.eip155, s.start, now, p.transactions)
    ensures RefusedAt(s, p.transactions, tx) <==>
            || p.remainingGas < tx.gasLimit
            || (Protected(tx) && !s.eip155)
            || s.env.execute(p.transactions, tx).None?
            || (IsBlob(tx) && s.env.hashOf(tx) !in now.bundles)
            || (IsBlob(tx) && NoBlobRoom(|p.bundle.blobs|, tx))
  {
  }

  /** The header of a filled payload. */
  ghost function Completed(env: Env, p: Payload): BlockHeader
    requires p.remainingGas <= p.header.gasLimit
  {
    p.header.(stateRoot := env.stateRootOf(p.transactions),
              transactionsRoot := env.transactionsRootOf(p.transactions),
              receiptsRoot := env.receiptsRootOf(p.receipts),
              gasUsed := p.header.gasLimit - p.remainingGas)
  }

  class PayloadBuildContext {
    const env: Env
    const eip155: bool
    /** The gas limit, the base fee and the mempool when the build began. */
    ghost const gasLimit: nat
    ghost const baseFee: Option<nat>
    ghost const start: Mempool
    var header: BlockHeader
    var transactions: seq<Transaction>
    var remainingGas: nat
    var receipts: seq<Receipt>
    var blockValue: nat
    var bundle: BlobsBundle
    var pool: map<Hash, MempoolTransaction>
    var bundles: map<Hash, BlobsBundle>
    /** The heads included so far. */
    ghost var heads: seq<HeadTransaction>

    ghost function View(): Payload
      reads this
    {
      Payload(header, transactions, remainingGas, receipts, blockValue, bundle)
    }

    ghost function Judged(): Setting {
      Setting(env, gasLimit, eip155, baseFee, start)
    }

    ghost predicate BegunWith(started: BlockHeader) {
      gasLimit == started.gasLimit && baseFee == started.baseFeePerGas
    }

    /** The transaction is refused at this moment. */
    ghost predicate Refuses(tx: Transaction)
      reads this`heads
    {
      RefusedAt(Judged(), TxsOf(heads), tx)
    }

    /** What holds of the heads and of the mempool. */
    ghost predicate Kept()
      reads this`heads, this`transactions, this`pool, this`bundles
    {
      && InOrder(heads) && AllAccepted(Judged(), heads)
      && MempoolOk(env, eip155, start, Mempool(pool, bundles), transactions)
    }

    ghost predicate Valid(started: BlockHeader)
      reads this
    {
      Consistent(env, start.bundles, started, View(), heads) && BegunWith(started) && Kept()
    }

    /** The payload once an executed head's transaction and receipt are added. */
    ghost function Added(head: HeadTransaction, receipt: Receipt): Payload
      reads this
    {
      View().(transactions := transactions + [head.tx.tx], receipts := receipts + [receipt])
    }

    /** The head was executed and counted; the transaction and its receipt are still to be added. */
    ghost predicate Counted(started: BlockHeader, head: HeadTransaction, receipt: Receipt)
      reads this
    {
      Consistent(env, start.bundles, started, Added(head, receipt), heads + [head])
    }

    constructor (env: Env, eip155: bool, started: BlockHeader, pool: map<Hash, MempoolTransaction>,
                 bundles: map<Hash, BlobsBundle>)
      requires UnwrapOr(started.blobGasUsed, 0) == 0
      requires BundlesMatch(env.hashOf, bundles)
      ensures Valid(started) && transactions == [] && heads == []
      ensures this.env == env && this.eip155 == eip155 && header == started && this.bundles == bundles
              && this.pool == pool
      ensures start == Mempool(pool, bundles)
      ensures gasLimit == started.gasLimit && baseFee == started.baseFeePerGas
    {
      gasLimit, baseFee, start := started.gasLimit, started.baseFeePerGas, Mempool(pool, bundles);
      this.env, this.eip155, this.header, this.pool, this.bundles := env, eip155, started, pool, bundles;
      transactions, remainingGas, receipts, blockValue := [], started.gasLimit, [], 0;
      bundle := BlobsBundle([], [], []);
      heads := [];
    }

    /** Drops a transaction, and the bundle of a blob transaction, from the mempool. */
    method RemoveTransaction(hash: Hash)
      modifies this`pool, this`bundles
      ensures Mempool(pool, bundles) == Without(env.hashOf, old(Mempool(pool, bundles)), hash)
    {
      if hash in pool {
        if IsBlob(pool[hash].tx) {
          bundles := bundles - {env.hashOf(pool[hash].tx)};
        }
        pool := pool - {hash};
      }
    }

    /** Runs a transaction that fits: gas and value move, the rest waits for the caller. */
    method ApplyPlainTransaction(head: HeadTransaction) returns (r: Option<Receipt>)
      requires GasBounded(env) && head.tx.tx.gasLimit <= remainingGas <= header.gasLimit
      modifies this`remainingGas, this`blockValue
      ensures r.Some? <==> env.execute(transactions, head.tx.tx).Some?
      ensures r.None? ==> View() == old(View())
      ensures r.Some? ==>
                Added(head, r.value) == Extended(env, old(View()), head, env.execute(transactions, head.tx.tx).value)
    {
      var result := env.execute(transactions, head.tx.tx);
      if result.None? {
        return None;
      }
      var used := result.value.gasUsed;
      assert used <= head.tx.tx.gasLimit;
      remainingGas := SaturatingSub(remainingGas, used);
      blockValue := blockValue + used * head.tip;
      return Some(NewReceipt(env.bloomOf, head.tx.tx, result.value, header.gasLimit - remainingGas));
    }

    /** Runs a blob transaction if its bundle is there and its blobs still fit. */
    method ApplyBlobTransaction(head: HeadTransaction) returns (r: Option<Receipt>)
      requires GasBounded(env) && head.tx.tx.gasLimit <= remainingGas <= header.gasLimit
      requires IsBlob(head.tx.tx) && BundlesMatch(env.hashOf, bundles)
      modifies this`remainingGas, this`blockValue, this`header, this`bundle
      ensures r.Some? <==>
              && env.hashOf(head.tx.tx) in bundles
              && |old(bundle).blobs| + BlobsOf(head.tx.tx) <= MAX_BLOB_NUMBER_PER_BLOCK
              && env.execute(transactions, head.tx.tx).Some?
      ensures r.None? ==> View() == old(View())
      ensures r.Some? ==>
                var done := Extended(env, old(View()), head, env.execute(transactions, head.tx.tx).value);
                Added(head, r.value) == WithBlobs(done, bundles[env.hashOf(head.tx.tx)])
    {
      var txHash := env.hashOf(head.tx.tx);
      if txHash !in bundles {
        return None;
      }
      var added := bundles[txHash];
      assert |added.blobs| == BlobsOf(head.tx.tx);
      if (|bundle.blobs| + |added.blobs|) * GAS_PER_BLOB > MAX_BLOB_GAS_PER_BLOCK {
        return None;
      }
      r := ApplyPlainTransaction(head);
      if r.Some? {
        header := header.(blobGasUsed := Some(UnwrapOr(header.blobGasUsed, 0) + |added.blobs| * GAS_PER_BLOB));
        bundle := Joined(bundle, added);
      }
    }

    /** A plain transaction is executed and counted, or left without a trace. */
    method RunPlain(head: HeadTransaction, ghost started: BlockHeader) returns (r: Option<Receipt>)
      requires Valid(started) && GasBounded(env) && head.tx.tx.gasLimit <= remainingGas && !IsBlob(head.tx.tx)
      modifies this`remainingGas, this`blockValue, this`header, this`bundle
      ensures (r.Some? <==> env.execute(transactions, head.tx.tx).Some?)
      ensures r.None? ==> View() == old(View()) && Valid(started)
      ensures r.Some? ==> Counted(started, head, r.value)
    {
      ghost var before := View();
      r := ApplyPlainTransaction(head);
      if r.Some? {
        PlainKeepsConsistent(env, start.bundles, started, before, heads, head);
        ghost var plain := Extended(env, before, head, env.execute(transactions, head.tx.tx).value);
        SameConsistent(env, start.bundles, started, plain, Added(head, r.value), heads + [head]);
      }
    }

    /** So is a blob transaction, together with its blobs. */
    method RunBlob(head: HeadTransaction, ghost started: BlockHeader) returns (r: Option<Receipt>)
      requires Valid(started) && GasBounded(env) && head.tx.tx.gasLimit <= remainingGas && IsBlob(head.tx.tx)
      modifies this`remainingGas, this`blockValue, this`header, this`bundle
      ensures r.Some? <==>
              && env.hashOf(head.tx.tx) in bundles
              && |old(bundle).blobs| + BlobsOf(head.tx.tx) <= MAX_BLOB_NUMBER_PER_BLOCK
              && env.execute(transactions, head.tx.tx).Some?
      ensures r.None? ==> View() == old(View()) && Valid(started)
      ensures r.Some? ==> Counted(started, head, r.value)
    {
      ghost var before := View();
      r := ApplyBlobTransaction(head);
      if r.Some? {
        ghost var b := bundles[env.hashOf(head.tx.tx)];
        BlobKeepsConsistent(env, start.bundles, started, before, heads, head, b);
        ghost var plain := Extended(env, before, head, env.execute(transactions, head.tx.tx).value);
        SameConsistent(env, start.bundles, started, WithBlobs(plain, b), Added(head, r.value), heads + [head]);
      }
    }

    /** Execution accepts the transaction and, for blobs, its bundle is there and fits. */
    ghost predicate Runnable(tx: Transaction)
      reads this
    {
      && env.execute(transactions, tx).Some?
      && (IsBlob(tx) ==> env.hashOf(tx) in bundles && |bundle.blobs| + BlobsOf(tx) <= MAX_BLOB_NUMBER_PER_BLOCK)
    }

    /** What cannot be run is refused at this moment; what can is not, once the caller has checked the rest. */
    lemma RunnableUnlessRefused(started: BlockHeader, tx: Transaction)
      requires Valid(started)
      ensures !Runnable(tx) ==> Refuses(tx)
      ensures tx.gasLimit <= remainingGas && (Protected(tx) ==> eip155)
              && (IsBlob(tx) ==> |bundle.blobs| < MAX_BLOB_NUMBER_PER_BLOCK)
              ==> (Runnable(tx) <==> !Refuses(tx))
    {
      CountersDecide(Judged(), started, View(), heads, Mempool(pool, bundles), tx);
    }

    /** Runs exactly what is runnable, by its kind; the rest leaves no trace. */
    method ApplyTransaction(head: HeadTransaction, ghost started: BlockHeader) returns (r: Option<Receipt>)
      requires Valid(started) && GasBounded(env) && head.tx.tx.gasLimit <= remainingGas
      modifies this`remainingGas, this`blockValue, this`header, this`bundle
      ensures r.Some? <==> old(Runnable(head.tx.tx))
      ensures r.None? ==> View() == old(View()) && Valid(started)
      ensures r.Some? ==> Counted(started, head, r.value)
    {
      if IsBlob(head.tx.tx) {
        r := RunBlob(head, started);
      } else {
        r := RunPlain(head, started);
      }
    }

    /** Pulls a transaction that is being included, or one that must not be without replay protection. */
    method Pull(tx: Transaction, ghost txs: seq<Transaction>)
      requires MempoolOk(env, eip155, start, Mempool(pool, bundles), transactions)
      requires txs == transactions + [tx] || (txs == transactions && !eip155)
      modifies this`pool, this`bundles
      ensures MempoolOk(env, eip155, start, Mempool(pool, bundles), txs) && env.hashOf(tx) !in pool
    {
      ghost var now := Mempool(pool, bundles);
      RemoveTransaction(env.hashOf(tx));
      if txs == transactions {
        ProtectedLeaves(env, start, now, transactions, env.hashOf(tx));
      } else {
        IncludedLeaves(env, eip155, start, now, transactions, tx);
      }
    }

    /** Pulls an executed transaction from the mempool, adds it to the block and saves its receipt. */
    method Record(head: HeadTransaction, receipt: Receipt, ghost started: BlockHeader)
      requires Counted(started, head, receipt) && Kept() && BegunWith(started)
      requires InOrder(heads + [head]) && !Refuses(head.tx.tx)
      modifies this`transactions, this`receipts, this`heads, this`pool, this`bundles
      ensures Valid(started) && heads == old(heads) + [head] && receipts == old(receipts) + [receipt]
    {
      ghost var added, more := Added(head, receipt), heads + [head];
      AcceptedAppend(Judged(), heads, head);
      Pull(head.tx.tx, added.transactions);
      transactions, receipts, heads := transactions + [head.tx.tx], receipts + [receipt], heads + [head];
      assert View() == added && heads == more && transactions == added.transactions;
    }

    /** Completes the header: the roots come from the state and the tries, the gas from the account. */
    method FinalizePayload(ghost started: BlockHeader)
      requires Valid(started)
      modifies this`header
      ensures header == Completed(env, old(View()))
      ensures header.gasUsed == SumGas(Results(env, transactions).value)
    {
      header := header.(stateRoot := env.stateRootOf(transactions),
                        transactionsRoot := env.transactionsRootOf(transactions),
                        receiptsRoot := env.receiptsRootOf(receipts),
                        gasUsed := header.gasLimit - remainingGas);
    }
  }

  // ---------------------------------------------------------------- filling the payload

  /** The best head of both queues; a plain one is preferred to an equally good blob one. */
  method NextTransaction(plainTxs: TransactionQueue,
                         blobTxs: TransactionQueue) returns (r: Option<(HeadTransaction, bool)>)
    requires Sorted(plainTxs.heads) && Sorted(blobTxs.heads)
    ensures r.None? <==> plainTxs.heads == [] && blobTxs.heads == []
    ensures r.Some? ==>
              var chosen, other := if r.value.1 then blobTxs else plainTxs, if r.value.1 then plainTxs else blobTxs;
              && chosen.heads != [] && r.value.0 == chosen.heads[0]
              && (forall h :: h in plainTxs.heads + blobTxs.heads ==> LessEq(r.value.0, h))
              && (r.value.1 ==> forall h :: h in plainTxs.heads ==> Less(r.value.0, h))
  {
    if plainTxs.heads == [] && blobTxs.heads == [] {
      return None;
    } else if plainTxs.heads == [] {
      return Some((blobTxs.heads[0], true));
    } else if blobTxs.heads == [] {
      return Some((plainTxs.heads[0], false));
    } else if Less(blobTxs.heads[0], plainTxs.heads[0]) {
      return Some((blobTxs.heads[0], true));
    } else {
      return Some((plainTxs.heads[0], false));
    }
  }

  /** The queue is well formed, in step with its lists and in order behind the included heads. */
  ghost predicate QueueOk(s: Setting, lists: TransactionLists, taken: seq<HeadTransaction>, blobs: bool, q: Queue,
                          others: set<HeadTransaction>) {
    && Valid(q, blobs) && q.baseFee == s.baseFee
    && Tracks(s, lists, taken, blobs, q, HeadsOf(q) + others) && QueueInOrder(taken, q)
  }

  /** Nothing waiting in either queue is better than this head. */
  ghost predicate Best(q: Queue, others: set<HeadTransaction>, head: HeadTransaction) {
    forall g :: g in HeadsOf(q) + others ==> Follows(head, g)
  }

  /** A refused head leaves with everything its sender had queued. */
  method Refuse(ctx: PayloadBuildContext, txs: TransactionQueue, isBlob: bool, ghost lists: TransactionLists,
                ghost others: set<HeadTransaction>)
    requires QueueOk(ctx.Judged(), lists, ctx.heads, isBlob, txs.View(), others) && txs.heads != []
    requires Best(txs.View(), others, txs.heads[0]) && ctx.Refuses(txs.heads[0].tx.tx)
    modifies txs
    ensures QueueOk(ctx.Judged(), lists, ctx.heads, isBlob, txs.View(), others)
    ensures Turned(old(txs.View()), txs.View(), ctx.heads, ctx.heads)
  {
    ghost var q := txs.View();
    PoppedIsValid(q, isBlob);
    PoppedTracks(ctx.Judged(), lists, ctx.heads, isBlob, q, others);
    TurnedInOrder(q, Popped(q), ctx.heads, ctx.heads, isBlob);
    txs.Pop();
  }

  /** A replay-protected head also leaves the mempool when the chain knows no such protection. */
  method RefuseProtected(ctx: PayloadBuildContext, txs: TransactionQueue, head: HeadTransaction, isBlob: bool,
                         ghost started: BlockHeader, ghost lists: TransactionLists, ghost others: set<HeadTransaction>)
    requires ctx.Valid(started) && Protected(head.tx.tx) && !ctx.eip155 && Best(txs.View(), others, head)
    requires QueueOk(ctx.Judged(), lists, ctx.heads, isBlob, txs.View(), others)
    requires txs.heads != [] && head == txs.heads[0]
    modifies ctx`pool, ctx`bundles, txs
    ensures ctx.Valid(started) && ctx.env.hashOf(head.tx.tx) !in ctx.pool
    ensures QueueOk(ctx.Judged(), lists, ctx.heads, isBlob, txs.View(), others)
    ensures Turned(old(txs.View()), txs.View(), ctx.heads, ctx.heads)
  {
    Refuse(ctx, txs, isBlob, lists, others);
    ctx.Pull(head.tx.tx, ctx.transactions);
  }

  /** An executed head makes way for its sender's next one and leaves the mempool. */
  method Include(ctx: PayloadBuildContext, txs: TransactionQueue, head: HeadTransaction, receipt: Receipt, isBlob: bool,
                 ghost started: BlockHeader, ghost lists: TransactionLists, ghost others: set<HeadTransaction>)
    returns (error: Option<QueueError>)
    requires QueueOk(ctx.Judged(), lists, ctx.heads, isBlob, txs.View(), others)
    requires txs.heads != [] && head == txs.heads[0]
    requires ctx.Counted(started, head, receipt) && ctx.Kept() && ctx.BegunWith(started)
    requires InOrder(ctx.heads + [head]) && !ctx.Refuses(head.tx.tx)
    modifies ctx, txs
    ensures error == None && ctx.Valid(started)
    ensures QueueOk(ctx.Judged(), lists, ctx.heads, isBlob, txs.View(), others)
    ensures Turned(old(txs.View()), txs.View(), old(ctx.heads), ctx.heads)
  {
    ghost var q, taken := txs.View(), ctx.heads;
    error := txs.Shift(isBlob);
    ghost var q' := txs.View();
    ctx.Record(head, receipt, started);
    ShiftedTracks(ctx.Judged(), lists, taken, isBlob, q, q', others);
    TurnedInOrder(q, q', taken, ctx.heads, isBlob);
  }

  /** Executes a head that fits: it is included, or refused with its sender when it is rejected. */
  method RunHead(ctx: PayloadBuildContext, txs: TransactionQueue, head: HeadTransaction, isBlob: bool,
                 ghost started: BlockHeader, ghost lists: TransactionLists, ghost others: set<HeadTransaction>)
    returns (error: Option<QueueError>)
    requires ctx.Valid(started) && GasBounded(ctx.env) && Best(txs.View(), others, head)
    requires QueueOk(ctx.Judged(), lists, ctx.heads, isBlob, txs.View(), others)
    requires txs.heads != [] && head == txs.heads[0]
    requires head.tx.tx.gasLimit <= ctx.remainingGas && InOrder(ctx.heads + [head])
    requires ctx.Runnable(head.tx.tx) <==> !ctx.Refuses(head.tx.tx)
    modifies ctx, txs
    ensures error == None && ctx.Valid(started)
    ensures QueueOk(ctx.Judged(), lists, ctx.heads, isBlob, txs.View(), others)
    ensures Turned(old(txs.View()), txs.View(), old(ctx.heads), ctx.heads)
  {
    var receipt := ctx.ApplyTransaction(head, started);
    if receipt.None? {
      Refuse(ctx, txs, isBlob, lists, others);
      return None;
    }
    error := Include(ctx, txs, head, receipt.value, isBlob, started, lists, others);
  }

  /** One turn of the loop: the chosen head is refused with its sender, or included. */
  method TakeTurn(ctx: PayloadBuildContext, txs: TransactionQueue, head: HeadTransaction, isBlob: bool,
                  ghost started: BlockHeader, ghost lists: TransactionLists, ghost others: set<HeadTransaction>)
    returns (error: Option<QueueError>)
    requires ctx.Valid(started) && GasBounded(ctx.env) && Best(txs.View(), others, head)
    requires QueueOk(ctx.Judged(), lists, ctx.heads, isBlob, txs.View(), others)
    requires txs.heads != [] && head == txs.heads[0]
    requires isBlob ==> |ctx.bundle.blobs| < MAX_BLOB_NUMBER_PER_BLOCK
    modifies ctx, txs
    ensures error == None && ctx.Valid(started)
    ensures QueueOk(ctx.Judged(), lists, ctx.heads, isBlob, txs.View(), others)
    ensures Turned(old(txs.View()), txs.View(), old(ctx.heads), ctx.heads)
  {
    CountersDecide(ctx.Judged(), started, ctx.View(), ctx.heads, Mempool(ctx.pool, ctx.bundles), head.tx.tx);
    if ctx.remainingGas < head.tx.tx.gasLimit {
      Refuse(ctx, txs, isBlob, lists, others);
      return None;
    }
    if Protected(head.tx.tx) && !ctx.eip155 {
      RefuseProtected(ctx, txs, head, isBlob, started, lists, others);
      return None;
    }
    assert HeadOk(head, txs.View(), isBlob);
    OrderAppend(ctx.heads, head);
    ctx.RunnableUnlessRefused(started, head.tx.tx);
    error := RunHead(ctx, txs, head, isBlob, started, lists, others);
  }

  /** Fewer plain transactions are queued, or as many and fewer blob transactions. */
  ghost predicate Progress(plain: Queue, blob: Queue, plain': Queue, blob': Queue) {
    || Waiting(plain') < Waiting(plain)
    || (Waiting(plain') == Waiting(plain) && Waiting(blob') < Waiting(blob))
    || (Waiting(plain') == Waiting(plain) && Waiting(blob') == Waiting(blob)
        && |plain'.heads| + |blob'.heads| < |plain.heads| + |blob.heads|)
  }

  lemma ProgressInBlobs(plain: Queue, blob: Queue, cleared: Queue, blob': Queue)
    requires cleared == blob || cleared == Cleared(blob)
    requires Shrinks(cleared, blob')
    ensures Progress(plain, blob, plain, blob')
  {
  }

  lemma ProgressInPlain(plain: Queue, blob: Queue, plain': Queue, cleared: Queue)
    requires cleared == blob || cleared == Cleared(blob)
    requires Shrinks(plain, plain')
    ensures Progress(plain, blob, plain', cleared)
  {
  }

  /** Drops the blob queue once no blob gas is left. */
  method DropBlobs(ctx: PayloadBuildContext, blobTxs: TransactionQueue, ghost started: BlockHeader,
                   ghost blob: TransactionLists, ghost others: set<HeadTransaction>)
    requires ctx.Valid(started) && QueueOk(ctx.Judged(), blob, ctx.heads, true, blobTxs.View(), others)
    modifies blobTxs
    ensures QueueOk(ctx.Judged(), blob, ctx.heads, true, blobTxs.View(), others)
    ensures blobTxs.View() ==
            if |ctx.bundle.blobs| >= MAX_BLOB_NUMBER_PER_BLOCK && old(blobTxs.heads) != []
            then Cleared(old(blobTxs.View()))
            else old(blobTxs.View())
  {
    if blobTxs.heads != [] && |ctx.bundle.blobs| * GAS_PER_BLOB >= MAX_BLOB_GAS_PER_BLOCK {
      ghost var q := blobTxs.View();
      ClearedTracks(ctx.Judged(), blob, ctx.heads, q, HeadsOf(q) + others);
      FewerWaitingTracks(ctx.Judged(), blob, ctx.heads, true, Cleared(q), HeadsOf(q) + others,
                         HeadsOf(Cleared(q)) + others);
      blobTxs.Clear();
    }
  }

  /** The queue that was not chosen, after the turn of a head at least as good as all of its own. */
  lemma OtherOk(s: Setting, lists: TransactionLists, q: Queue, q': Queue, other: Queue, blobs: bool,
                taken: seq<HeadTransaction>, taken': seq<HeadTransaction>)
    requires Valid(q, blobs) && q.heads != [] && Turned(q, q', taken, taken')
    requires QueueOk(s, lists, taken, !blobs, other, HeadsOf(q)) && Best(q, HeadsOf(other), q.heads[0])
    ensures QueueOk(s, lists, taken', !blobs, other, HeadsOf(q'))
  {
    assert HeadOk(q.heads[0], q, blobs);
    TurnedMoves(q, q', taken, taken', blobs, HeadsOf(other));
    assert HeadsOf(q) + HeadsOf(other) == HeadsOf(other) + HeadsOf(q);
    assert HeadsOf(q') + HeadsOf(other) == HeadsOf(other) + HeadsOf(q');
    OtherTracks(s, lists, taken, taken', !blobs, other, q.heads[0], HeadsOf(other) + HeadsOf(q),
                HeadsOf(other) + HeadsOf(q'));
    forall k | 0 <= k < |other.heads| ensures Follows(q.heads[0], other.heads[k]) {
      assert other.heads[k] in HeadsOf(other);
    }
    OtherInOrder(q, q', other, taken, taken');
  }

  /** The head chosen by tip, time and kind is the best of both queues. */
  lemma ChosenIsBest(q: Queue, other: Queue, blobs: bool)
    requires Valid(q, blobs) && Valid(other, !blobs) && q.heads != []
    requires forall h :: h in q.heads + other.heads ==> LessEq(q.heads[0], h)
    requires blobs ==> forall h :: h in other.heads ==> Less(q.heads[0], h)
    ensures Best(q, HeadsOf(other), q.heads[0])
  {
    assert HeadOk(q.heads[0], q, blobs);
    forall g | g in HeadsOf(q) + HeadsOf(other) ensures Follows(q.heads[0], g) {
      if g in HeadsOf(q) {
        var k :| 0 <= k < |q.heads| && q.heads[k] == g;
        assert g in q.heads && HeadOk(q.heads[k], q, blobs);
      } else {
        var k :| 0 <= k < |other.heads| && other.heads[k] == g;
        assert g in other.heads;
      }
    }
  }

  lemma FewerOthersOk(s: Setting, lists: TransactionLists, taken: seq<HeadTransaction>, blobs: bool, q: Queue,
                      others: set<HeadTransaction>, others': set<HeadTransaction>)
    requires QueueOk(s, lists, taken, blobs, q, others) && others' <= others
    ensures QueueOk(s, lists, taken, blobs, q, others')
  {
    FewerWaitingTracks(s, lists, taken, blobs, q, HeadsOf(q) + others, HeadsOf(q) + others');
  }

  /** One round of the loop; it ends the loop when nothing is queued any more. */
  method TakeRound(ctx: PayloadBuildContext, plainTxs: TransactionQueue, blobTxs: TransactionQueue,
                   ghost started: BlockHeader, ghost plain: TransactionLists, ghost blob: TransactionLists)
    returns (more: bool)
    requires ctx.Valid(started) && GasBounded(ctx.env) && plainTxs != blobTxs
    requires QueueOk(ctx.Judged(), plain, ctx.heads, false, plainTxs.View(), HeadsOf(blobTxs.View()))
    requires QueueOk(ctx.Judged(), blob, ctx.heads, true, blobTxs.View(), HeadsOf(plainTxs.View()))
    modifies ctx, plainTxs, blobTxs
    ensures ctx.Valid(started)
    ensures QueueOk(ctx.Judged(), plain, ctx.heads, false, plainTxs.View(), HeadsOf(blobTxs.View()))
    ensures QueueOk(ctx.Judged(), blob, ctx.heads, true, blobTxs.View(), HeadsOf(plainTxs.View()))
    ensures !more ==> plainTxs.heads == [] && blobTxs.heads == []
    ensures more ==> Progress(old(plainTxs.View()), old(blobTxs.View()), plainTxs.View(), blobTxs.View())
  {
    ghost var plainQueue, blobQueue := plainTxs.View(), blobTxs.View();
    DropBlobs(ctx, blobTxs, started, blob, HeadsOf(plainQueue));
    ghost var cleared := blobTxs.View();
    FewerOthersOk(ctx.Judged(), plain, ctx.heads, false, plainQueue, HeadsOf(blobQueue), HeadsOf(cleared));
    var next := NextTransaction(plainTxs, blobTxs);
    if next.None? {
      return false;
    }
    var (head, isBlob) := next.value;
    ghost var heads := ctx.heads;
    var error: Option<QueueError>;
    if isBlob {
      ChosenIsBest(cleared, plainQueue, true);
      error := TakeTurn(ctx, blobTxs, head, true, started, blob, HeadsOf(plainQueue));
      OtherOk(ctx.Judged(), plain, cleared, blobTxs.View(), plainQueue, true, heads, ctx.heads);
      TurnedShrinks(cleared, blobTxs.View(), heads, ctx.heads);
      ProgressInBlobs(plainQueue, blobQueue, cleared, blobTxs.View());
    } else {
      ChosenIsBest(plainQueue, cleared, false);
      error := TakeTurn(ctx, plainTxs, head, false, started, plain, HeadsOf(cleared));
      OtherOk(ctx.Judged(), blob, plainQueue, plainTxs.View(), cleared, false, heads, ctx.heads);
      TurnedShrinks(plainQueue, plainTxs.View(), heads, ctx.heads);
      ProgressInPlain(plainQueue, blobQueue, plainTxs.View(), cleared);
    }
    return true;
  }

  lemma NewIsOk(s: Setting, lists: TransactionLists, baseFee: Option<nat>, q: Queue, blobs: bool,
                others: set<HeadTransaction>)
    requires IsNew(lists, baseFee, q) && AllSuitable(lists, baseFee, blobs) && s.baseFee == baseFee
    requires forall a :: a in lists ==> lists[a] != []
    ensures QueueOk(s, lists, [], blobs, q, others)
  {
    NewIsValid(lists, baseFee, q, blobs);
    NewTracks(s, lists, baseFee, q, blobs, HeadsOf(q) + others);
  }

  /** The plain and the blob queue over the filtered mempool, both with the payload's base fee. */
  method FetchQueues(ctx: PayloadBuildContext, plain: TransactionLists, blob: TransactionLists)
    returns (r: Result<(TransactionQueue, TransactionQueue), QueueError>)
    requires AllSuitable(plain, ctx.header.baseFeePerGas, false) && AllSuitable(blob, ctx.header.baseFeePerGas, true)
    requires forall a :: a in plain ==> plain[a] != []
    requires forall a :: a in blob ==> blob[a] != []
    requires ctx.baseFee == ctx.header.baseFeePerGas
    ensures r.Ok? && r.value.0 != r.value.1 && fresh(r.value.0) && fresh(r.value.1)
    ensures QueueOk(ctx.Judged(), plain, [], false, r.value.0.View(), HeadsOf(r.value.1.View()))
    ensures QueueOk(ctx.Judged(), blob, [], true, r.value.1.View(), HeadsOf(r.value.0.View()))
  {
    var baseFee := ctx.header.baseFeePerGas;
    assert forall a :: a in plain ==> Suitable(plain[a][0], a, baseFee, false);
    assert forall a :: a in blob ==> Suitable(blob[a][0], a, baseFee, true);
    var plainTxs := TransactionQueue.New(plain, baseFee);
    if plainTxs.Err? {
      return Err(InvalidTransaction);
    }
    var blobTxs := TransactionQueue.New(blob, baseFee);
    if blobTxs.Err? {
      return Err(InvalidTransaction);
    }
    ghost var plainQueue, blobQueue := plainTxs.value.View(), blobTxs.value.View();
    NewIsOk(ctx.Judged(), plain, baseFee, plainQueue, false, HeadsOf(blobQueue));
    NewIsOk(ctx.Judged(), blob, baseFee, blobQueue, true, HeadsOf(plainQueue));
    return Ok((plainTxs.value, blobTxs.value));
  }

  /**
    Fills the payload. Whatever the execution answers, the gas, value and blob accounts stay
    right, the included heads are in order and none could have been refused, and every sender's
    included transactions are the start of its list, followed by one that was refused after them
    or by the end of the gas.
   */
  method FillTransactions(ctx: PayloadBuildContext, plain: TransactionLists, blob: TransactionLists,
                          ghost started: BlockHeader)
    returns (r: Result<(), QueueError>)
    requires ctx.Valid(started) && ctx.heads == [] && GasBounded(ctx.env)
    requires AllSuitable(plain, ctx.header.baseFeePerGas, false) && AllSuitable(blob, ctx.header.baseFeePerGas, true)
    requires forall a :: a in plain ==> plain[a] != []
    requires forall a :: a in blob ==> blob[a] != []
    modifies ctx
    ensures r.Ok? && ctx.Valid(started)
    ensures InOrder(ctx.heads) && AllAccepted(ctx.Judged(), ctx.heads)
    ensures Outcome(ctx.Judged(), plain, ctx.heads, false, ctx.remainingGas >= TX_GAS_COST)
    ensures Outcome(ctx.Judged(), blob, ctx.heads, true, ctx.remainingGas >= TX_GAS_COST)
  {
    var fetched := FetchQueues(ctx, plain, blob);
    if fetched.Err? {
      return Err(InvalidTransaction);
    }
    var (plainTxs, blobTxs) := fetched.value;
    while ctx.remainingGas >= TX_GAS_COST
      invariant plainTxs != blobTxs && fresh(plainTxs) && fresh(blobTxs)
      invariant ctx.Valid(started)
      invariant QueueOk(ctx.Judged(), plain, ctx.heads, false, plainTxs.View(), HeadsOf(blobTxs.View()))
      invariant QueueOk(ctx.Judged(), blob, ctx.heads, true, blobTxs.View(), HeadsOf(plainTxs.View()))
      decreases Waiting(plainTxs.View()), Waiting(blobTxs.View()), |plainTxs.heads| + |blobTxs.heads|
    {
      var more := TakeRound(ctx, plainTxs, blobTxs, started, plain, blob);
      if !more { break; }
    }
    ghost var waiting := HeadsOf(plainTxs.View()) + HeadsOf(blobTxs.View());
    TracksOutcome(ctx.Judged(), plain, ctx.heads, false, plainTxs.View(), waiting);
    assert HeadsOf(blobTxs.View()) + HeadsOf(plainTxs.View()) == waiting;
    TracksOutcome(ctx.Judged(), blob, ctx.heads, true, blobTxs.View(), waiting);
    return Ok(());
  }

  // ---------------------------------------------------------------- the built block

  /** What is checked of a block once its header is fine: blobs, execution, gas, state and receipts. */
  ghost predicate BodyPasses(env: Env, header: BlockHeader, txs: seq<Transaction>, cancun: bool) {
    && Results(env, txs).Some?
    && ValidateGasUsed(ReceiptsOf(env.bloomOf, txs, Results(env, txs).value), header)
    && header.stateRoot == env.stateRootOf(txs)
    && header.receiptsRoot == env.receiptsRootOf(ReceiptsOf(env.bloomOf, txs, Results(env, txs).value))
    && (cancun ==>
          && BlobCount(txs) <= MAX_BLOB_NUMBER_PER_BLOCK
          && (header.blobGasUsed.Some? ==> header.blobGasUsed.value == GAS_PER_BLOB * BlobCount(txs)))
  }

  method ValidateBody(env: Env, header: BlockHeader, txs: seq<Transaction>, cancun: bool) returns (ok: bool)
    ensures ok <==> BodyPasses(env, header, txs, cancun)
  {
    if cancun {
      var e := VerifyBlobGasUsage(header, txs);
      if e.Some? {
        return false;
      }
    }
    var receipts := ExecuteBlock(env, txs);
    if receipts.None? || !ValidateGasUsed(receipts.value, header) {
      return false;
    }
    return header.stateRoot == env.stateRootOf(txs) && header.receiptsRoot == env.receiptsRootOf(receipts.value);
  }

  /** The validator runs the same functions and comes, on this block, to the builder's results and state. */
  ghost predicate Agrees(env: Env, validator: Env, txs: seq<Transaction>) {
    && validator == env.(execute := validator.execute, stateRootOf := validator.stateRootOf)
    && Results(validator, txs) == Results(env, txs)
    && validator.stateRootOf(txs) == env.stateRootOf(txs)
  }

  /**
    When validation executes the block's transactions with the results and the state the builder
    got, it computes the builder's receipts and every check of the body passes. That condition is
    left to the caller: the builder applies withdrawals before the transactions, validation after.
   */
  lemma BuiltBodyPasses(env: Env, validator: Env, bundles: map<Hash, BlobsBundle>, started: BlockHeader, p: Payload,
                        heads: seq<HeadTransaction>, cancun: bool)
    requires Consistent(env, bundles, started, p, heads) && Agrees(env, validator, p.transactions)
    ensures BodyPasses(validator, Completed(env, p), p.transactions, cancun)
  {
  }
}
