/** Building a block from the mempool and validating it, end to end. */
module BuiltBlock {
  import opened Prelude
  import opened Types
  import opened FeeMarket
  import opened HeaderRules
  import opened PayloadBuilder
  import opened PayloadQueue

  // ---------------------------------------------------------------- the header, from start to completion

  /** What parent and arguments have to satisfy for a header built on them to validate. */
  predicate HeaderPasses(config: ChainConfig, args: BuildPayloadArgs, parent: BlockHeader) {
    && parent.gasLimit >= 4997 && parent.baseFeePerGas.Some? && args.timestamp > parent.timestamp
    && (Activated(config.cancunTime, args.timestamp) ==> args.beaconRoot.Some?)
  }

  /** The completed header validates exactly when the started one does and no blob is in a block before Cancun. */
  lemma CompletedHeaderIsValid(env: Env, hashOf: HeaderHash, config: ChainConfig, args: BuildPayloadArgs,
                               roots: Roots, parent: BlockHeader, bundles: map<Hash, BlobsBundle>, p: Payload,
                               heads: seq<HeadTransaction>)
    requires CanStart(parent) && args.parent == hashOf(parent)
    requires Consistent(env, bundles, StartedHeader(config, args, roots, parent), p, heads)
    ensures ValidateHeader(hashOf, config, Completed(env, p), parent).None? <==>
            && HeaderPasses(config, args, parent)
            && (Activated(config.cancunTime, args.timestamp) || !HasBlob(p.transactions))
  {
    var started := StartedHeader(config, args, roots, parent);
    PayloadHeaderIsValid(hashOf, config, args, roots, parent);
    SameGeneralRules(hashOf, started, Completed(env, p), parent);
  }

  /** The general header rules look at none of the fields a build fills in, except the gas used. */
  lemma SameGeneralRules(hashOf: HeaderHash, started: BlockHeader, header: BlockHeader, parent: BlockHeader)
    requires header == started.(stateRoot := header.stateRoot, transactionsRoot := header.transactionsRoot,
                                receiptsRoot := header.receiptsRoot, gasUsed := header.gasUsed,
                                blobGasUsed := header.blobGasUsed)
    requires started.gasUsed <= started.gasLimit && header.gasUsed <= header.gasLimit
    ensures ValidateBlockHeader(hashOf, header, parent) == ValidateBlockHeader(hashOf, started, parent)
  {
  }

  // ---------------------------------------------------------------- from the mempool to the block

  /** The plain or the blob part of the pool, as a payload with these fees asks for it. */
  function FilterOf(baseFee: Option<nat>, blobFee: nat, blobs: bool): PendingTxFilter {
    PendingTxFilter(None, baseFee, Some(blobFee), !blobs, blobs)
  }

  /** The mempool's lists for one kind of transaction, suitable for a queue. */
  method FetchMempool(pool: map<Hash, MempoolTransaction>, baseFee: Option<nat>, blobFee: nat,
                      blobs: bool) returns (lists: TransactionLists)
    ensures IsFiltered(pool, FilterOf(baseFee, blobFee, blobs), lists) && AllSuitable(lists, baseFee, blobs)
    ensures forall a :: a in lists ==> lists[a] != []
    ensures PooledOnce(pool) ==> ListedOnce(lists)
  {
    lists := FilterTransactions(pool, FilterOf(baseFee, blobFee, blobs));
    FilteredIsSuitable(pool, FilterOf(baseFee, blobFee, blobs), lists, blobs);
  }

  datatype Built = Built(header: BlockHeader, transactions: seq<Transaction>, bundle: BlobsBundle, blockValue: nat)

  ghost function SettingOf(env: Env, config: ChainConfig, started: BlockHeader, start: Mempool): Setting {
    Setting(env, started.gasLimit, Activated(config.eip155Block, started.number), started.baseFeePerGas, start)
  }

  /** The blob fee a payload is filtered by. */
  ghost function BlobFee(started: BlockHeader): nat {
    FakeExponentialValue(MIN_BASE_FEE_PER_BLOB_GAS, UnwrapOr(started.excessBlobGas, 0), BLOB_BASE_FEE_UPDATE_FRACTION)
  }

  ghost predicate BlobFeeFits(started: BlockHeader) {
    ExponentialFits(MIN_BASE_FEE_PER_BLOB_GAS, UnwrapOr(started.excessBlobGas, 0), BLOB_BASE_FEE_UPDATE_FRACTION)
  }

  /** The lists one queue was filled from, and what became of them. */
  ghost predicate Share(s: Setting, blobFee: nat, blobs: bool, lists: TransactionLists, heads: seq<HeadTransaction>,
                        gasLeft: bool) {
    && IsFiltered(s.start.txs, FilterOf(s.baseFee, blobFee, blobs), lists)
    && (PooledOnce(s.start.txs) ==> ListedOnce(lists))
    && Outcome(s, lists, heads, blobs, gasLeft)
  }

  ghost predicate Shared(s: Setting, blobFee: nat, blobs: bool, heads: seq<HeadTransaction>, gasLeft: bool) {
    exists lists :: Share(s, blobFee, blobs, lists, heads, gasLeft)
  }

  // ---------------------------------------------------------------- no transaction twice

  /** An included head is pooled, and has its place in its sender's list. */
  lemma IncludedIsPooled(s: Setting, blobFee: nat, lists: TransactionLists, heads: seq<HeadTransaction>, gasLeft: bool,
                         i: nat)
    requires i < |heads| && Share(s, blobFee, IsBlob(heads[i].tx.tx), lists, heads, gasLeft)
    ensures heads[i].tx in s.start.txs.Values && heads[i].tx.sender == heads[i].sender
    ensures Passes(FilterOf(s.baseFee, blobFee, IsBlob(heads[i].tx.tx)), heads[i].tx.tx)
    ensures var k := |Taken(heads[..i], IsBlob(heads[i].tx.tx), heads[i].sender)|;
            heads[i].sender in lists && k < |lists[heads[i].sender]| && lists[heads[i].sender][k] == heads[i].tx
  {
    TakenAt(heads, i);
  }

  lemma IncludedOnce(s: Setting, blobFee: nat, heads: seq<HeadTransaction>, gasLeft: bool)
    requires Shared(s, blobFee, false, heads, gasLeft) && Shared(s, blobFee, true, heads, gasLeft)
    requires Keyed(s.env.hashOf, s.start.txs)
    ensures Distinct(TxsOf(heads))
  {
    forall i, j | 0 <= i < j < |heads| ensures TxsOf(heads)[i] != TxsOf(heads)[j] {
      TxsOfAt(heads, i);
      TxsOfAt(heads, j);
      if heads[i].tx.tx == heads[j].tx.tx {
        TwiceIsImpossible(s, blobFee, heads, gasLeft, i, j);
      }
    }
  }

  lemma TwiceIsImpossible(s: Setting, blobFee: nat, heads: seq<HeadTransaction>, gasLeft: bool, i: nat, j: nat)
    requires Shared(s, blobFee, false, heads, gasLeft) && Shared(s, blobFee, true, heads, gasLeft)
    requires Keyed(s.env.hashOf, s.start.txs) && i < j < |heads|
    ensures heads[i].tx.tx != heads[j].tx.tx
  {
    if heads[i].tx.tx == heads[j].tx.tx {
      var lists :| Share(s, blobFee, IsBlob(heads[i].tx.tx), lists, heads, gasLeft);
      IncludedIsPooled(s, blobFee, lists, heads, gasLeft, i);
      IncludedIsPooled(s, blobFee, lists, heads, gasLeft, j);
      assert heads[i].tx == heads[j].tx;
      TakenApart(heads, i, j);
    }
  }

  // ---------------------------------------------------------------- blobs before Cancun

  /** Execution accepts no blob transaction. */
  ghost predicate RejectsBlobs(env: Env) {
    forall done: seq<Transaction>, tx: Transaction :: IsBlob(tx) ==> env.execute(done, tx).None?
  }

  /** No pooled blob transaction pays the payload's fees. */
  predicate NoBlobPasses(pool: map<Hash, MempoolTransaction>, baseFee: Option<nat>, blobFee: nat) {
    forall h :: h in pool ==> !Passes(FilterOf(baseFee, blobFee, true), pool[h].tx)
  }

  lemma RejectedBlobsStayOut(env: Env, txs: seq<Transaction>)
    requires RejectsBlobs(env) && Results(env, txs).Some?
    ensures !HasBlob(txs)
  {
    forall i | 0 <= i < |txs| ensures !IsBlob(txs[i]) {
      ExecutedAt(env, txs, i);
    }
  }

  lemma FilteredBlobsStayOut(s: Setting, blobFee: nat, heads: seq<HeadTransaction>, gasLeft: bool)
    requires Shared(s, blobFee, true, heads, gasLeft) && NoBlobPasses(s.start.txs, s.baseFee, blobFee)
    ensures !HasBlob(TxsOf(heads))
  {
    var lists :| Share(s, blobFee, true, lists, heads, gasLeft);
    forall i | 0 <= i < |heads| ensures !IsBlob(TxsOf(heads)[i]) {
      TxsOfAt(heads, i);
      if IsBlob(heads[i].tx.tx) {
        IncludedIsPooled(s, blobFee, lists, heads, gasLeft, i);
      }
    }
  }

  // ---------------------------------------------------------------- the build

  /**
    Completes a started payload from the mempool: the accounts are consistent, the heads in order
    and acceptable, and of every sender's filtered list the start is in the block. It fails only
    when the blob fee leaves 64 bits. No transaction of a pool keyed by hash is in the block twice.
   */
  method BuildPayload(env: Env, config: ChainConfig, started: BlockHeader, pool: map<Hash, MempoolTransaction>,
                      bundles: map<Hash, BlobsBundle>)
    returns (r: Result<Built, BuildError>, ghost p: Payload, ghost heads: seq<HeadTransaction>)
    requires UnwrapOr(started.blobGasUsed, 0) == 0 && GasBounded(env) && BundlesMatch(env.hashOf, bundles)
    ensures r.Ok? <==> BlobFeeFits(started)
    ensures r.Ok? ==>
              && Consistent(env, bundles, started, p, heads)
              && r.value == Built(Completed(env, p), p.transactions, p.bundle, p.blockValue)
              && InOrder(heads) && AllAccepted(SettingOf(env, config, started, Mempool(pool, bundles)), heads)
    ensures r.Ok? ==>
              var s := SettingOf(env, config, started, Mempool(pool, bundles));
              && Shared(s, BlobFee(started), false, heads, p.remainingGas >= TX_GAS_COST)
              && Shared(s, BlobFee(started), true, heads, p.remainingGas >= TX_GAS_COST)
    ensures r.Ok? && Keyed(env.hashOf, pool) ==> Distinct(r.value.transactions)
    ensures r.Ok? && (RejectsBlobs(env) || NoBlobPasses(pool, started.baseFeePerGas, BlobFee(started))) ==>
              !HasBlob(r.value.transactions)
  {
    p, heads := Payload(started, [], started.gasLimit, [], 0, BlobsBundle([], [], [])), [];
    var blobFee := FakeExponential(MIN_BASE_FEE_PER_BLOB_GAS, UnwrapOr(started.excessBlobGas, 0),
                                   BLOB_BASE_FEE_UPDATE_FRACTION);
    if blobFee.Err? {
      return Err(BadBlobFee(blobFee.error)), p, heads;
    }
    var ctx := new PayloadBuildContext(env, Activated(config.eip155Block, started.number), started, pool, bundles);
    var plain := FetchMempool(pool, started.baseFeePerGas, blobFee.value, false);
    var blob := FetchMempool(pool, started.baseFeePerGas, blobFee.value, true);
    var filled := FillTransactions(ctx, plain, blob, started);
    p, heads := ctx.View(), ctx.heads;
    ghost var s, gasLeft := ctx.Judged(), p.remainingGas >= TX_GAS_COST;
    assert Share(s, BlobFee(started), false, plain, heads, gasLeft);
    assert Share(s, BlobFee(started), true, blob, heads, gasLeft);
    ContentsOfBuild(s, started, p, heads, gasLeft);
    ctx.FinalizePayload(started);
    r := Ok(Built(ctx.header, ctx.transactions, ctx.bundle, ctx.blockValue));
  }

  lemma ContentsOfBuild(s: Setting, started: BlockHeader, p: Payload, heads: seq<HeadTransaction>, gasLeft: bool)
    requires Consistent(s.env, s.start.bundles, started, p, heads)
    requires Shared(s, BlobFee(started), false, heads, gasLeft) && Shared(s, BlobFee(started), true, heads, gasLeft)
    ensures Keyed(s.env.hashOf, s.start.txs) ==> Distinct(p.transactions)
    ensures RejectsBlobs(s.env) || NoBlobPasses(s.start.txs, s.baseFee, BlobFee(started)) ==> !HasBlob(p.transactions)
  {
    if Keyed(s.env.hashOf, s.start.txs) {
      IncludedOnce(s, BlobFee(started), heads, gasLeft);
    }
    if RejectsBlobs(s.env) {
      RejectedBlobsStayOut(s.env, p.transactions);
    } else if NoBlobPasses(s.start.txs, s.baseFee, BlobFee(started)) {
      FilteredBlobsStayOut(s, BlobFee(started), heads, gasLeft);
    }
  }

  datatype BuildError = BadBaseFee(baseFee: BaseFeeError) | BadBlobFee(blobFee: FakeExponentialError)

  /** Before Cancun nothing lets a blob into a block on this parent. */
  ghost predicate KeepsBlobsOut(env: Env, config: ChainConfig, args: BuildPayloadArgs, roots: Roots,
                                parent: BlockHeader, pool: map<Hash, MempoolTransaction>)
    requires CanStart(parent)
  {
    var started := StartedHeader(config, args, roots, parent);
    || Activated(config.cancunTime, args.timestamp) || RejectsBlobs(env)
    || NoBlobPasses(pool, started.baseFeePerGas, BlobFee(started))
  }

  /**
    A block built on a parent and validated against it: when validation comes to the builder's
    results and state, it accepts the block exactly when the conditions on parent and arguments
    hold and no blob got into a block before Cancun. With blobs kept out that is a condition on
    parent and arguments alone.
   */
  method BuildAndValidate(env: Env, validator: Env, hashOf: HeaderHash, config: ChainConfig, args: BuildPayloadArgs,
                          roots: Roots, parent: BlockHeader, pool: map<Hash, MempoolTransaction>,
                          bundles: map<Hash, BlobsBundle>)
    returns (r: Result<Built, BuildError>, ok: bool)
    requires parent.gasLimit >= GAS_LIMIT_BOUND_DIVISOR && args.parent == hashOf(parent)
    requires GasBounded(env) && BundlesMatch(env.hashOf, bundles)
    ensures r.Ok? <==> CanStart(parent) && BlobFeeFits(StartedHeader(config, args, roots, parent))
    ensures r.Ok? && Agrees(env, validator, r.value.transactions) ==>
              (ok <==> && HeaderPasses(config, args, parent)
                       && (Activated(config.cancunTime, args.timestamp) || !HasBlob(r.value.transactions)))
    ensures r.Ok? && Agrees(env, validator, r.value.transactions)
            && KeepsBlobsOut(env, config, args, roots, parent, pool) ==>
              (ok <==> HeaderPasses(config, args, parent))
  {
    var created := CreatePayload(config, args, roots, parent);
    if created.Err? {
      return Err(BadBaseFee(created.error)), false;
    }
    var started := created.value;
    ghost var p: Payload, heads: seq<HeadTransaction>;
    r, p, heads := BuildPayload(env, config, started, pool, bundles);
    if r.Err? {
      return r, false;
    }
    var header := r.value.header;
    CompletedHeaderIsValid(env, hashOf, config, args, roots, parent, bundles, p, heads);
    var cancun := Activated(config.cancunTime, header.timestamp);
    ok := ValidateBody(validator, header, r.value.transactions, cancun);
    if Agrees(env, validator, p.transactions) {
      BuiltBodyPasses(env, validator, bundles, started, p, heads, cancun);
    }
    ok := ok && ValidateHeader(hashOf, config, header, parent).None?;
  }
}
