/**
  The queue a payload is filled from: the next transaction of every sender, kept sorted by tip
  and arrival, and behind each of them the rest of that sender's transactions by nonce.
 */
module PayloadQueue {
  import opened Prelude
  import opened Types

  datatype MempoolTransaction = MempoolTransaction(tx: Transaction, sender: Address, time: nat)

  datatype HeadTransaction = HeadTransaction(tx: MempoolTransaction, sender: Address, tip: nat)

  type TransactionLists = map<Address, seq<MempoolTransaction>>

  datatype QueueError = InvalidTransaction

  predicate IsBlob(tx: Transaction) {
    tx.EIP4844Transaction?
  }

  // ---------------------------------------------------------------- tips and the mempool filter

  function GasTipCap(tx: Transaction): nat {
    if tx.LegacyTransaction? || tx.EIP2930Transaction? then tx.gasPrice else tx.maxPriorityFeePerGas
  }

  function GasFeeCap(tx: Transaction): nat {
    if tx.LegacyTransaction? || tx.EIP2930Transaction? then tx.gasPrice else tx.maxFeePerGas
  }

  /** What the fee recipient earns per gas; none when the fee cap is below the base fee. */
  function EffectiveGasTip(tx: Transaction, baseFee: Option<nat>): Option<nat> {
    match baseFee
    case None => Some(GasTipCap(tx))
    case Some(fee) => if GasFeeCap(tx) < fee then None else Some(Min(GasFeeCap(tx) - fee, GasTipCap(tx)))
  }

  datatype PendingTxFilter = PendingTxFilter(
    minTip: Option<nat>, baseFee: Option<nat>, blobFee: Option<nat>, onlyPlainTxs: bool, onlyBlobTxs: bool)

  predicate Passes(filter: PendingTxFilter, tx: Transaction) {
    var tip := EffectiveGasTip(tx, filter.baseFee);
    && !((filter.onlyPlainTxs && IsBlob(tx)) || (filter.onlyBlobTxs && !IsBlob(tx)))
    && (if filter.minTip.Some? then tip.Some? && tip.value >= filter.minTip.value else tip.Some?)
    && (IsBlob(tx) && filter.blobFee.Some? ==> tx.maxFeePerBlobGas >= filter.blobFee.value)
  }

  /** By nonce; of two with the same nonce the later arrival comes first. */
  predicate NonceOrdered(a: MempoolTransaction, b: MempoolTransaction) {
    a.tx.nonce < b.tx.nonce || (a.tx.nonce == b.tx.nonce && a.time >= b.time)
  }

  /** The mempool's answer: the passing transactions, grouped by sender and sorted by nonce. */
  ghost predicate IsFiltered(pool: map<Hash, MempoolTransaction>, filter: PendingTxFilter, lists: TransactionLists) {
    && (forall a :: a in lists ==>
          && lists[a] != []
          && (forall k :: 0 <= k < |lists[a]| ==>
                lists[a][k] in pool.Values && lists[a][k].sender == a && Passes(filter, lists[a][k].tx))
          && (forall i, j :: 0 <= i < j < |lists[a]| ==> NonceOrdered(lists[a][i], lists[a][j])))
    && (forall h :: h in pool && Passes(filter, pool[h].tx) ==>
        pool[h].sender in lists && pool[h] in lists[pool[h].sender])
  }

  /** Every pooled transaction is stored under its own hash. */
  predicate Keyed(hashOf: Transaction -> Hash, pool: map<Hash, MempoolTransaction>) {
    forall h :: h in pool ==> hashOf(pool[h].tx) == h
  }

  ghost predicate ListedOnce(lists: TransactionLists) {
    forall a :: a in lists ==> Distinct(lists[a])
  }

  /** No transaction is pooled under two hashes. */
  predicate PooledOnce(pool: map<Hash, MempoolTransaction>) {
    forall g, h :: g in pool && h in pool && pool[g] == pool[h] ==> g == h
  }

  predicate NonceSorted(txs: seq<MempoolTransaction>) {
    forall i, j :: 0 <= i < j < |txs| ==> NonceOrdered(txs[i], txs[j])
  }

  /** A sender's pooled transactions in the order they are tried, by insertion. */
  method SortByNonce(txs: seq<MempoolTransaction>) returns (r: seq<MempoolTransaction>)
    ensures NonceSorted(r) && multiset(r) == multiset(txs)
  {
    r := [];
    for i := 0 to |txs|
      invariant NonceSorted(r) && multiset(r) == multiset(txs[..i])
    {
      var at := |r|;
      while at > 0 && !NonceOrdered(r[at - 1], txs[i])
        invariant 0 <= at <= |r|
        invariant forall k :: at <= k < |r| ==> NonceOrdered(txs[i], r[k])
      {
        at := at - 1;
      }
      InsertedByNonce(r, txs[i], at);
      InsertionCounts(r, txs[i], at);
      assert txs[..i + 1] == txs[..i] + [txs[i]];
      r := r[..at] + [txs[i]] + r[at..];
    }
    assert txs[..|txs|] == txs;
  }

  lemma InsertionCounts<T>(r: seq<T>, x: T, at: nat)
    requires at <= |r|
    ensures multiset(r[..at] + [x] + r[at..]) == multiset(r + [x])
  {
    assert r == r[..at] + r[at..];
  }

  lemma InsertedByNonce(r: seq<MempoolTransaction>, t: MempoolTransaction, at: nat)
    requires NonceSorted(r) && at <= |r|
    requires at > 0 ==> NonceOrdered(r[at - 1], t)
    requires forall k :: at <= k < |r| ==> NonceOrdered(t, r[k])
    ensures NonceSorted(r[..at] + [t] + r[at..])
  {
  }

  /** The passing transactions among `done`, each with its sender's. */
  ghost predicate Grouped(pool: map<Hash, MempoolTransaction>, filter: PendingTxFilter, done: set<Hash>,
                          groups: TransactionLists)
    requires done <= pool.Keys
  {
    && (forall a :: a in groups ==> groups[a] != [])
    && (forall a, k :: a in groups && 0 <= k < |groups[a]| ==>
          && groups[a][k].sender == a && Passes(filter, groups[a][k].tx)
          && exists h :: h in done && pool[h] == groups[a][k])
    && (forall h :: h in done && Passes(filter, pool[h].tx) ==>
          pool[h].sender in groups && pool[h] in groups[pool[h].sender])
  }

  /** A passing transaction joins its sender's. */
  function AddedTo(groups: TransactionLists, filter: PendingTxFilter, t: MempoolTransaction): TransactionLists {
    if !Passes(filter, t.tx) then groups
    else groups[t.sender := (if t.sender in groups then groups[t.sender] else []) + [t]]
  }

  lemma AddedIsGrouped(pool: map<Hash, MempoolTransaction>, filter: PendingTxFilter, done: set<Hash>,
                       groups: TransactionLists, h: Hash)
    requires done <= pool.Keys && Grouped(pool, filter, done, groups) && h in pool && h !in done
    ensures Grouped(pool, filter, done + {h}, AddedTo(groups, filter, pool[h]))
    ensures PooledOnce(pool) && ListedOnce(groups) ==> ListedOnce(AddedTo(groups, filter, pool[h]))
  {
  }

  /** The pool filtered, grouped by sender and sorted by nonce; nothing comes twice. */
  method FilterTransactions(pool: map<Hash, MempoolTransaction>,
                            filter: PendingTxFilter) returns (lists: TransactionLists)
    ensures IsFiltered(pool, filter, lists)
    ensures PooledOnce(pool) ==> ListedOnce(lists)
  {
    var groups: TransactionLists, todo := map[], pool.Keys;
    while todo != {}
      invariant todo <= pool.Keys && Grouped(pool, filter, pool.Keys - todo, groups)
      invariant PooledOnce(pool) ==> ListedOnce(groups)
      decreases todo
    {
      var h :| h in todo;
      AddedIsGrouped(pool, filter, pool.Keys - todo, groups, h);
      groups := AddedTo(groups, filter, pool[h]);
      assert pool.Keys - todo + {h} == pool.Keys - (todo - {h});
      todo := todo - {h};
    }
    lists := SortGroups(groups);
    assert pool.Keys - todo == pool.Keys;
    GroupedIsFiltered(pool, filter, groups, lists);
  }

  /** Every group sorted. */
  method SortGroups(groups: TransactionLists) returns (lists: TransactionLists)
    ensures lists.Keys == groups.Keys
    ensures forall a :: a in groups ==> NonceSorted(lists[a]) && multiset(lists[a]) == multiset(groups[a])
  {
    lists := map[];
    var todo := groups.Keys;
    while todo != {}
      invariant todo <= groups.Keys && lists.Keys == groups.Keys - todo
      invariant forall a :: a in lists ==> NonceSorted(lists[a]) && multiset(lists[a]) == multiset(groups[a])
      decreases todo
    {
      var a :| a in todo;
      var sorted := SortByNonce(groups[a]);
      lists := lists[a := sorted];
      todo := todo - {a};
    }
  }

  lemma GroupedIsFiltered(pool: map<Hash, MempoolTransaction>, filter: PendingTxFilter,
                          groups: TransactionLists, lists: TransactionLists)
    requires Grouped(pool, filter, pool.Keys, groups) && lists.Keys == groups.Keys
    requires forall a :: a in groups ==> NonceSorted(lists[a]) && multiset(lists[a]) == multiset(groups[a])
    ensures IsFiltered(pool, filter, lists)
    ensures ListedOnce(groups) ==> ListedOnce(lists)
  {
    forall a | a in lists
      ensures lists[a] != []
      ensures Distinct(groups[a]) ==> Distinct(lists[a])
      ensures forall k :: 0 <= k < |lists[a]| ==> lists[a][k] in groups[a]
      ensures forall k :: 0 <= k < |groups[a]| ==> groups[a][k] in lists[a]
    {
      PermutedElements(groups[a], lists[a]);
    }
  }

  /** A permutation has the same elements, and repeats none if the other repeats none. */
  lemma PermutedElements<T>(a: seq<T>, b: seq<T>)
    requires multiset(a) == multiset(b)
    ensures |a| == |b|
    ensures forall k :: 0 <= k < |b| ==> b[k] in a
    ensures forall k :: 0 <= k < |a| ==> a[k] in b
    ensures Distinct(a) ==> Distinct(b)
  {
    assert |multiset(a)| == |a| && |multiset(b)| == |b|;
    forall k | 0 <= k < |b| ensures b[k] in a { assert b[k] in multiset(b); }
    forall k | 0 <= k < |a| ensures a[k] in b { assert a[k] in multiset(a); }
    if Distinct(a) {
      forall i, j | 0 <= i < j < |b| ensures b[i] != b[j] {
        if b[i] == b[j] {
          assert b == b[..i] + [b[i]] + b[i + 1..j] + [b[j]] + b[j + 1..];
          assert multiset(b)[b[i]] >= 2;
          CountOnce(a, b[i]);
        }
      }
    }
  }

  lemma {:induction false} CountOnce<T>(a: seq<T>, x: T)
    requires Distinct(a)
    ensures multiset(a)[x] <= 1
    decreases |a|
  {
    if a != [] {
      CountOnce(a[1..], x);
      assert a == [a[0]] + a[1..];
      assert a[0] !in a[1..];
    }
  }

  // ---------------------------------------------------------------- order

  /** Highest tip first, earliest arrival among equal tips. */
  predicate LessEq(a: HeadTransaction, b: HeadTransaction) {
    a.tip > b.tip || (a.tip == b.tip && a.tx.time <= b.tx.time)
  }

  predicate Less(a: HeadTransaction, b: HeadTransaction) {
    a.tip > b.tip || (a.tip == b.tip && a.tx.time < b.tx.time)
  }

  predicate Sorted(heads: seq<HeadTransaction>) {
    forall i, j :: 0 <= i < j < |heads| ==> LessEq(heads[i], heads[j])
  }

  predicate DistinctSenders(heads: seq<HeadTransaction>) {
    forall i, j :: 0 <= i < j < |heads| ==> heads[i].sender != heads[j].sender
  }

  predicate HasSender(heads: seq<HeadTransaction>, sender: Address) {
    exists i :: 0 <= i < |heads| && heads[i].sender == sender
  }

  // ---------------------------------------------------------------- queue states

  datatype Queue = Queue(heads: seq<HeadTransaction>, txs: TransactionLists, baseFee: Option<nat>)

  predicate Suitable(t: MempoolTransaction, sender: Address, baseFee: Option<nat>, blobs: bool) {
    t.sender == sender && EffectiveGasTip(t.tx, baseFee).Some? && IsBlob(t.tx) == blobs
  }

  predicate AllSuitable(lists: TransactionLists, baseFee: Option<nat>, blobs: bool) {
    forall a :: a in lists ==> forall k :: 0 <= k < |lists[a]| ==> Suitable(lists[a][k], a, baseFee, blobs)
  }

  predicate HeadOk(h: HeadTransaction, q: Queue, blobs: bool) {
    && h.sender in q.txs
    && Suitable(h.tx, h.sender, q.baseFee, blobs)
    && EffectiveGasTip(h.tx.tx, q.baseFee) == Some(h.tip)
  }

  /** One head per sender, in order, with its effective tip; only suitable transactions behind. */
  ghost predicate Valid(q: Queue, blobs: bool) {
    && Sorted(q.heads)
    && DistinctSenders(q.heads)
    && (forall i :: 0 <= i < |q.heads| ==> HeadOk(q.heads[i], q, blobs))
    && AllSuitable(q.txs, q.baseFee, blobs)
  }

  /** The filter's output for one kind of transaction is suitable for a queue with the same base fee. */
  lemma FilteredIsSuitable(pool: map<Hash, MempoolTransaction>, filter: PendingTxFilter, lists: TransactionLists,
                           blobs: bool)
    requires IsFiltered(pool, filter, lists)
    requires if blobs then filter.onlyBlobTxs else filter.onlyPlainTxs
    ensures AllSuitable(lists, filter.baseFee, blobs)
  {
  }

  /** The position of one sender's next transaction, its tip and what stays behind it. */
  ghost predicate IsFirstOf(h: HeadTransaction, lists: TransactionLists, baseFee: Option<nat>) {
    && h.sender in lists && lists[h.sender] != []
    && h.tx == lists[h.sender][0]
    && EffectiveGasTip(h.tx.tx, baseFee) == Some(h.tip)
  }

  /** The queue built from the mempool's lists: everybody's first transaction, sorted. */
  ghost predicate IsNew(lists: TransactionLists, baseFee: Option<nat>, q: Queue) {
    && q.baseFee == baseFee
    && Sorted(q.heads)
    && DistinctSenders(q.heads)
    && (forall i :: 0 <= i < |q.heads| ==> IsFirstOf(q.heads[i], lists, baseFee))
    && (forall a :: a in lists ==> HasSender(q.heads, a))
    && q.txs.Keys == lists.Keys
    && (forall a :: a in lists && lists[a] != [] ==> q.txs[a] == lists[a][1..])
  }

  function Popped(q: Queue): Queue {
    if q.heads == [] then q else q.(heads := q.heads[1..], txs := q.txs - {q.heads[0].sender})
  }

  function Cleared(q: Queue): Queue {
    q.(heads := [], txs := map[])
  }

  ghost predicate IsInsertion(rest: seq<HeadTransaction>, h: HeadTransaction, r: seq<HeadTransaction>) {
    exists i :: 0 <= i <= |rest| && r == rest[..i] + [h] + rest[i..]
  }

  /** The head leaves; if its sender has more, the next one takes its place in the order. */
  ghost predicate IsShifted(q: Queue, q': Queue)
    requires q.heads != []
  {
    var sender := q.heads[0].sender;
    && q'.baseFee == q.baseFee
    && Sorted(q'.heads)
    && if sender in q.txs && q.txs[sender] != [] then
         var next := q.txs[sender][0];
         && q'.txs == q.txs[sender := q.txs[sender][1..]]
         && EffectiveGasTip(next.tx, q.baseFee).Some?
         && IsInsertion(q.heads[1..], HeadTransaction(next, sender, EffectiveGasTip(next.tx, q.baseFee).value),
                        q'.heads)
       else q'.heads == q.heads[1..] && q'.txs == q.txs
  }

  lemma NewIsValid(lists: TransactionLists, baseFee: Option<nat>, q: Queue, blobs: bool)
    requires IsNew(lists, baseFee, q) && AllSuitable(lists, baseFee, blobs)
    requires forall a :: a in lists ==> lists[a] != []
    ensures Valid(q, blobs)
  {
  }

  lemma PoppedIsValid(q: Queue, blobs: bool)
    requires Valid(q, blobs)
    ensures Valid(Popped(q), blobs)
  {
  }

  lemma ShiftedIsValid(q: Queue, q': Queue, blobs: bool)
    requires Valid(q, blobs) && q.heads != [] && IsShifted(q, q')
    ensures Valid(q', blobs)
  {
    var sender := q.heads[0].sender;
    assert HeadOk(q.heads[0], q, blobs);
    forall i | 0 <= i < |q'.heads|
      ensures HeadOk(q'.heads[i], q', blobs)
    {
      if q'.heads[i] in q.heads[1..] {
        var k :| 0 <= k < |q.heads[1..]| && q.heads[1..][k] == q'.heads[i];
        assert HeadOk(q.heads[k + 1], q, blobs);
      } else {
        assert Suitable(q.txs[sender][0], sender, q.baseFee, blobs);
      }
    }
    ShiftedSendersDistinct(q, q');
    forall a, k | a in q'.txs && 0 <= k < |q'.txs[a]| ensures Suitable(q'.txs[a][k], a, q'.baseFee, blobs) {
      if q'.txs != q.txs && a == sender {
        assert q'.txs[a][k] == q.txs[a][k + 1];
      }
    }
  }

  lemma ShiftedSendersDistinct(q: Queue, q': Queue)
    requires q.heads != [] && DistinctSenders(q.heads) && IsShifted(q, q')
    ensures DistinctSenders(q'.heads)
  {
  }

  lemma InsertionIsSorted(rest: seq<HeadTransaction>, h: HeadTransaction, at: nat)
    requires at <= |rest| && Sorted(rest)
    requires forall i :: 0 <= i < at ==> LessEq(rest[i], h)
    requires forall i :: at <= i < |rest| ==> LessEq(h, rest[i])
    ensures Sorted(rest[..at] + [h] + rest[at..]) && IsInsertion(rest, h, rest[..at] + [h] + rest[at..])
  {
  }

  // ---------------------------------------------------------------- the queue

  /** Sorting by insertion; only the order of equal heads could tell it from another sort. */
  method SortHeads(heads: seq<HeadTransaction>) returns (r: seq<HeadTransaction>)
    ensures Sorted(r) && multiset(r) == multiset(heads)
  {
    r := [];
    for i := 0 to |heads|
      invariant Sorted(r) && multiset(r) == multiset(heads[..i])
    {
      var at := SearchHeads(r, heads[i]);
      assert heads[..i + 1] == heads[..i] + [heads[i]];
      InsertionIsSorted(r, heads[i], at);
      InsertionCounts(r, heads[i], at);
      r := r[..at] + [heads[i]] + r[at..];
    }
    assert heads[..|heads|] == heads;
  }

  /** Binary search: an index at which inserting `h` keeps the order. */
  method SearchHeads(heads: seq<HeadTransaction>, h: HeadTransaction) returns (at: nat)
    requires Sorted(heads)
    ensures at <= |heads|
    ensures forall i :: 0 <= i < at ==> LessEq(heads[i], h)
    ensures forall i :: at <= i < |heads| ==> LessEq(h, heads[i])
  {
    var low, high := 0, |heads|;
    while low < high
      invariant 0 <= low <= high <= |heads|
      invariant forall i :: 0 <= i < low ==> LessEq(heads[i], h)
      invariant forall i :: high <= i < |heads| ==> LessEq(h, heads[i])
    {
      var mid := (low + high) / 2;
      if Less(heads[mid], h) {
        low := mid + 1;
      } else if Less(h, heads[mid]) {
        high := mid;
      } else {
        return mid;
      }
    }
    return low;
  }

  class TransactionQueue {
    var heads: seq<HeadTransaction>
    var txs: TransactionLists
    const baseFee: Option<nat>

    ghost function View(): Queue
      reads this
    {
      Queue(heads, txs, baseFee)
    }

    constructor (heads: seq<HeadTransaction>, txs: TransactionLists, baseFee: Option<nat>)
      ensures View() == Queue(heads, txs, baseFee)
    {
      this.heads, this.txs, this.baseFee := heads, txs, baseFee;
    }

    /** Takes everybody's first transaction; the lists come in no particular order. */
    static method New(lists: TransactionLists, baseFee: Option<nat>) returns (r: Result<TransactionQueue, QueueError>)
      requires forall a :: a in lists ==> lists[a] != []
      ensures r.Ok? ==> fresh(r.value) && IsNew(lists, baseFee, r.value.View())
      ensures r.Ok? <==> forall a :: a in lists ==> EffectiveGasTip(lists[a][0].tx, baseFee).Some?
    {
      var heads: seq<HeadTransaction>, txs: TransactionLists, todo := [], map[], lists.Keys;
      while todo != {}
        invariant todo <= lists.Keys && txs.Keys == lists.Keys - todo
        invariant forall a :: a in txs ==> txs[a] == lists[a][1..] && EffectiveGasTip(lists[a][0].tx, baseFee).Some?
        invariant forall i :: 0 <= i < |heads| ==> IsFirstOf(heads[i], lists, baseFee) && heads[i].sender !in todo
        invariant forall a :: a in txs ==> HasSender(heads, a)
        invariant DistinctSenders(heads)
        decreases todo
      {
        var address :| address in todo;
        var headTx := lists[address][0];
        var tip := EffectiveGasTip(headTx.tx, baseFee);
        if tip.None? {
          return Err(InvalidTransaction);
        }
        var head := HeadTransaction(headTx, address, tip.value);
        SendersAppend(heads, head);
        heads := heads + [head];
        txs := txs[address := lists[address][1..]];
        todo := todo - {address};
      }
      var sorted := SortHeads(heads);
      SortedIsNew(lists, baseFee, heads, sorted, txs);
      var queue := new TransactionQueue(sorted, txs, baseFee);
      r := Ok(queue);
    }

    method Clear()
      modifies this
      ensures View() == Cleared(old(View()))
    {
      heads, txs := [], map[];
    }

    method Pop()
      modifies this
      ensures View() == Popped(old(View()))
    {
      if heads != [] {
        var sender := heads[0].sender;
        heads := heads[1..];
        txs := txs - {sender};
      }
    }

    /** Never an error on what the filter let through with the same base fee. */
    method Shift(ghost blobs: bool) returns (error: Option<QueueError>)
      requires Valid(View(), blobs) && heads != []
      modifies this
      ensures error == None
      ensures IsShifted(old(View()), View()) && Valid(View(), blobs)
    {
      ghost var before := View();
      var tx, rest := heads[0], heads[1..];
      heads := rest;
      if tx.sender in txs && txs[tx.sender] != [] {
        var headTx := txs[tx.sender][0];
        assert Suitable(headTx, tx.sender, baseFee, blobs);
        txs := txs[tx.sender := txs[tx.sender][1..]];
        var tip := EffectiveGasTip(headTx.tx, baseFee);
        if tip.None? {
          return Some(InvalidTransaction);
        }
        var head := HeadTransaction(headTx, tx.sender, tip.value);
        var index := SearchHeads(rest, head);
        InsertionIsSorted(rest, head, index);
        heads := rest[..index] + [head] + rest[index..];
      }
      ShiftedIsValid(before, View(), blobs);
      error := None;
    }
  }

  lemma SendersAppend(heads: seq<HeadTransaction>, head: HeadTransaction)
    ensures forall a :: HasSender(heads + [head], a) <==> HasSender(heads, a) || a == head.sender
  {
    var more := heads + [head];
    assert more[|heads|] == head;
    forall a | HasSender(heads, a) ensures HasSender(more, a) {
      var i :| 0 <= i < |heads| && heads[i].sender == a;
      assert more[i].sender == a;
    }
  }

  /** A permutation of heads with distinct senders has the same heads and still distinct senders. */
  lemma SameElements(a: seq<HeadTransaction>, b: seq<HeadTransaction>)
    requires multiset(a) == multiset(b) && DistinctSenders(a)
    ensures DistinctSenders(b)
    ensures forall i :: 0 <= i < |b| ==> b[i] in a
    ensures forall i :: 0 <= i < |a| ==> a[i] in b
  {
    PermutedElements(a, b);
    forall i, j | 0 <= i < j < |b| ensures b[i].sender != b[j].sender {
      assert b[i] in a && b[j] in a && b[i] != b[j];
    }
  }

  /** Everybody's first transaction, sorted, with the rest behind: the new queue. */
  lemma SortedIsNew(lists: TransactionLists, baseFee: Option<nat>, heads: seq<HeadTransaction>,
                    sorted: seq<HeadTransaction>,
                    txs: TransactionLists)
    requires Sorted(sorted) && multiset(sorted) == multiset(heads) && DistinctSenders(heads)
    requires forall i :: 0 <= i < |heads| ==> IsFirstOf(heads[i], lists, baseFee)
    requires forall a :: a in lists ==> HasSender(heads, a)
    requires txs.Keys == lists.Keys && forall a :: a in lists && lists[a] != [] ==> txs[a] == lists[a][1..]
    ensures IsNew(lists, baseFee, Queue(sorted, txs, baseFee))
  {
    SameElements(heads, sorted);
    forall a | a in lists ensures HasSender(sorted, a) {
      var i :| 0 <= i < |heads| && heads[i].sender == a;
      assert heads[i] in sorted;
    }
  }
}
