/**
  The L2 withdrawal Merkle tree: the root loop, the proof loop and the fold the bridge
  contract runs over a proof. The pair hash (Keccak of two concatenated digests) is a
  function parameter; where collision freedom matters it is required to be injective, and leaves
  (Keccak of 84 bytes) are required not to be pair hashes (Keccak of 64).
 */
module MerkleTree {
  import opened Prelude
  import opened Types

  type PairHash = (Hash, Hash) -> Hash

  datatype MerkleError = DataVectorIsEmpty

  ghost predicate Injective(h: PairHash) {
    forall a, b, c, d :: h(a, b) == h(c, d) ==> a == c && b == d
  }

  /** No two digests hash to `y`. */
  ghost predicate NoPair(h: PairHash, y: Hash) {
    forall a, b :: h(a, b) != y
  }

  ghost predicate NoPairAmong(h: PairHash, leaves: seq<Hash>) {
    forall k :: 0 <= k < |leaves| ==> NoPair(h, leaves[k])
  }

  lemma InjectiveAt(h: PairHash, y: Hash, left: Hash, right: Hash)
    requires Injective(h) && y == h(left, right)
    ensures forall a, b {:trigger h(a, b)} :: h(a, b) == y ==> a == left && b == right
  {
  }

  // ---------------------------------------------------------------- levels

  /** The right element of chunk `k`: an odd tail is paired with itself. */
  function Right(data: seq<Hash>, k: nat): Hash
    requires 2 * k < |data|
  {
    if 2 * k + 1 < |data| then data[2 * k + 1] else data[2 * k]
  }

  function Level(h: PairHash, data: seq<Hash>): (up: seq<Hash>)
    ensures |up| == (|data| + 1) / 2
    ensures forall k :: 0 <= k < |up| ==> up[k] == h(data[2 * k], Right(data, k))
  {
    seq<Hash>((|data| + 1) / 2, k requires 0 <= k < (|data| + 1) / 2 => h(data[2 * k], Right(data, k)))
  }

  /** The last level's only element, with at least one level of hashing above the leaves. */
  function Root(h: PairHash, data: seq<Hash>): Hash
    requires data != []
    decreases |data|
  {
    if |data| <= 2 then Level(h, data)[0] else Root(h, Level(h, data))
  }

  function Depth(n: nat): nat
    requires n > 0
  {
    if n <= 2 then 1 else 1 + Depth((n + 1) / 2)
  }

  method Merkelize(h: PairHash, leaves: seq<Hash>) returns (r: Result<Hash, MerkleError>)
    ensures leaves == [] ==> r == Err(DataVectorIsEmpty)
    ensures leaves != [] ==> r == Ok(Root(h, leaves))
  {
    var data, first := leaves, true;
    while |data| > 1 || first
      invariant leaves == [] <==> data == []
      invariant first ==> data == leaves
      invariant leaves != [] ==>
                  Root(h, leaves) == if first || |data| > 1 then Root(h, data) else data[0]
      decreases |data|, first
    {
      first := false;
      data := Level(h, data);
    }
    r := if data == [] then Err(DataVectorIsEmpty) else Ok(data[0]);
  }

  // ---------------------------------------------------------------- proofs

  /** What one pass over the first `k` chunks pushes, and the target it leaves behind. */
  function Scan(h: PairHash, data: seq<Hash>, target: Hash, k: nat): (seq<Hash>, Hash)
    requires 2 * k <= |data| + 1
  {
    if k == 0 then ([], target)
    else
      var (proof, next) := Scan(h, data, target, k - 1);
      var left, right := data[2 * (k - 1)], Right(data, k - 1);
      if left == target then (proof + [right], h(left, right))
      else if right == target then (proof + [left], h(left, right))
      else (proof, next)
  }

  /** Every chunk of every level that contains the current target contributes an element. */
  function ScannedProof(h: PairHash, data: seq<Hash>, target: Hash): seq<Hash>
    requires data != []
    decreases |data|
  {
    var (proof, next) := Scan(h, data, target, (|data| + 1) / 2);
    if |data| <= 2 then proof else proof + ScannedProof(h, Level(h, data), next)
  }

  /** The body of the proof loop: one pass over the chunks of a level. */
  method ScanLevel(h: PairHash, data: seq<Hash>, current: Hash)
    returns (up: seq<Hash>, pushed: seq<Hash>, target: Hash)
    ensures up == Level(h, data)
    ensures (pushed, target) == Scan(h, data, current, (|data| + 1) / 2)
  {
    up, pushed, target := [], [], current;
    for k := 0 to (|data| + 1) / 2
      invariant up == Level(h, data)[..k]
      invariant (pushed, target) == Scan(h, data, current, k)
    {
      var left, right := data[2 * k], Right(data, k);
      var result := h(left, right);
      if left == current {
        pushed, target := pushed + [right], result;
      } else if right == current {
        pushed, target := pushed + [left], result;
      }
      up := up + [result];
    }
  }

  method MerkleProof(h: PairHash, leaves: seq<Hash>, baseElement: Hash)
    returns (r: Option<seq<Hash>>)
    ensures baseElement !in leaves ==> r == None
    ensures baseElement in leaves ==> r == Some(ScannedProof(h, leaves, baseElement))
  {
    if baseElement !in leaves {
      return None;
    }
    var proof, data, target, first := [], leaves, baseElement, true;
    ghost var rest := ScannedProof(h, data, target);
    while |data| > 1 || first
      invariant data != []
      invariant rest == if first || |data| > 1 then ScannedProof(h, data, target) else []
      invariant ScannedProof(h, leaves, baseElement) == proof + rest
      decreases |data|, first
    {
      first := false;
      var up, pushed, next := ScanLevel(h, data, target);
      assert rest == pushed + if |data| <= 2 then [] else ScannedProof(h, up, next);
      rest := if |data| <= 2 then [] else ScannedProof(h, up, next);
      data, proof, target := up, proof + pushed, next;
    }
    assert proof + [] == proof;
    r := Some(proof);
  }

  /** The sibling list a verifier needs for position `i`: exactly one hash per level. */
  function Path(h: PairHash, data: seq<Hash>, i: nat): (p: seq<Hash>)
    requires i < |data|
    ensures |p| == Depth(|data|)
    decreases |data|
  {
    [Sibling(data, i)] + if |data| <= 2 then [] else Path(h, Level(h, data), i / 2)
  }

  function Sibling(data: seq<Hash>, i: nat): Hash
    requires i < |data|
  {
    if i % 2 == 0 then Right(data, i / 2) else data[i - 1]
  }

  /** The chunk of two elements at `c`, or the odd tail, contains `x`. */
  predicate InChunk(data: seq<Hash>, c: nat, x: Hash) {
    2 * c < |data| && (data[2 * c] == x || Right(data, c) == x)
  }

  /** All copies of the element at `i` sit in its own chunk. */
  predicate OneChunk(data: seq<Hash>, i: nat)
    requires i < |data|
  {
    forall j :: 0 <= j < |data| && data[j] == data[i] ==> j / 2 == i / 2
  }

  lemma LevelDistinct(h: PairHash, data: seq<Hash>)
    requires Injective(h) && Distinct(data)
    ensures Distinct(Level(h, data))
  {
  }

  /** In the next level an element whose copies share a chunk has no copy at all. */
  lemma OneChunkRises(h: PairHash, data: seq<Hash>, i: nat)
    requires i < |data| && Injective(h) && OneChunk(data, i)
    ensures OneChunk(Level(h, data), i / 2)
  {
    var up, c := Level(h, data), i / 2;
    forall k | 0 <= k < |up| && up[k] == up[c] ensures k == c {
      InjectiveAt(h, up[c], data[2 * c], Right(data, c));
      assert data[2 * k] == data[2 * c] && Right(data, k) == Right(data, c);
      assert data[2 * k] == data[i] || Right(data, k) == data[i];
    }
  }

  lemma {:induction false} ScanOneChunk(h: PairHash, data: seq<Hash>, i: nat, k: nat)
    requires i < |data| && 2 * k <= |data| + 1
    requires OneChunk(data, i)
    ensures Scan(h, data, data[i], k) ==
            if k <= i / 2 then ([], data[i]) else ([Sibling(data, i)], Level(h, data)[i / 2])
  {
    if k > 0 {
      ScanOneChunk(h, data, i, k - 1);
      var left, right := data[2 * (k - 1)], Right(data, k - 1);
      if k - 1 == i / 2 {
        assert [] + [right] == [right] && [] + [left] == [left];
      } else {
        assert left != data[i] && right != data[i];
      }
    }
  }

  /** If all copies of a leaf share a chunk, each level pushes exactly its one sibling. */
  lemma {:induction false} OneChunkScanIsPath(h: PairHash, data: seq<Hash>, i: nat)
    requires i < |data|
    requires Injective(h) && OneChunk(data, i)
    ensures ScannedProof(h, data, data[i]) == Path(h, data, i)
    decreases |data|
  {
    ScanOneChunk(h, data, i, (|data| + 1) / 2);
    if |data| > 2 {
      OneChunkRises(h, data, i);
      OneChunkScanIsPath(h, Level(h, data), i / 2);
    }
  }

  /** A pass over a chunk that contains the target pushes something and leaves a node of the next level. */
  lemma {:induction false} ScanPushes(h: PairHash, data: seq<Hash>, x: Hash, k: nat, c: nat)
    requires 2 * k <= |data| + 1 && c < k && InChunk(data, c, x)
    ensures |Scan(h, data, x, k).0| >= 1 && Scan(h, data, x, k).1 in Level(h, data)
  {
    if c < k - 1 {
      ScanPushes(h, data, x, k - 1, c);
    }
    assert Level(h, data)[k - 1] == h(data[2 * (k - 1)], Right(data, k - 1));
  }

  /** Two chunks that contain the target push twice. */
  lemma {:induction false} ScanPushesTwice(h: PairHash, data: seq<Hash>, x: Hash, k: nat, c: nat, d: nat)
    requires 2 * k <= |data| + 1 && c < d < k && InChunk(data, c, x) && InChunk(data, d, x)
    ensures |Scan(h, data, x, k).0| >= 2
  {
    if d < k - 1 {
      ScanPushesTwice(h, data, x, k - 1, c, d);
    } else {
      ScanPushes(h, data, x, k - 1, c);
    }
  }

  /** No level goes by without a push. */
  lemma {:induction false} ProofIsNotShort(h: PairHash, data: seq<Hash>, i: nat)
    requires i < |data|
    ensures |ScannedProof(h, data, data[i])| >= Depth(|data|)
    decreases |data|
  {
    var (pushed, next) := Scan(h, data, data[i], (|data| + 1) / 2);
    ScanPushes(h, data, data[i], (|data| + 1) / 2, i / 2);
    if |data| > 2 {
      var k :| 0 <= k < |Level(h, data)| && Level(h, data)[k] == next;
      ProofIsNotShort(h, Level(h, data), k);
    }
  }

  /** A copy in another chunk makes the proof too long. */
  lemma SecondChunkIsTooLong(h: PairHash, data: seq<Hash>, i: nat, j: nat)
    requires i < |data| && j < |data| && data[j] == data[i] && j / 2 != i / 2
    ensures |ScannedProof(h, data, data[i])| > Depth(|data|)
  {
    var (pushed, next) := Scan(h, data, data[i], (|data| + 1) / 2);
    ScanPushesTwice(h, data, data[i], (|data| + 1) / 2, Min(i / 2, j / 2), Max(i / 2, j / 2));
    ScanPushes(h, data, data[i], (|data| + 1) / 2, i / 2);
    if |data| > 2 {
      var k :| 0 <= k < |Level(h, data)| && Level(h, data)[k] == next;
      ProofIsNotShort(h, Level(h, data), k);
    }
  }

  /** The proof loop returns the committed path exactly when all copies of the leaf share a chunk. */
  lemma ProofIsPathIffOneChunk(h: PairHash, leaves: seq<Hash>, i: nat)
    requires i < |leaves| && Injective(h)
    ensures ScannedProof(h, leaves, leaves[i]) == Path(h, leaves, i) <==> OneChunk(leaves, i)
    ensures |ScannedProof(h, leaves, leaves[i])| == Depth(|leaves|) <==> OneChunk(leaves, i)
  {
    if OneChunk(leaves, i) {
      OneChunkScanIsPath(h, leaves, i);
    } else {
      var j :| 0 <= j < |leaves| && leaves[j] == leaves[i] && j / 2 != i / 2;
      SecondChunkIsTooLong(h, leaves, i, j);
    }
  }

  // ---------------------------------------------------------------- verification

  function Combine(h: PairHash, x: Hash, index: nat, sibling: Hash): Hash {
    if index % 2 == 0 then h(x, sibling) else h(sibling, x)
  }

  /** The bridge contract's loop: the bits of the index choose the side at each level. */
  function Fold(h: PairHash, leaf: Hash, index: nat, proof: seq<Hash>): Hash
    decreases |proof|
  {
    if proof == [] then leaf
    else Fold(h, Combine(h, leaf, index, proof[0]), index / 2, proof[1..])
  }

  method VerifyWithdrawProof(h: PairHash, root: Hash, leaf: Hash, index: nat, proof: seq<Hash>)
    returns (ok: bool)
    ensures ok <==> Fold(h, leaf, index, proof) == root
  {
    var current: Hash, rest: nat := leaf, index;
    for i := 0 to |proof|
      invariant Fold(h, leaf, index, proof) == Fold(h, current, rest, proof[i..])
    {
      assert proof[i..][1..] == proof[i + 1..];
      current := if rest % 2 == 0 then h(current, proof[i]) else h(proof[i], current);
      rest := rest / 2;
    }
    ok := current == root;
  }

  lemma {:induction false} PathFoldsToRoot(h: PairHash, data: seq<Hash>, i: nat)
    requires i < |data|
    ensures Fold(h, data[i], i, Path(h, data, i)) == Root(h, data)
    decreases |data|
  {
    var up, p := Level(h, data), Path(h, data, i);
    assert Combine(h, data[i], i, p[0]) == up[i / 2];
    if |data| > 2 {
      PathFoldsToRoot(h, up, i / 2);
      assert p[1..] == Path(h, up, i / 2);
    }
  }

  // ---------------------------------------------------------------- what the contract accepts

  /**
    The leaf an index stands for in a tree over `n` leaves: itself when it is inside. Beyond, the
    bits above the depth do not matter and the missing right half of an odd tail is the tail.
   */
  function Slot(n: nat, index: nat): (slot: nat)
    requires n > 0
    ensures slot < n
    ensures index < n ==> slot == index
  {
    var k := if n <= 2 then 0 else Slot((n + 1) / 2, index / 2);
    if index % 2 == 1 && 2 * k + 1 < n then 2 * k + 1 else 2 * k
  }

  /** The siblings that belong to an index, inside the tree or not. */
  function SlotPath(h: PairHash, data: seq<Hash>, index: nat): (p: seq<Hash>)
    requires data != []
    ensures |p| == Depth(|data|)
    decreases |data|
  {
    var k := Slot(|data|, index) / 2;
    [if index % 2 == 0 then Right(data, k) else data[2 * k]]
    + if |data| <= 2 then [] else SlotPath(h, Level(h, data), index / 2)
  }

  lemma {:induction false} SlotPathIsPath(h: PairHash, data: seq<Hash>, i: nat)
    requires i < |data|
    ensures SlotPath(h, data, i) == Path(h, data, i)
    decreases |data|
  {
    if |data| > 2 {
      SlotPathIsPath(h, Level(h, data), i / 2);
    }
  }

  /** The chunk of an index's slot, and which of its halves is the slot and which the sibling. */
  lemma SlotChunk(h: PairHash, data: seq<Hash>, index: nat) returns (k: nat)
    requires data != []
    ensures k == if |data| <= 2 then 0 else Slot(|Level(h, data)|, index / 2)
    ensures 2 * k < |data|
    ensures data[Slot(|data|, index)] == if index % 2 == 0 then data[2 * k] else Right(data, k)
    ensures SlotPath(h, data, index)[0] == if index % 2 == 0 then Right(data, k) else data[2 * k]
  {
    k := if |data| <= 2 then 0 else Slot((|data| + 1) / 2, index / 2);
    assert Slot(|data|, index) / 2 == k;
  }

  /** A pair hash determines the two halves, on whichever side they were put. */
  lemma CombineExactly(h: PairHash, x: Hash, index: nat, sibling: Hash, left: Hash, right: Hash)
    requires Injective(h)
    ensures Combine(h, x, index, sibling) == h(left, right) <==>
            if index % 2 == 0 then x == left && sibling == right else x == right && sibling == left
  {
    InjectiveAt(h, h(left, right), left, right);
  }

  /** Among the proofs of the tree's depth exactly the committed one of the index's slot folds to the root. */
  lemma {:induction false} FoldsFromSlot(h: PairHash, data: seq<Hash>, x: Hash, index: nat, proof: seq<Hash>)
    requires data != [] && Injective(h) && |proof| == Depth(|data|)
    ensures Fold(h, x, index, proof) == Root(h, data) <==>
            x == data[Slot(|data|, index)] && proof == SlotPath(h, data, index)
    decreases |data|
  {
    var up, y, rest := Level(h, data), Combine(h, x, index, proof[0]), proof[1..];
    var k := SlotChunk(h, data, index);
    CombineExactly(h, x, index, proof[0], data[2 * k], Right(data, k));
    assert up[k] == h(data[2 * k], Right(data, k));
    assert Fold(h, x, index, proof) == Fold(h, y, index / 2, rest);
    SlotPathSplits(h, data, index, proof);
    if |data| > 2 {
      FoldsFromSlot(h, up, y, index / 2, rest);
    } else {
      assert rest == [];
    }
  }

  lemma SlotPathSplits(h: PairHash, data: seq<Hash>, index: nat, proof: seq<Hash>)
    requires data != [] && |proof| == Depth(|data|)
    ensures proof == SlotPath(h, data, index) <==>
            && proof[0] == SlotPath(h, data, index)[0]
            && proof[1..] == if |data| <= 2 then [] else SlotPath(h, Level(h, data), index / 2)
  {
    assert proof == [proof[0]] + proof[1..];
    assert SlotPath(h, data, index)[1..] == if |data| <= 2 then [] else SlotPath(h, Level(h, data), index / 2);
  }

  /** What a shorter proof folds to the root is a node above the leaves. */
  lemma {:induction false} ShortProofStartsAtNode(h: PairHash, data: seq<Hash>, x: Hash, index: nat, proof: seq<Hash>)
    requires data != [] && Injective(h) && |proof| < Depth(|data|)
    requires Fold(h, x, index, proof) == Root(h, data)
    ensures !NoPair(h, x)
    decreases |data|
  {
    var up := Level(h, data);
    if |data| <= 2 {
      assert x == up[0] == h(data[0], Right(data, 0));
    } else if |proof| < Depth(|up|) {
      ShortProofStartsAtNode(h, up, x, index, proof);
    } else {
      FoldsFromSlot(h, up, x, index, proof);
      var k := Slot(|up|, index);
      assert up[k] == h(data[2 * k], Right(data, k));
    }
  }

  /** A longer proof that folds to the root goes through a leaf that is a node. */
  lemma {:induction false} LongProofMakesNodeALeaf(h: PairHash, data: seq<Hash>, x: Hash, index: nat, proof: seq<Hash>)
    requires data != [] && Injective(h) && |proof| > Depth(|data|)
    requires Fold(h, x, index, proof) == Root(h, data)
    ensures !NoPairAmong(h, data)
    decreases |proof|
  {
    var y := Combine(h, x, index, proof[0]);
    assert Fold(h, y, index / 2, proof[1..]) == Root(h, data);
    if |proof| - 1 > Depth(|data|) {
      LongProofMakesNodeALeaf(h, data, y, index / 2, proof[1..]);
    } else {
      FoldsFromSlot(h, data, y, index / 2, proof[1..]);
      var left, right := if index % 2 == 0 then x else proof[0], if index % 2 == 0 then proof[0] else x;
      assert data[Slot(|data|, index / 2)] == h(left, right);
    }
  }

  /**
    What the contract accepts: whatever index and however many hashes the claimant supplies, the
    fold is the root exactly for the leaf the index stands for, with its committed siblings.
   */
  lemma AcceptedExactly(h: PairHash, leaves: seq<Hash>, x: Hash, index: nat, proof: seq<Hash>)
    requires leaves != [] && Injective(h) && NoPair(h, x) && NoPairAmong(h, leaves)
    ensures Fold(h, x, index, proof) == Root(h, leaves) <==>
            x == leaves[Slot(|leaves|, index)] && proof == SlotPath(h, leaves, index)
  {
    if |proof| == Depth(|leaves|) {
      FoldsFromSlot(h, leaves, x, index, proof);
    } else if Fold(h, x, index, proof) == Root(h, leaves) {
      if |proof| < Depth(|leaves|) {
        ShortProofStartsAtNode(h, leaves, x, index, proof);
      } else {
        LongProofMakesNodeALeaf(h, leaves, x, index, proof);
      }
    }
  }

  /** Soundness: whatever proof is accepted, of any length, names a real leaf. */
  lemma AcceptedLeafIsInTree(h: PairHash, leaves: seq<Hash>, x: Hash, index: nat, proof: seq<Hash>)
    requires leaves != [] && Injective(h) && NoPair(h, x) && NoPairAmong(h, leaves)
    requires Fold(h, x, index, proof) == Root(h, leaves)
    ensures x in leaves && |proof| == Depth(|leaves|)
  {
    AcceptedExactly(h, leaves, x, index, proof);
  }

  /** At an index inside the tree the accepted leaf and proof are the committed ones. */
  lemma AcceptedProofIsThePath(h: PairHash, leaves: seq<Hash>, x: Hash, i: nat, proof: seq<Hash>)
    requires i < |leaves| && Injective(h) && NoPair(h, x) && NoPairAmong(h, leaves)
    ensures Fold(h, x, i, proof) == Root(h, leaves) <==> x == leaves[i] && proof == Path(h, leaves, i)
  {
    SlotPathIsPath(h, leaves, i);
    AcceptedExactly(h, leaves, x, i, proof);
    assert Slot(|leaves|, i) == i;
  }

  /** The proof the node hands out is accepted exactly when all copies of the leaf share a chunk. */
  lemma ProofVerifies(h: PairHash, leaves: seq<Hash>, i: nat)
    requires i < |leaves| && Injective(h) && NoPairAmong(h, leaves)
    ensures Fold(h, leaves[i], i, ScannedProof(h, leaves, leaves[i])) == Root(h, leaves) <==> OneChunk(leaves, i)
  {
    AcceptedProofIsThePath(h, leaves, leaves[i], i, ScannedProof(h, leaves, leaves[i]));
    ProofIsPathIffOneChunk(h, leaves, i);
  }

  /** The hypothesis on leaves is needed: over a pair hash of itself a copy elsewhere is accepted. */
  lemma NodeAsLeafIsAccepted(h: PairHash, a: Hash)
    requires h(a, a) == a
    ensures !OneChunk([a, a, a], 0)
    ensures Fold(h, a, 0, ScannedProof(h, [a, a, a], a)) == Root(h, [a, a, a])
  {
    var leaves := [a, a, a];
    assert leaves[2] == leaves[0];
    var up := Level(h, leaves);
    assert up == [a, a] && Root(h, leaves) == Root(h, up) == a;
    assert [] + [a] == [a] && [a] + [a] == [a, a];
    assert Scan(h, leaves, a, 0) == Scan(h, up, a, 0) == ([], a);
    assert Scan(h, leaves, a, 1) == Scan(h, up, a, 1) == ([a], a);
    assert Scan(h, leaves, a, 2) == ([a, a], a);
    assert ScannedProof(h, up, a) == [a];
    var proof := ScannedProof(h, leaves, a);
    assert proof == [a, a] + [a];
    FoldOfOneValue(h, a, 0, proof);
  }

  lemma {:induction false} FoldOfOneValue(h: PairHash, a: Hash, index: nat, proof: seq<Hash>)
    requires h(a, a) == a && forall k :: 0 <= k < |proof| ==> proof[k] == a
    ensures Fold(h, a, index, proof) == a
    decreases |proof|
  {
    if proof != [] {
      FoldOfOneValue(h, a, index / 2, proof[1..]);
    }
  }

  /** In particular for every list of distinct leaves. */
  lemma DistinctProofVerifies(h: PairHash, leaves: seq<Hash>, i: nat)
    requires i < |leaves| && Injective(h) && Distinct(leaves)
    ensures ScannedProof(h, leaves, leaves[i]) == Path(h, leaves, i)
    ensures Fold(h, leaves[i], i, ScannedProof(h, leaves, leaves[i])) == Root(h, leaves)
  {
    assert OneChunk(leaves, i);
    OneChunkScanIsPath(h, leaves, i);
    PathFoldsToRoot(h, leaves, i);
  }

  /** A leaf repeated in another chunk: two hashes are pushed at one level, and the fold misses the root. */
  lemma RepeatedLeafBreaksProof(h: PairHash, a: Hash, b: Hash, c: Hash)
    requires Injective(h)
    requires a != b && a != c && b != c
    ensures var leaves := [a, b, a, c];
            var proof := ScannedProof(h, leaves, a);
            && |proof| == Depth(|leaves|) + 1
            && Fold(h, a, 0, proof) != Root(h, leaves)
            && Fold(h, a, 2, proof) != Root(h, leaves)
  {
    var leaves := [a, b, a, c];
    var up := Level(h, leaves);
    assert up == [h(a, b), h(a, c)];
    assert [] + [b] == [b] && [b] + [c] == [b, c] && [] + [h(a, b)] == [h(a, b)];
    assert Scan(h, leaves, a, 0) == ([], a);
    assert Scan(h, leaves, a, 1) == ([b], h(a, b));
    assert Scan(h, leaves, a, 2) == ([b, c], h(a, c));
    assert Scan(h, up, h(a, c), 0) == ([], h(a, c));
    assert Scan(h, up, h(a, c), 1) == ([h(a, b)], h(h(a, b), h(a, c)));
    assert ScannedProof(h, up, h(a, c)) == [h(a, b)];
    var proof := ScannedProof(h, leaves, a);
    assert proof == [b, c] + [h(a, b)];
    assert proof[1..] == [c, h(a, b)] && proof[1..][1..] == [h(a, b)] && [h(a, b)][1..] == [];
    forall x, i ensures Fold(h, x, i, [h(a, b)]) == if i % 2 == 0 then h(x, h(a, b)) else h(h(a, b), x) {
    }
    assert Fold(h, a, 0, proof) == Fold(h, h(a, b), 0, [c, h(a, b)]) == h(h(h(a, b), c), h(a, b));
    assert Fold(h, a, 2, proof) == Fold(h, h(a, b), 1, [c, h(a, b)]) == h(h(c, h(a, b)), h(a, b));
    assert Root(h, leaves) == h(h(a, b), h(a, c));
  }
}
