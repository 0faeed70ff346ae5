/**
  The routing table of discovered peers: buckets by distance, each with its peers and a short
  list of replacements.
 */
module Kademlia {
  import opened Prelude

  type NodeId = nat

  /** The Keccak digest of a node id, most significant bit first. */
  type Digest = d: seq<bool> | |d| == 256 witness seq(256, _ => false)

  const MAX_NODES_PER_BUCKET: nat := 16
  const NUMBER_OF_BUCKETS: nat := 256
  const MAX_NUMBER_OF_REPLACEMENTS: nat := 10

  datatype Node = Node(ip: nat, udpPort: nat, tcpPort: nat, nodeId: NodeId)

  datatype FindNodeRequest = FindNodeRequest(nodesSent: nat, sentAt: nat)

  datatype PeerData = PeerData(
    node: Node, lastPing: nat, lastPong: nat, lastPingHash: Option<nat>, isProven: bool,
    findNodeRequest: Option<FindNodeRequest>, liveness: nat, revalidation: Option<bool>)

  datatype Bucket = Bucket(peers: seq<PeerData>, replacements: seq<PeerData>)

  type Table = seq<Bucket>

  /** The local node and the digest function. */
  datatype Local = Local(nodeId: NodeId, digest: NodeId -> Digest)

  // ---------------------------------------------------------------- distance

  function Xor(a: seq<bool>, b: seq<bool>): seq<bool>
    requires |a| == |b|
  {
    seq(|a|, i requires 0 <= i < |a| => a[i] != b[i])
  }

  /** The position of the highest set bit, counted from one at the least significant end. */
  function BitLength(bits: seq<bool>): (n: nat)
    ensures n <= |bits|
    ensures n > 0 ==> bits[|bits| - n]
    ensures forall i :: 0 <= i < |bits| - n ==> !bits[i]
  {
    if bits == [] then 0
    else if bits[0] then |bits|
    else
      var n := BitLength(bits[1..]);
      assert forall i :: 1 <= i < |bits| ==> bits[i] == bits[1..][i - 1];
      n
  }

  function BucketNumber(a: Digest, b: Digest): (n: nat)
    ensures n < NUMBER_OF_BUCKETS
  {
    var bits := BitLength(Xor(a, b));
    if bits == 0 then 0 else bits - 1
  }

  lemma DistanceIsSymmetric(a: Digest, b: Digest)
    ensures BucketNumber(a, b) == BucketNumber(b, a)
  {
    assert Xor(a, b) == Xor(b, a);
  }

  /** Bucket `n` holds exactly the digests that first differ from ours `n` bits from the end. */
  lemma DistanceIsFirstDifference(a: Digest, b: Digest, n: nat)
    requires 0 < n < NUMBER_OF_BUCKETS
    ensures BucketNumber(a, b) == n <==> a[..255 - n] == b[..255 - n] && a[255 - n] != b[255 - n]
  {
    var x := Xor(a, b);
    var bits, first := BitLength(x), 255 - n;
    assert x[first] == (a[first] != b[first]);
    if bits == n + 1 {
      forall i | 0 <= i < first ensures a[i] == b[i] {
        assert !x[i];
      }
    }
    if a[..first] == b[..first] && x[first] {
      assert forall i :: 0 <= i < first ==> a[..first][i] == b[..first][i] && !x[i];
    }
  }

  /** The distance is an ultrametric: a detour never brings two digests closer than its longer leg. */
  lemma DistanceIsUltrametric(a: Digest, b: Digest, c: Digest)
    ensures BucketNumber(a, c) <= Max(BucketNumber(a, b), BucketNumber(b, c))
  {
    var n := BitLength(Xor(a, c));
    if n > 0 {
      assert Xor(a, c)[256 - n];
      assert Xor(a, b)[256 - n] || Xor(b, c)[256 - n];
    }
  }

  function BucketOf(l: Local, id: NodeId): (n: nat)
    ensures n < NUMBER_OF_BUCKETS
  {
    BucketNumber(l.digest(id), l.digest(l.nodeId))
  }

  // ---------------------------------------------------------------- finding peers

  /** The first peer with this id, or the length if there is none. */
  function IndexOf(peers: seq<PeerData>, id: NodeId): (i: nat)
    ensures i <= |peers|
    ensures i < |peers| ==> peers[i].node.nodeId == id
    ensures forall k :: 0 <= k < i ==> peers[k].node.nodeId != id
  {
    if peers == [] then 0 else if peers[0].node.nodeId == id then 0 else 1 + IndexOf(peers[1..], id)
  }

  predicate HasId(peers: seq<PeerData>, id: NodeId) {
    exists i :: 0 <= i < |peers| && peers[i].node.nodeId == id
  }

  predicate DistinctIds(peers: seq<PeerData>) {
    forall i, j :: 0 <= i < j < |peers| ==> peers[i].node.nodeId != peers[j].node.nodeId
  }

  predicate BucketOk(l: Local, b: Bucket, n: nat) {
    && |b.peers| <= MAX_NODES_PER_BUCKET && |b.replacements| <= MAX_NUMBER_OF_REPLACEMENTS
    && (b.replacements != [] ==> |b.peers| == MAX_NODES_PER_BUCKET)
    && (forall i :: 0 <= i < |b.peers| ==> BucketOf(l, b.peers[i].node.nodeId) == n)
    && (forall i :: 0 <= i < |b.replacements| ==> BucketOf(l, b.replacements[i].node.nodeId) == n)
    && DistinctIds(b.peers) && DistinctIds(b.replacements)
    && (forall i, j :: 0 <= i < |b.peers| && 0 <= j < |b.replacements| ==>
          b.peers[i].node.nodeId != b.replacements[j].node.nodeId)
  }

  /** Every entry in its bucket, no id twice, sizes bounded, replacements only behind full buckets. */
  ghost predicate TableOk(l: Local, t: Table) {
    |t| == NUMBER_OF_BUCKETS && forall n :: 0 <= n < |t| ==> BucketOk(l, t[n], n)
  }

  function GetByNodeId(l: Local, t: Table, id: NodeId): Option<PeerData>
    requires |t| == NUMBER_OF_BUCKETS
  {
    var peers := t[BucketOf(l, id)].peers;
    var i := IndexOf(peers, id);
    if i < |peers| then Some(peers[i]) else None
  }

  /** The id is somewhere among the table's peers. */
  ghost predicate InTable(t: Table, id: NodeId) {
    exists n, i :: 0 <= n < |t| && 0 <= i < |t[n].peers| && t[n].peers[i].node.nodeId == id
  }

  /** Looking in one bucket agrees with a scan of the whole table. */
  lemma GetAgreesWithScan(l: Local, t: Table, id: NodeId)
    requires TableOk(l, t)
    ensures GetByNodeId(l, t, id).Some? <==> InTable(t, id)
    ensures forall n, i :: 0 <= n < |t| && 0 <= i < |t[n].peers| && t[n].peers[i].node.nodeId == id ==>
              GetByNodeId(l, t, id) == Some(t[n].peers[i])
  {
  }

  // ---------------------------------------------------------------- inserting and replacing

  function NewPeer(node: Node, now: nat): PeerData {
    PeerData(node, now, 0, None, false, None, 1, None)
  }

  predicate Known(b: Bucket, id: NodeId) {
    HasId(b.peers, id) || HasId(b.replacements, id)
  }

  function WithReplacement(replacements: seq<PeerData>, peer: PeerData): seq<PeerData> {
    (if |replacements| >= MAX_NUMBER_OF_REPLACEMENTS then replacements[1..] else replacements) + [peer]
  }

  function InsertInBucket(b: Bucket, peer: PeerData): Bucket {
    if Known(b, peer.node.nodeId) then b
    else if |b.peers| == MAX_NODES_PER_BUCKET then b.(replacements := WithReplacement(b.replacements, peer))
    else b.(peers := b.peers + [peer])
  }

  function ReplaceInBucket(b: Bucket, id: NodeId): Bucket {
    var i := IndexOf(b.peers, id);
    if i == |b.peers| then b
    else if b.replacements == [] then b.(peers := b.peers[..i] + b.peers[i + 1..])
    else Bucket(b.peers[i := b.replacements[|b.replacements| - 1]], b.replacements[..|b.replacements| - 1])
  }

  function Insert(l: Local, t: Table, node: Node, now: nat): Table
    requires |t| == NUMBER_OF_BUCKETS
  {
    var n := BucketOf(l, node.nodeId);
    t[n := InsertInBucket(t[n], NewPeer(node, now))]
  }

  /** Whether an insertion makes the node a peer, not just a replacement. */
  predicate Inserts(l: Local, t: Table, node: Node)
    requires |t| == NUMBER_OF_BUCKETS
  {
    var b := t[BucketOf(l, node.nodeId)];
    !Known(b, node.nodeId) && |b.peers| != MAX_NODES_PER_BUCKET
  }

  function Replace(l: Local, t: Table, id: NodeId): Table
    requires |t| == NUMBER_OF_BUCKETS
  {
    var n := BucketOf(l, id);
    t[n := ReplaceInBucket(t[n], id)]
  }

  /** The replacement a removal would bring in. */
  function Successor(l: Local, t: Table, id: NodeId): Option<PeerData>
    requires |t| == NUMBER_OF_BUCKETS
  {
    var b := t[BucketOf(l, id)];
    if IndexOf(b.peers, id) == |b.peers| || b.replacements == [] then None
    else Some(b.replacements[|b.replacements| - 1])
  }

  /** In its bucket, a replaced id is gone. */
  lemma ReplaceInBucketRemoves(l: Local, b: Bucket, n: nat, id: NodeId)
    requires BucketOk(l, b, n)
    ensures !HasId(ReplaceInBucket(b, id).peers, id)
  {
  }

  /** Every other peer of the bucket is still there. */
  lemma ReplaceInBucketKeeps(b: Bucket, id: NodeId, other: NodeId)
    requires other != id && HasId(b.peers, other)
    ensures HasId(ReplaceInBucket(b, id).peers, other)
  {
    var i, peers := IndexOf(b.peers, id), ReplaceInBucket(b, id).peers;
    var k :| 0 <= k < |b.peers| && b.peers[k].node.nodeId == other;
    if i < |b.peers| && b.replacements == [] && k > i {
      assert peers[k - 1] == b.peers[k];
    } else {
      assert peers[k] == b.peers[k];
    }
  }

  lemma InsertIsOk(l: Local, t: Table, node: Node, now: nat)
    requires TableOk(l, t)
    ensures TableOk(l, Insert(l, t, node, now))
  {
  }

  lemma ReplaceIsOk(l: Local, t: Table, id: NodeId)
    requires TableOk(l, t)
    ensures TableOk(l, Replace(l, t, id))
  {
  }

  /** Insertion removes no peer, and makes the node one exactly when `Inserts` says so. */
  lemma InsertKeepsPeers(l: Local, t: Table, node: Node, now: nat, id: NodeId)
    requires TableOk(l, t)
    ensures GetByNodeId(l, Insert(l, t, node, now), id) ==
            if id == node.nodeId && Inserts(l, t, node) then Some(NewPeer(node, now)) else GetByNodeId(l, t, id)
  {
    var n := BucketOf(l, node.nodeId);
    var peer := NewPeer(node, now);
    if BucketOf(l, id) == n && Inserts(l, t, node) {
      AppendedIndex(t[n].peers, peer, id);
    }
  }

  lemma AppendedIndex(peers: seq<PeerData>, peer: PeerData, id: NodeId)
    ensures IndexOf(peers + [peer], id) ==
            if IndexOf(peers, id) < |peers| then IndexOf(peers, id)
            else if peer.node.nodeId == id then |peers|
            else |peers| + 1
  {
    var more := peers + [peer];
    var i, k := IndexOf(peers, id), IndexOf(more, id);
    assert more[|peers|] == peer;
    assert forall j :: 0 <= j < |peers| ==> more[j] == peers[j];
    if i < |peers| {
      assert more[i].node.nodeId == id;
    } else {
      assert forall j :: 0 <= j < |peers| ==> more[j].node.nodeId != id;
    }
  }

  /** Removal takes away that peer and no other one. */
  lemma ReplaceRemovesOne(l: Local, t: Table, id: NodeId, other: NodeId)
    requires TableOk(l, t)
    ensures !InTable(Replace(l, t, id), id)
    ensures other != id && InTable(t, other) ==> InTable(Replace(l, t, id), other)
  {
    var n, t' := BucketOf(l, id), Replace(l, t, id);
    ReplaceInBucketRemoves(l, t[n], n, id);
    ReplaceIsOk(l, t, id);
    GetAgreesWithScan(l, t', id);
    if other != id && InTable(t, other) {
      GetAgreesWithScan(l, t, other);
      GetAgreesWithScan(l, t', other);
      var m := BucketOf(l, other);
      if m == n {
        assert t[m].peers[IndexOf(t[m].peers, other)].node.nodeId == other;
        ReplaceInBucketKeeps(t[m], id, other);
      }
    }
  }

  // ---------------------------------------------------------------- pings and pongs

  function SetPeer(l: Local, t: Table, peer: PeerData): Table
    requires |t| == NUMBER_OF_BUCKETS
  {
    var n := BucketOf(l, peer.node.nodeId);
    var i := IndexOf(t[n].peers, peer.node.nodeId);
    if i < |t[n].peers| then t[n := t[n].(peers := t[n].peers[i := peer])] else t
  }

  /** Updating a peer changes what is found under its id and nothing else. */
  lemma SetPeerIsOk(l: Local, t: Table, peer: PeerData, id: NodeId)
    requires TableOk(l, t)
    ensures TableOk(l, SetPeer(l, t, peer))
    ensures GetByNodeId(l, SetPeer(l, t, peer), id) ==
            if id == peer.node.nodeId && GetByNodeId(l, t, id).Some? then Some(peer) else GetByNodeId(l, t, id)
  {
    var n := BucketOf(l, peer.node.nodeId);
    var peers, i := t[n].peers, IndexOf(t[n].peers, peer.node.nodeId);
    if i < |peers| {
      SameIdsIsOk(l, t[n], n, peers[i := peer]);
      SameIdsSameIndex(peers, peers[i := peer], id);
    }
  }

  lemma SameIdsIsOk(l: Local, b: Bucket, n: nat, peers: seq<PeerData>)
    requires BucketOk(l, b, n) && |peers| == |b.peers|
    requires forall k :: 0 <= k < |peers| ==> peers[k].node.nodeId == b.peers[k].node.nodeId
    ensures BucketOk(l, b.(peers := peers), n)
  {
  }

  lemma SameIdsSameIndex(a: seq<PeerData>, b: seq<PeerData>, id: NodeId)
    requires |a| == |b| && forall k :: 0 <= k < |a| ==> a[k].node.nodeId == b[k].node.nodeId
    ensures IndexOf(a, id) == IndexOf(b, id)
  {
  }

  function Answered(p: PeerData, now: nat): PeerData {
    p.(isProven := true, lastPong := now, lastPingHash := None,
       revalidation := if p.revalidation.Some? then Some(true) else None)
  }

  function Pinged(p: PeerData, hash: Option<nat>, now: nat): PeerData {
    p.(lastPingHash := hash, lastPing := now)
  }

  function PingedForRevalidation(p: PeerData, hash: Option<nat>, now: nat): PeerData {
    Pinged(p, hash, now).(revalidation := Some(false))
  }

  /** A revalidation turn: one more for an answer, a third of it without, and the mark is cleared. */
  function Revalidated(p: PeerData): PeerData {
    p.(liveness := if p.revalidation == Some(true) then p.liveness + 1
                   else if p.revalidation == Some(false) then p.liveness / 3 else p.liveness,
       revalidation := None)
  }

  // ---------------------------------------------------------------- selection

  /** `kept` and `dropped` share out `all`, and nothing dropped has a smaller key than anything kept. */
  ghost predicate KeepsSmallest<T(!new)>(all: seq<T>, kept: seq<T>, dropped: seq<T>, key: T -> nat) {
    && multiset(all) == multiset(kept) + multiset(dropped)
    && (forall k, d :: k in kept && d in dropped ==> key(k) <= key(d))
  }

  /** Exchanging the largest kept key for a smaller new one keeps the smallest. */
  lemma ExchangeKeepsSmallest<T(!new)>(all: seq<T>, kept: seq<T>, dropped: seq<T>, key: T -> nat, i: nat, x: T)
    requires KeepsSmallest(all, kept, dropped, key) && i < |kept|
    requires forall k :: k in kept ==> key(k) <= key(kept[i])
    ensures key(x) <= key(kept[i]) ==> KeepsSmallest(all + [x], kept[i := x], dropped + [kept[i]], key)
    ensures key(x) >= key(kept[i]) ==> KeepsSmallest(all + [x], kept, dropped + [x], key)
  {
  }

  lemma AppendKeepsSmallest<T(!new)>(all: seq<T>, kept: seq<T>, key: T -> nat, x: T)
    requires KeepsSmallest(all, kept, [], key)
    ensures KeepsSmallest(all + [x], kept + [x], [], key)
  {
  }

  function AllPeers(t: Table): seq<PeerData> {
    if t == [] then [] else AllPeers(t[..|t| - 1]) + t[|t| - 1].peers
  }

  /** The peers whose last pong is oldest; the documentation speaks of pings, the code compares pongs. */
  method GetLeastRecentlyPingedPeers(t: Table, limit: nat) returns (peers: seq<PeerData>, ghost dropped: seq<PeerData>)
    requires limit >= 1
    ensures KeepsSmallest(AllPeers(t), peers, dropped, (p: PeerData) => p.lastPong)
    ensures |peers| == Min(limit, |AllPeers(t)|)
  {
    peers, dropped := [], [];
    ghost var seen: seq<PeerData> := [];
    ghost var pong := (p: PeerData) => p.lastPong;
    for n := 0 to |t|
      invariant seen == AllPeers(t[..n])
      invariant KeepsSmallest(seen, peers, dropped, pong)
      invariant |peers| == Min(limit, |seen|) && (|seen| < limit ==> dropped == [])
    {
      ghost var before := seen;
      for k := 0 to |t[n].peers|
        invariant seen == before + t[n].peers[..k]
        invariant KeepsSmallest(seen, peers, dropped, pong)
        invariant |peers| == Min(limit, |seen|) && (|seen| < limit ==> dropped == [])
      {
        var peer := t[n].peers[k];
        if |peers| < limit {
          AppendKeepsSmallest(seen, peers, pong, peer);
          peers := peers + [peer];
        } else {
          var most := MostRecent(peers);
          ExchangeKeepsSmallest(seen, peers, dropped, pong, most, peer);
          if peer.lastPong < peers[most].lastPong {
            dropped := dropped + [peers[most]];
            peers := peers[most := peer];
          } else {
            dropped := dropped + [peer];
          }
        }
        seen := seen + [peer];
        assert t[n].peers[..k + 1] == t[n].peers[..k] + [peer];
      }
      assert t[n].peers[..|t[n].peers|] == t[n].peers;
      assert t[..n + 1][..n] == t[..n];
    }
    assert t[..|t|] == t;
  }

  method MostRecent(peers: seq<PeerData>) returns (most: nat)
    requires peers != []
    ensures most < |peers| && forall p :: p in peers ==> p.lastPong <= peers[most].lastPong
  {
    most := 0;
    for i := 0 to |peers|
      invariant most < |peers|
      invariant forall k :: 0 <= k < i ==> peers[k].lastPong <= peers[most].lastPong
    {
      if peers[i].lastPong > peers[most].lastPong {
        most := i;
      }
    }
  }

  // ---------------------------------------------------------------- the table

  class KademliaTable {
    const local: Local
    var buckets: Table

    ghost predicate Valid()
      reads this
    {
      TableOk(local, buckets)
    }

    constructor (local: Local)
      ensures Valid() && this.local == local && AllPeers(buckets) == []
    {
      this.local := local;
      buckets := seq(NUMBER_OF_BUCKETS, _ => Bucket([], []));
      new;
      NoPeersAtFirst(buckets);
    }

    method InsertNode(node: Node, now: nat) returns (peer: Option<PeerData>, inserted: bool)
      requires Valid()
      modifies this
      ensures Valid() && buckets == Insert(local, old(buckets), node, now)
      ensures inserted == Inserts(local, old(buckets), node)
      ensures peer ==
              if Known(old(buckets)[BucketOf(local, node.nodeId)], node.nodeId) then None
              else Some(NewPeer(node, now))
    {
      InsertIsOk(local, buckets, node, now);
      var n := BucketOf(local, node.nodeId);
      var b := buckets[n];
      if HasId(b.peers, node.nodeId) {
        return None, false;
      }
      if HasId(b.replacements, node.nodeId) {
        return None, false;
      }
      var newPeer := NewPeer(node, now);
      if |b.peers| == MAX_NODES_PER_BUCKET {
        InsertAsReplacement(newPeer, n);
        return Some(newPeer), false;
      } else {
        RemoveFromReplacements(node.nodeId, n);
        buckets := buckets[n := buckets[n].(peers := b.peers + [newPeer])];
        return Some(newPeer), true;
      }
    }

    /** The oldest replacement makes room for the new one. */
    method InsertAsReplacement(peer: PeerData, n: nat)
      requires n < |buckets|
      modifies this
      ensures buckets ==
              old(buckets)[n := old(buckets)[n].(replacements := WithReplacement(old(buckets)[n].replacements, peer))]
    {
      var replacements := buckets[n].replacements;
      if |replacements| >= MAX_NUMBER_OF_REPLACEMENTS {
        replacements := replacements[1..];
      }
      buckets := buckets[n := buckets[n].(replacements := replacements + [peer])];
    }

    /** Keeps, in order, the replacements with another id. */
    method RemoveFromReplacements(id: NodeId, n: nat)
      requires n < |buckets|
      modifies this
      ensures buckets ==
              old(buckets)[n := old(buckets)[n].(replacements := WithoutId(old(buckets)[n].replacements, id))]
      ensures !HasId(old(buckets)[n].replacements, id) ==> buckets == old(buckets)
    {
      var replacements, kept: seq<PeerData> := buckets[n].replacements, [];
      for i := 0 to |replacements|
        invariant kept == WithoutId(replacements[..i], id)
        invariant buckets == old(buckets)
        invariant !HasId(replacements, id) ==> kept == replacements[..i]
      {
        assert replacements[..i + 1][..i] == replacements[..i];
        if replacements[i].node.nodeId != id {
          kept := kept + [replacements[i]];
        }
      }
      assert replacements[..|replacements|] == replacements;
      buckets := buckets[n := buckets[n].(replacements := kept)];
    }

    method ReplacePeer(id: NodeId) returns (successor: Option<PeerData>)
      requires Valid()
      modifies this
      ensures Valid() && buckets == Replace(local, old(buckets), id) && successor == Successor(local, old(buckets), id)
    {
      ReplaceIsOk(local, buckets, id);
      DistanceIsSymmetric(local.digest(local.nodeId), local.digest(id));
      var n := BucketNumber(local.digest(local.nodeId), local.digest(id));
      var b := buckets[n];
      var i := IndexOf(b.peers, id);
      if i == |b.peers| {
        assert buckets[n := b] == buckets;
        return None;
      }
      if b.replacements != [] {
        var last := b.replacements[|b.replacements| - 1];
        buckets := buckets[n := Bucket(b.peers[i := last], b.replacements[..|b.replacements| - 1])];
        return Some(last);
      } else {
        buckets := buckets[n := b.(peers := b.peers[..i] + b.peers[i + 1..])];
        return None;
      }
    }

    /** A pong proves its peer, if it is still there. */
    method PongAnswered(id: NodeId, now: nat)
      requires Valid()
      modifies this
      ensures Valid()
      ensures forall other :: GetByNodeId(local, buckets, other) ==
                var before := GetByNodeId(local, old(buckets), other);
                if other == id && before.Some? then Some(Answered(before.value, now)) else before
    {
      var peer := GetByNodeId(local, buckets, id);
      if peer.None? {
        return;
      }
      Update(Answered(peer.value, now));
    }

    /** Records the hash of a ping; a revalidation ping also waits for its answer. */
    method UpdatePeerPing(id: NodeId, hash: Option<nat>, now: nat, revalidation: bool)
      requires Valid()
      modifies this
      ensures Valid()
      ensures forall other :: GetByNodeId(local, buckets, other) ==
                var before := GetByNodeId(local, old(buckets), other);
                if other == id && before.Some? then
                  Some(if revalidation then PingedForRevalidation(before.value, hash, now)
                       else Pinged(before.value, hash, now))
                else before
    {
      var peer := GetByNodeId(local, buckets, id);
      if peer.None? {
        return;
      }
      Update(if revalidation then PingedForRevalidation(peer.value, hash, now) else Pinged(peer.value, hash, now));
    }

    method Update(peer: PeerData)
      requires Valid()
      modifies this
      ensures Valid() && buckets == SetPeer(local, old(buckets), peer)
      ensures forall other :: GetByNodeId(local, buckets, other) ==
                if other == peer.node.nodeId && GetByNodeId(local, old(buckets), other).Some? then Some(peer)
                else GetByNodeId(local, old(buckets), other)
    {
      forall other
        ensures GetByNodeId(local, SetPeer(local, buckets, peer), other) ==
                if other == peer.node.nodeId && GetByNodeId(local, buckets, other).Some? then Some(peer)
                else GetByNodeId(local, buckets, other)
      {
        SetPeerIsOk(local, buckets, peer, other);
      }
      SetPeerIsOk(local, buckets, peer, 0);
      buckets := SetPeer(local, buckets, peer);
    }
  }

  function WithoutId(peers: seq<PeerData>, id: NodeId): seq<PeerData> {
    if peers == [] then []
    else
      var rest, last := WithoutId(peers[..|peers| - 1], id), peers[|peers| - 1];
      if last.node.nodeId != id then rest + [last] else rest
  }

  lemma {:induction false} NoPeersAtFirst(t: Table)
    requires forall n :: 0 <= n < |t| ==> t[n].peers == []
    ensures AllPeers(t) == []
  {
    if t != [] {
      NoPeersAtFirst(t[..|t| - 1]);
    }
  }
}
