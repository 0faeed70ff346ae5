/**
  The recursive lookup: ask the closest known peers for neighbours, three at a time, until
  nobody is left to ask. The table and the network answer through `Replies`, which may say
  something different every time.
 */
module Lookup {
  import opened Prelude
  import opened Kademlia

  const ALPHA: nat := 3

  /** At its `n`-th question: whether a peer can be asked now, and what it answers. */
  datatype Replies = Replies(available: (nat, NodeId) -> bool, answer: (nat, NodeId) -> seq<Node>)

  /** A peer that was asked, and when. */
  datatype Question = Question(at: nat, id: NodeId)

  /** No id is asked twice, and `asked` are the ids of the log. */
  ghost predicate LogOk(log: seq<Question>, asked: set<NodeId>) {
    && (forall i, j :: 0 <= i < j < |log| ==> log[i].id != log[j].id)
    && (forall i :: 0 <= i < |log| ==> log[i].id in asked)
    && (forall id :: id in asked ==> exists i :: 0 <= i < |log| && log[i].id == id)
  }

  predicate NodesIn(nodes: seq<Node>, universe: set<NodeId>) {
    forall i :: 0 <= i < |nodes| ==> nodes[i].nodeId in universe
  }

  ghost predicate AnswersIn(replies: Replies, universe: set<NodeId>) {
    forall n: nat, id: NodeId :: NodesIn(replies.answer(n, id), universe)
  }

  predicate DistinctNodes(nodes: seq<Node>) {
    forall i, j :: 0 <= i < j < |nodes| ==> nodes[i].nodeId != nodes[j].nodeId
  }

  function IdsOf(nodes: seq<Node>): set<NodeId> {
    set i | 0 <= i < |nodes| :: nodes[i].nodeId
  }

  /** Asked already, or not to be asked when it was this node's turn. */
  ghost predicate Settled(replies: Replies, asked: set<NodeId>, from: nat, until: nat, id: NodeId) {
    id in asked || exists n: nat :: from <= n < until && !replies.available(n, id)
  }

  /** One round: up to three peers that were not asked before are asked. */
  method AskRound(replies: Replies, universe: set<NodeId>, clock: nat, asked: set<NodeId>, ghost log: seq<Question>,
                  nodesToAsk: seq<Node>)
    returns (found: seq<Node>, queries: nat, asked': set<NodeId>, clock': nat, ghost log': seq<Question>)
    requires NodesIn(nodesToAsk, universe) && AnswersIn(replies, universe)
    requires asked <= universe && LogOk(log, asked)
    ensures queries <= ALPHA && NodesIn(found, universe) && clock <= clock'
    ensures asked <= asked' <= universe && |log'| == |log| + queries && log <= log'
    ensures LogOk(log', asked')
    ensures forall k :: |log| <= k < |log'| ==> IdsOf(replies.answer(log'[k].at, log'[k].id)) <= IdsOf(found)
    ensures queries > 0 ==> asked < asked'
    ensures queries == 0 ==> found == [] && asked' == asked
    ensures queries == 0 ==> forall i :: 0 <= i < |nodesToAsk| ==>
            Settled(replies, asked, clock, clock', nodesToAsk[i].nodeId)
  {
    found, queries, asked', clock', log' := [], 0, asked, clock, log;
    for i := 0 to |nodesToAsk|
      invariant queries < ALPHA && NodesIn(found, universe) && clock <= clock'
      invariant asked <= asked' <= universe && |log'| == |log| + queries && log <= log'
      invariant LogOk(log', asked')
      invariant forall k :: |log| <= k < |log'| ==> IdsOf(replies.answer(log'[k].at, log'[k].id)) <= IdsOf(found)
      invariant queries > 0 ==> asked < asked'
      invariant queries == 0 ==> found == [] && asked' == asked
      invariant queries == 0 ==> forall k :: 0 <= k < i ==> Settled(replies, asked, clock, clock', nodesToAsk[k].nodeId)
    {
      var id := nodesToAsk[i].nodeId;
      if id !in asked' {
        var available := replies.available(clock', id);
        clock' := clock' + 1;
        if !available {
          assert !replies.available(clock' - 1, id);
          continue;
        }
        queries := queries + 1;
        LogAppend(log', asked', clock', id);
        asked' := asked' + {id};
        log' := log' + [Question(clock', id)];
        assert NodesIn(replies.answer(clock', id), universe);
        IdsConcat(found, replies.answer(clock', id));
        found := found + replies.answer(clock', id);
      }
      if queries == ALPHA {
        break;
      }
    }
  }

  /** The nodes to ask stay the closest of all that were offered; a full list gives up its farthest. */
  method PeersToAskPush(peersToAsk: seq<Node>, distance: NodeId -> nat, node: Node, ghost offered: seq<Node>,
                        ghost dropped: seq<Node>)
    returns (r: seq<Node>, ghost dropped': seq<Node>)
    requires KeepsSmallest(offered, peersToAsk, dropped, (n: Node) => distance(n.nodeId))
    requires |peersToAsk| <= MAX_NODES_PER_BUCKET && (|peersToAsk| < MAX_NODES_PER_BUCKET ==> dropped == [])
    ensures KeepsSmallest(offered + [node], r, dropped', (n: Node) => distance(n.nodeId))
    ensures |r| == Min(MAX_NODES_PER_BUCKET, |peersToAsk| + 1) && (|r| < MAX_NODES_PER_BUCKET ==> dropped' == [])
  {
    ghost var key := (n: Node) => distance(n.nodeId);
    var newDistance := distance(node.nodeId);
    if |peersToAsk| < MAX_NODES_PER_BUCKET {
      AppendKeepsSmallest(offered, peersToAsk, key, node);
      return peersToAsk + [node], dropped;
    }
    var index: Option<nat>, highest: nat := None, 0;
    for i := 0 to |peersToAsk|
      invariant index.None? ==> highest == 0 && forall k :: 0 <= k < i ==> distance(peersToAsk[k].nodeId) <= newDistance
      invariant index.Some? ==>
                index.value < i && highest == distance(peersToAsk[index.value].nodeId) && newDistance < highest
      invariant index.Some? ==> forall k :: 0 <= k < i ==> distance(peersToAsk[k].nodeId) <= highest
    {
      var current := distance(peersToAsk[i].nodeId);
      if newDistance < current && current >= highest {
        highest, index := current, Some(i);
      }
    }
    if index.Some? {
      ExchangeKeepsSmallest(offered, peersToAsk, dropped, key, index.value, node);
      return peersToAsk[index.value := node], dropped + [peersToAsk[index.value]];
    } else {
      DropKeepsSmallest(offered, peersToAsk, dropped, key, node);
      return peersToAsk, dropped + [node];
    }
  }

  lemma DropKeepsSmallest<T(!new)>(all: seq<T>, kept: seq<T>, dropped: seq<T>, key: T -> nat, x: T)
    requires KeepsSmallest(all, kept, dropped, key)
    requires forall i :: 0 <= i < |kept| ==> key(kept[i]) <= key(x)
    ensures KeepsSmallest(all + [x], kept, dropped + [x], key)
  {
  }

  /** Offers every node that was not seen before. */
  method PushUnseen(found: seq<Node>, universe: set<NodeId>, distance: NodeId -> nat, peers: seq<Node>,
                    seen: set<NodeId>,
                    ghost heard: seq<Node>, ghost dropped: seq<Node>, localId: NodeId)
    returns (peers': seq<Node>, seen': set<NodeId>, ghost heard': seq<Node>, ghost dropped': seq<Node>)
    requires NodesIn(found, universe) && NodesIn(heard, universe)
    requires KeepsSmallest(heard, peers, dropped, (n: Node) => distance(n.nodeId))
    requires |peers| == Min(MAX_NODES_PER_BUCKET, |heard|) && (|peers| < MAX_NODES_PER_BUCKET ==> dropped == [])
    requires DistinctNodes(heard) && seen == {localId} + IdsOf(heard)
    ensures NodesIn(heard', universe) && heard <= heard'
    ensures KeepsSmallest(heard', peers', dropped', (n: Node) => distance(n.nodeId))
    ensures |peers'| == Min(MAX_NODES_PER_BUCKET, |heard'|) && (|peers'| < MAX_NODES_PER_BUCKET ==> dropped' == [])
    ensures DistinctNodes(heard') && seen' == {localId} + IdsOf(heard') && IdsOf(found) <= seen' && seen <= seen'
    ensures found == [] ==> peers' == peers
  {
    peers', seen', heard', dropped' := peers, seen, heard, dropped;
    for i := 0 to |found|
      invariant NodesIn(heard', universe) && heard <= heard'
      invariant KeepsSmallest(heard', peers', dropped', (n: Node) => distance(n.nodeId))
      invariant |peers'| == Min(MAX_NODES_PER_BUCKET, |heard'|) && (|peers'| < MAX_NODES_PER_BUCKET ==> dropped' == [])
      invariant DistinctNodes(heard') && seen' == {localId} + IdsOf(heard') && IdsOf(found[..i]) <= seen'
                && seen <= seen'
      invariant i == 0 ==> peers' == peers
    {
      var node := found[i];
      assert IdsOf(found[..i + 1]) == IdsOf(found[..i]) + {node.nodeId};
      if node.nodeId !in seen' {
        seen' := seen' + {node.nodeId};
        IdsAppend(heard', node);
        peers', dropped' := PeersToAskPush(peers', distance, node, heard', dropped');
        heard' := heard' + [node];
      }
    }
    assert found[..|found|] == found;
  }

  lemma IdsAppend(nodes: seq<Node>, node: Node)
    ensures IdsOf(nodes + [node]) == IdsOf(nodes) + {node.nodeId}
  {
    var more := nodes + [node];
    forall id | id in IdsOf(nodes) + {node.nodeId} ensures id in IdsOf(more) {
      if id in IdsOf(nodes) {
        var i :| 0 <= i < |nodes| && nodes[i].nodeId == id;
        assert more[i].nodeId == id;
      } else {
        assert more[|nodes|].nodeId == id;
      }
    }
  }

  /**
    The lookup ends, whatever is answered, once the ids it may hear of are finitely many. It
    asks no peer twice, it ends only when everybody on its list was asked or could not be, and
    its list holds the sixteen closest of all the nodes it heard of.
   */
  method RecursiveLookup(replies: Replies, universe: set<NodeId>, distance: NodeId -> nat, closest: seq<Node>,
                         localId: NodeId)
    returns (peersToAsk: seq<Node>, asked: set<NodeId>, ghost log: seq<Question>, ghost heard: seq<Node>,
             ghost dropped: seq<Node>, ghost from: nat, ghost until: nat)
    requires AnswersIn(replies, universe) && NodesIn(closest, universe)
    requires DistinctNodes(closest) && |closest| <= MAX_NODES_PER_BUCKET
    ensures LogOk(log, asked) && asked <= universe && |log| <= |universe|
    ensures forall k :: 0 <= k < |log| ==> IdsOf(replies.answer(log[k].at, log[k].id)) <= {localId} + IdsOf(heard)
    ensures closest <= heard && DistinctNodes(heard) && NodesIn(heard, universe)
    ensures KeepsSmallest(heard, peersToAsk, dropped, (n: Node) => distance(n.nodeId))
    ensures |peersToAsk| == Min(MAX_NODES_PER_BUCKET, |heard|)
    ensures forall i :: 0 <= i < |peersToAsk| ==> Settled(replies, asked, from, until, peersToAsk[i].nodeId)
  {
    var seen, clock := {localId} + IdsOf(closest), 0;
    asked, log, heard, dropped, peersToAsk := {}, [], closest, [], closest;
    while true
      invariant clock >= 0
      invariant asked <= universe && LogOk(log, asked)
      invariant forall k :: 0 <= k < |log| ==> IdsOf(replies.answer(log[k].at, log[k].id)) <= seen
      invariant closest <= heard && DistinctNodes(heard) && NodesIn(heard, universe)
      invariant KeepsSmallest(heard, peersToAsk, dropped, (n: Node) => distance(n.nodeId))
      invariant |peersToAsk| == Min(MAX_NODES_PER_BUCKET, |heard|)
                && (|peersToAsk| < MAX_NODES_PER_BUCKET ==> dropped == [])
      invariant seen == {localId} + IdsOf(heard)
      decreases universe - asked
    {
      from := clock;
      KeptAreIn(heard, peersToAsk, dropped, universe, distance);
      var found, queries;
      ghost var before := asked;
      found, queries, asked, clock, log := AskRound(replies, universe, clock, asked, log, peersToAsk);
      until := clock;
      peersToAsk, seen, heard, dropped :=
        PushUnseen(found, universe, distance, peersToAsk, seen, heard, dropped, localId);
      if queries == 0 {
        break;
      }
      assert universe - asked < universe - before;
    }
    LogFits(log, universe);
  }

  lemma KeptAreIn(heard: seq<Node>, kept: seq<Node>, dropped: seq<Node>, universe: set<NodeId>, distance: NodeId -> nat)
    requires KeepsSmallest(heard, kept, dropped, (n: Node) => distance(n.nodeId)) && NodesIn(heard, universe)
    ensures NodesIn(kept, universe)
  {
    forall i | 0 <= i < |kept| ensures kept[i].nodeId in universe {
      assert kept[i] in multiset(kept);
      assert kept[i] in multiset(heard);
    }
  }

  lemma {:induction false} LogFits(log: seq<Question>, universe: set<NodeId>)
    requires forall i, j :: 0 <= i < j < |log| ==> log[i].id != log[j].id
    requires forall i :: 0 <= i < |log| ==> log[i].id in universe
    ensures |log| <= |universe|
    decreases |log|
  {
    if log != [] {
      LogFits(log[..|log| - 1], universe - {log[|log| - 1].id});
    }
  }

  lemma LogAppend(log: seq<Question>, asked: set<NodeId>, at: nat, id: NodeId)
    requires LogOk(log, asked) && id !in asked
    ensures LogOk(log + [Question(at, id)], asked + {id})
  {
    var more := log + [Question(at, id)];
    forall x | x in asked + {id} ensures exists i :: 0 <= i < |more| && more[i].id == x {
      if x in asked {
        var i :| 0 <= i < |log| && log[i].id == x;
        assert more[i].id == x;
      } else {
        assert more[|log|].id == x;
      }
    }
  }

  lemma IdsConcat(a: seq<Node>, b: seq<Node>)
    ensures IdsOf(a) <= IdsOf(a + b) && IdsOf(b) <= IdsOf(a + b)
  {
    forall i | 0 <= i < |a| ensures a[i].nodeId in IdsOf(a + b) {
      assert (a + b)[i] == a[i];
    }
    forall i | 0 <= i < |b| ensures b[i].nodeId in IdsOf(a + b) {
      assert (a + b)[|a| + i] == b[i];
    }
  }
}
