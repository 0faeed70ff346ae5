/**
  The discovery tasks as steps on one shared table. The message server, the revalidation task,
  the lookups and the peer connections interleave freely between the places where they hold the
  table's lock; each step is one such place.
 */
module Discovery {
  import opened Prelude
  import opened Kademlia

  const REQUEST_EXPIRATION_SECONDS: nat := 60

  /** What happened, in order: the facts an endpoint proof and a neighbours quota are judged by. */
  datatype Event =
    | PingRecorded(id: NodeId, hash: nat)
    | PongEchoed(id: NodeId, hash: nat)
    | Asked(id: NodeId)
    | NeighborsAccepted(id: NodeId, count: nat)

  datatype Revalidation =
    | Checking(awaiting: set<NodeId>)
    | Pinging(toPing: seq<NodeId>, marked: set<NodeId>)
    | Panicked

  datatype State = State(table: Table, checkedPong: Option<NodeId>, revalidation: Revalidation, history: seq<Event>)

  datatype Step =
    | InsertNode(node: Node, now: nat)
    | RecordPing(id: NodeId, hash: Option<nat>, now: nat)
    | CheckPong(id: NodeId, echo: nat, expired: bool)
    | CommitPong(now: nat)
    | Neighbors(id: NodeId, nodes: seq<Node>, hashes: seq<Option<nat>>, expired: bool, now: nat)
    | AskNeighbors(id: NodeId, now: nat)
    | RevalidationTurn(id: NodeId, hash: Option<nat>, now: nat)
    | SelectForRevalidation(ids: seq<NodeId>)
    | PingForRevalidation(hash: Option<nat>, now: nat)
    | RevalidationTick
    | ConnectionFailed(id: NodeId)

  predicate TableSized(s: State) {
    |s.table| == NUMBER_OF_BUCKETS
  }

  // ---------------------------------------------------------------- the steps

  /** The table and the history once a ping's hash is recorded, if its peer is there. */
  function PingedTable(l: Local, t: Table, id: NodeId, hash: Option<nat>, now: nat, revalidation: bool): (t': Table)
    requires |t| == NUMBER_OF_BUCKETS
    ensures |t'| == NUMBER_OF_BUCKETS
  {
    var peer := GetByNodeId(l, t, id);
    if peer.None? then t
    else SetPeer(l, t, if revalidation then PingedForRevalidation(peer.value, hash, now)
                 else Pinged(peer.value, hash, now))
  }

  function PingedHistory(l: Local, t: Table, history: seq<Event>, id: NodeId, hash: Option<nat>): seq<Event>
    requires |t| == NUMBER_OF_BUCKETS
  {
    if GetByNodeId(l, t, id).Some? && hash.Some? then history + [PingRecorded(id, hash.value)] else history
  }

  function Ping(l: Local, s: State, id: NodeId, hash: Option<nat>, now: nat, revalidation: bool): State
    requires TableSized(s)
  {
    s.(table := PingedTable(l, s.table, id, hash, now, revalidation),
       history := PingedHistory(l, s.table, s.history, id, hash))
  }

  /** A neighbour is inserted, and pinged when that made it a peer. */
  function InsertOne(l: Local, s: State, node: Node, hash: Option<nat>, now: nat): (s': State)
    requires TableSized(s)
    ensures TableSized(s')
  {
    var inserted := s.(table := Insert(l, s.table, node, now));
    if Inserts(l, s.table, node) then Ping(l, inserted, node.nodeId, hash, now, false) else inserted
  }

  function InsertAll(l: Local, s: State, nodes: seq<Node>, hashes: seq<Option<nat>>, now: nat): (s': State)
    requires TableSized(s) && |hashes| == |nodes|
    ensures TableSized(s')
    decreases |nodes|
  {
    if nodes == [] then s
    else InsertAll(l, InsertOne(l, s, nodes[0], hashes[0], now), nodes[1..], hashes[1..], now)
  }

  /** A request counts what it was sent and is fulfilled at sixteen. */
  function Left(request: FindNodeRequest, sent: nat): Option<FindNodeRequest> {
    if sent == MAX_NODES_PER_BUCKET then None else Some(request.(nodesSent := sent))
  }

  function AcceptNeighbors(l: Local, s: State, peer: PeerData, sent: nat): State
    requires TableSized(s) && peer.findNodeRequest.Some? && sent >= peer.findNodeRequest.value.nodesSent
  {
    var request := peer.findNodeRequest.value;
    s.(table := SetPeer(l, s.table, peer.(findNodeRequest := Left(request, sent))),
       history := s.history + [NeighborsAccepted(peer.node.nodeId, sent - request.nodesSent)])
  }

  /** A neighbours message that is accepted, and the state its nodes are inserted into. */
  function Accepting(l: Local, s: State, from: NodeId, count: nat, expired: bool, now: nat): (r: Option<State>)
    requires TableSized(s)
    ensures r.Some? ==> TableSized(r.value)
  {
    var peer := GetByNodeId(l, s.table, from);
    if expired || peer.None? || peer.value.findNodeRequest.None? then None
    else
      var request := peer.value.findNodeRequest.value;
      var expired := now >= request.sentAt + REQUEST_EXPIRATION_SECONDS;
      if expired || request.nodesSent + count > MAX_NODES_PER_BUCKET then None
      else Some(AcceptNeighbors(l, s, peer.value, request.nodesSent + count))
  }

  /** A message to a request older than a minute ends the request. */
  function Forgetting(l: Local, s: State, from: NodeId, expired: bool, now: nat): (s': State)
    requires TableSized(s)
    ensures TableSized(s')
  {
    var peer := GetByNodeId(l, s.table, from);
    if expired || peer.None? || peer.value.findNodeRequest.None? then s
    else if now < peer.value.findNodeRequest.value.sentAt + REQUEST_EXPIRATION_SECONDS then s
    else s.(table := SetPeer(l, s.table, peer.value.(findNodeRequest := None)))
  }

  function ReceiveNeighbors(l: Local, s: State, from: NodeId, nodes: seq<Node>, hashes: seq<Option<nat>>,
                            expired: bool, now: nat): State
    requires TableSized(s) && |hashes| == |nodes|
  {
    var accepted := Accepting(l, s, from, |nodes|, expired, now);
    if accepted.Some? then InsertAll(l, accepted.value, nodes, hashes, now) else Forgetting(l, s, from, expired, now)
  }

  /** A revalidation turn takes its id's presence for granted. */
  function TakeTurn(l: Local, s: State, id: NodeId, hash: Option<nat>, now: nat): State
    requires TableSized(s) && s.revalidation.Checking?
  {
    var peer := GetByNodeId(l, s.table, id);
    if peer.None? then s.(revalidation := Panicked)
    else
      var turned := s.(table := SetPeer(l, s.table, Revalidated(peer.value)),
                       revalidation := Checking(s.revalidation.awaiting - {id}));
      if Revalidated(peer.value).liveness > 0 then turned
      else
        var successor := Successor(l, turned.table, id);
        var replaced := turned.(table := Replace(l, turned.table, id));
        if successor.None? then replaced else Ping(l, replaced, successor.value.node.nodeId, hash, now, false)
  }

  ghost predicate Enabled(l: Local, s: State, step: Step)
    requires TableSized(s)
  {
    match step
    case InsertNode(_, _) => true
    case RecordPing(_, _, _) => true
    case CheckPong(_, _, _) => s.checkedPong.None?
    case CommitPong(_) => s.checkedPong.Some?
    case Neighbors(_, nodes, hashes, _, _) => |hashes| == |nodes|
    case AskNeighbors(_, _) => true
    case RevalidationTurn(id, _, _) => s.revalidation.Checking? && id in s.revalidation.awaiting
    case SelectForRevalidation(ids) =>
      s.revalidation == Checking({}) && |ids| <= 3 && (forall id :: id in ids ==> InTable(s.table, id))
    case PingForRevalidation(_, _) => s.revalidation.Pinging? && s.revalidation.toPing != []
    case RevalidationTick => s.revalidation.Pinging? && s.revalidation.toPing == []
    case ConnectionFailed(_) => true
  }

  ghost function Next(l: Local, s: State, step: Step): State
    requires TableSized(s) && Enabled(l, s, step)
  {
    match step
    case InsertNode(node, now) => s.(table := Insert(l, s.table, node, now))
    case RecordPing(id, hash, now) => Ping(l, s, id, hash, now, false)
    case CheckPong(id, hash, expired) =>
      var peer := GetByNodeId(l, s.table, id);
      if expired || peer.None? || peer.value.lastPingHash != Some(hash) then s
      else s.(checkedPong := Some(id), history := s.history + [PongEchoed(id, hash)])
    case CommitPong(now) =>
      var peer := GetByNodeId(l, s.table, s.checkedPong.value);
      s.(checkedPong := None, table := if peer.None? then s.table else SetPeer(l, s.table, Answered(peer.value, now)))
    case Neighbors(id, nodes, hashes, expired, now) => ReceiveNeighbors(l, s, id, nodes, hashes, expired, now)
    case AskNeighbors(id, now) =>
      var peer := GetByNodeId(l, s.table, id);
      if peer.None? || peer.value.findNodeRequest.Some? then s
      else s.(table := SetPeer(l, s.table, peer.value.(findNodeRequest := Some(FindNodeRequest(0, now)))),
              history := s.history + [Asked(id)])
    case RevalidationTurn(id, hash, now) => TakeTurn(l, s, id, hash, now)
    case SelectForRevalidation(ids) => s.(revalidation := Pinging(ids, {}))
    case PingForRevalidation(hash, now) =>
      var id := s.revalidation.toPing[0];
      var moved := Pinging(s.revalidation.toPing[1..], s.revalidation.marked + {id});
      Ping(l, s, id, hash, now, true).(revalidation := moved)
    case RevalidationTick => s.(revalidation := Checking(s.revalidation.marked))
    case ConnectionFailed(id) => s.(table := Replace(l, s.table, id))
  }

  // ---------------------------------------------------------------- what the history says

  /** An unexpired pong echoed a ping hash that had been recorded for this id before. */
  ghost predicate ProvenBy(history: seq<Event>, id: NodeId) {
    exists hash, i, j :: 0 <= i < j < |history| && history[i] == PingRecorded(id, hash)
      && history[j] == PongEchoed(id, hash)
  }

  /** The neighbours accepted from `id` since it was last asked. */
  ghost function AcceptedSince(history: seq<Event>, id: NodeId): nat {
    if history == [] then 0
    else
      var before, last := AcceptedSince(history[..|history| - 1], id), history[|history| - 1];
      if last == Asked(id) then 0
      else if last.NeighborsAccepted? && last.id == id then before + last.count
      else before
  }

  ghost predicate Bounded(history: seq<Event>) {
    forall m, id :: 0 <= m <= |history| ==> AcceptedSince(history[..m], id) <= MAX_NODES_PER_BUCKET
  }

  lemma AcceptedAppend(history: seq<Event>, e: Event, id: NodeId)
    ensures AcceptedSince(history + [e], id) ==
            if e == Asked(id) then 0
            else if e.NeighborsAccepted? && e.id == id then AcceptedSince(history, id) + e.count
            else AcceptedSince(history, id)
  {
  }

  lemma BoundedAppend(history: seq<Event>, e: Event)
    requires Bounded(history)
    requires e.NeighborsAccepted? ==> AcceptedSince(history, e.id) + e.count <= MAX_NODES_PER_BUCKET
    ensures Bounded(history + [e])
  {
    forall m, id | 0 <= m <= |history| + 1 ensures AcceptedSince((history + [e])[..m], id) <= MAX_NODES_PER_BUCKET {
      if m <= |history| {
        assert (history + [e])[..m] == history[..m];
      } else {
        assert (history + [e])[..m] == history + [e];
        assert history[..|history|] == history;
        AcceptedAppend(history, e, id);
      }
    }
  }

  lemma ProvenAppend(history: seq<Event>, e: Event, id: NodeId)
    requires ProvenBy(history, id)
    ensures ProvenBy(history + [e], id)
  {
    var hash, i, j :| 0 <= i < j < |history| && history[i] == PingRecorded(id, hash)
      && history[j] == PongEchoed(id, hash);
    assert (history + [e])[i] == PingRecorded(id, hash) && (history + [e])[j] == PongEchoed(id, hash);
  }

  // ---------------------------------------------------------------- the invariant

  ghost predicate PeerOk(history: seq<Event>, p: PeerData) {
    && (p.isProven ==> ProvenBy(history, p.node.nodeId))
    && (p.lastPingHash.Some? ==> PingRecorded(p.node.nodeId, p.lastPingHash.value) in history)
    && (p.findNodeRequest.Some? ==> AcceptedSince(history, p.node.nodeId) == p.findNodeRequest.value.nodesSent)
  }

  predicate Untouched(p: PeerData) {
    !p.isProven && p.lastPingHash.None? && p.findNodeRequest.None?
  }

  ghost predicate PeersOk(l: Local, t: Table, history: seq<Event>) {
    && TableOk(l, t)
    && (forall id :: GetByNodeId(l, t, id).Some? ==> PeerOk(history, GetByNodeId(l, t, id).value))
    && (forall n, j :: 0 <= n < |t| && 0 <= j < |t[n].replacements| ==> Untouched(t[n].replacements[j]))
  }

  ghost predicate DiscoveryOk(l: Local, s: State) {
    && PeersOk(l, s.table, s.history)
    && Bounded(s.history)
    && (s.checkedPong.Some? ==> ProvenBy(s.history, s.checkedPong.value))
  }

  lemma FoundHasId(l: Local, t: Table, id: NodeId)
    requires |t| == NUMBER_OF_BUCKETS
    ensures GetByNodeId(l, t, id).Some? ==> GetByNodeId(l, t, id).value.node.nodeId == id
  {
  }

  lemma InsertPeersOk(l: Local, t: Table, history: seq<Event>, node: Node, now: nat)
    requires PeersOk(l, t, history)
    ensures PeersOk(l, Insert(l, t, node, now), history)
  {
    InsertIsOk(l, t, node, now);
    var t' := Insert(l, t, node, now);
    forall id | GetByNodeId(l, t', id).Some? ensures PeerOk(history, GetByNodeId(l, t', id).value) {
      InsertKeepsPeers(l, t, node, now, id);
    }
  }

  lemma SetPeersOk(l: Local, t: Table, history: seq<Event>, peer: PeerData)
    requires PeersOk(l, t, history) && PeerOk(history, peer)
    ensures PeersOk(l, SetPeer(l, t, peer), history)
  {
    SetPeerIsOk(l, t, peer, 0);
    var t' := SetPeer(l, t, peer);
    forall id | GetByNodeId(l, t', id).Some? ensures PeerOk(history, GetByNodeId(l, t', id).value) {
      SetPeerIsOk(l, t, peer, id);
    }
  }

  /** After a removal an id is found as before, except the removed one and its successor. */
  lemma ReplaceFinds(l: Local, t: Table, id: NodeId, other: NodeId)
    requires TableOk(l, t)
    ensures var found := GetByNodeId(l, Replace(l, t, id), other);
            || found == None
            || (found == Successor(l, t, id) && other != id)
            || (found == GetByNodeId(l, t, other) && other != id)
  {
  }

  lemma ReplacePeersOk(l: Local, t: Table, history: seq<Event>, id: NodeId)
    requires PeersOk(l, t, history)
    ensures PeersOk(l, Replace(l, t, id), history)
    ensures Successor(l, t, id).Some? ==> Untouched(Successor(l, t, id).value)
  {
    ReplaceIsOk(l, t, id);
    var t' := Replace(l, t, id);
    forall other | GetByNodeId(l, t', other).Some? ensures PeerOk(history, GetByNodeId(l, t', other).value) {
      ReplaceFinds(l, t, id, other);
    }
  }

  /** Events that do not count neighbours leave every peer as it should be. */
  lemma EventPeersOk(l: Local, t: Table, history: seq<Event>, e: Event)
    requires PeersOk(l, t, history) && (e.PingRecorded? || e.PongEchoed?)
    ensures PeersOk(l, t, history + [e])
  {
    forall id | GetByNodeId(l, t, id).Some? ensures PeerOk(history + [e], GetByNodeId(l, t, id).value) {
      EventPeerOk(history, e, GetByNodeId(l, t, id).value);
    }
  }

  lemma EventPeerOk(history: seq<Event>, e: Event, p: PeerData)
    requires PeerOk(history, p)
    requires e.PingRecorded? || e.PongEchoed? || e.id != p.node.nodeId
    ensures PeerOk(history + [e], p)
  {
    AcceptedAppend(history, e, p.node.nodeId);
    if p.isProven {
      ProvenAppend(history, e, p.node.nodeId);
    }
  }

  /** A counted event and the request it is counted in move together. */
  lemma CountPeersOk(l: Local, t: Table, history: seq<Event>, e: Event, peer: PeerData)
    requires PeersOk(l, t, history) && GetByNodeId(l, t, peer.node.nodeId).Some?
    requires e.Asked? || e.NeighborsAccepted?
    requires e.id == peer.node.nodeId && PeerOk(history + [e], peer)
    ensures PeersOk(l, SetPeer(l, t, peer), history + [e])
  {
    SetPeerIsOk(l, t, peer, 0);
    var t' := SetPeer(l, t, peer);
    forall id | GetByNodeId(l, t', id).Some? ensures PeerOk(history + [e], GetByNodeId(l, t', id).value) {
      SetPeerIsOk(l, t, peer, id);
      FoundHasId(l, t, id);
      if id != peer.node.nodeId {
        EventPeerOk(history, e, GetByNodeId(l, t, id).value);
      }
    }
  }

  lemma PingIsOk(l: Local, s: State, id: NodeId, hash: Option<nat>, now: nat, revalidation: bool)
    requires DiscoveryOk(l, s)
    ensures DiscoveryOk(l, Ping(l, s, id, hash, now, revalidation))
  {
    var peer := GetByNodeId(l, s.table, id);
    FoundHasId(l, s.table, id);
    if peer.Some? {
      var history := PingedHistory(l, s.table, s.history, id, hash);
      if hash.Some? {
        EventIsOk(l, s, PingRecorded(id, hash.value));
        assert PingRecorded(id, hash.value) in history;
      }
      assert PeersOk(l, s.table, history) && PeerOk(history, peer.value);
      SetPeersOk(l, s.table, history,
                 if revalidation then PingedForRevalidation(peer.value, hash, now) else Pinged(peer.value, hash, now));
    }
  }

  lemma EventIsOk(l: Local, s: State, e: Event)
    requires DiscoveryOk(l, s) && (e.PingRecorded? || e.PongEchoed?)
    ensures DiscoveryOk(l, s.(history := s.history + [e]))
  {
    EventPeersOk(l, s.table, s.history, e);
    BoundedAppend(s.history, e);
    if s.checkedPong.Some? {
      ProvenAppend(s.history, e, s.checkedPong.value);
    }
  }

  lemma InsertOneIsOk(l: Local, s: State, node: Node, hash: Option<nat>, now: nat)
    requires DiscoveryOk(l, s)
    ensures DiscoveryOk(l, InsertOne(l, s, node, hash, now))
  {
    InsertPeersOk(l, s.table, s.history, node, now);
    var inserted := s.(table := Insert(l, s.table, node, now));
    PingIsOk(l, inserted, node.nodeId, hash, now, false);
  }

  lemma {:induction false} InsertAllIsOk(l: Local, s: State, nodes: seq<Node>, hashes: seq<Option<nat>>, now: nat)
    requires DiscoveryOk(l, s) && |hashes| == |nodes|
    ensures DiscoveryOk(l, InsertAll(l, s, nodes, hashes, now))
    decreases |nodes|
  {
    if nodes != [] {
      InsertOneIsOk(l, s, nodes[0], hashes[0], now);
      InsertAllIsOk(l, InsertOne(l, s, nodes[0], hashes[0], now), nodes[1..], hashes[1..], now);
    }
  }

  lemma AcceptIsOk(l: Local, s: State, peer: PeerData, sent: nat)
    requires DiscoveryOk(l, s) && GetByNodeId(l, s.table, peer.node.nodeId) == Some(peer)
    requires peer.findNodeRequest.Some? && peer.findNodeRequest.value.nodesSent <= sent <= MAX_NODES_PER_BUCKET
    ensures DiscoveryOk(l, AcceptNeighbors(l, s, peer, sent))
  {
    var e := NeighborsAccepted(peer.node.nodeId, sent - peer.findNodeRequest.value.nodesSent);
    assert PeerOk(s.history, peer);
    AcceptPeerOk(s.history, peer, sent);
    var peer' := peer.(findNodeRequest := Left(peer.findNodeRequest.value, sent));
    assert AcceptNeighbors(l, s, peer, sent) == s.(table := SetPeer(l, s.table, peer'), history := s.history + [e]);
    CountIsOk(l, s, e, peer');
  }

  lemma CountIsOk(l: Local, s: State, e: Event, peer: PeerData)
    requires DiscoveryOk(l, s) && GetByNodeId(l, s.table, peer.node.nodeId).Some?
    requires e.Asked? || (e.NeighborsAccepted? && AcceptedSince(s.history, e.id) + e.count <= MAX_NODES_PER_BUCKET)
    requires e.id == peer.node.nodeId && PeerOk(s.history + [e], peer)
    ensures DiscoveryOk(l, s.(table := SetPeer(l, s.table, peer), history := s.history + [e]))
  {
    CountPeersOk(l, s.table, s.history, e, peer);
    BoundedAppend(s.history, e);
    if s.checkedPong.Some? {
      ProvenAppend(s.history, e, s.checkedPong.value);
    }
  }

  lemma AcceptPeerOk(history: seq<Event>, peer: PeerData, sent: nat)
    requires PeerOk(history, peer)
    requires peer.findNodeRequest.Some? && peer.findNodeRequest.value.nodesSent <= sent
    ensures PeerOk(history + [NeighborsAccepted(peer.node.nodeId, sent - peer.findNodeRequest.value.nodesSent)],
                   peer.(findNodeRequest := Left(peer.findNodeRequest.value, sent)))
  {
    var e := NeighborsAccepted(peer.node.nodeId, sent - peer.findNodeRequest.value.nodesSent);
    AcceptedAppend(history, e, peer.node.nodeId);
    if peer.isProven {
      ProvenAppend(history, e, peer.node.nodeId);
    }
  }

  lemma AcceptingIsOk(l: Local, s: State, from: NodeId, count: nat, expired: bool, now: nat, id: NodeId)
    requires DiscoveryOk(l, s) && Accepting(l, s, from, count, expired, now).Some?
    ensures var s' := Accepting(l, s, from, count, expired, now).value;
            && DiscoveryOk(l, s') && s'.revalidation == s.revalidation
            && (GetByNodeId(l, s'.table, id).Some? <==> GetByNodeId(l, s.table, id).Some?)
  {
    var peer := GetByNodeId(l, s.table, from).value;
    FoundHasId(l, s.table, from);
    assert PeerOk(s.history, peer);
    var sent := peer.findNodeRequest.value.nodesSent + count;
    assert Accepting(l, s, from, count, expired, now) == Some(AcceptNeighbors(l, s, peer, sent));
    AcceptIsOk(l, s, peer, sent);
    AcceptFinds(l, s, peer, sent, id);
  }

  lemma AcceptFinds(l: Local, s: State, peer: PeerData, sent: nat, id: NodeId)
    requires TableOk(l, s.table)
    requires peer.findNodeRequest.Some? && sent >= peer.findNodeRequest.value.nodesSent
    ensures var s' := AcceptNeighbors(l, s, peer, sent);
            GetByNodeId(l, s'.table, id).Some? <==> GetByNodeId(l, s.table, id).Some?
  {
    SetPeerIsOk(l, s.table, peer.(findNodeRequest := Left(peer.findNodeRequest.value, sent)), id);
  }

  lemma ForgettingIsOk(l: Local, s: State, from: NodeId, expired: bool, now: nat, id: NodeId)
    requires DiscoveryOk(l, s)
    ensures var s' := Forgetting(l, s, from, expired, now);
            && DiscoveryOk(l, s') && s'.revalidation == s.revalidation
            && (GetByNodeId(l, s'.table, id).Some? <==> GetByNodeId(l, s.table, id).Some?)
  {
    var peer := GetByNodeId(l, s.table, from);
    if peer.Some? {
      assert PeerOk(s.history, peer.value);
      SetPeersOk(l, s.table, s.history, peer.value.(findNodeRequest := None));
      SetPeerIsOk(l, s.table, peer.value.(findNodeRequest := None), id);
    }
  }

  lemma NeighborsIsOk(l: Local, s: State, from: NodeId, nodes: seq<Node>, hashes: seq<Option<nat>>, expired: bool,
                      now: nat)
    requires DiscoveryOk(l, s) && |hashes| == |nodes|
    ensures DiscoveryOk(l, ReceiveNeighbors(l, s, from, nodes, hashes, expired, now))
  {
    var accepted := Accepting(l, s, from, |nodes|, expired, now);
    if accepted.Some? {
      AcceptingIsOk(l, s, from, |nodes|, expired, now, from);
      InsertAllIsOk(l, accepted.value, nodes, hashes, now);
    } else {
      ForgettingIsOk(l, s, from, expired, now, from);
    }
  }

  lemma AskIsOk(l: Local, s: State, id: NodeId, now: nat)
    requires DiscoveryOk(l, s)
    ensures DiscoveryOk(l, Next(l, s, AskNeighbors(id, now)))
  {
    var peer := GetByNodeId(l, s.table, id);
    FoundHasId(l, s.table, id);
    if peer.Some? && peer.value.findNodeRequest.None? {
      var e := Asked(id);
      assert PeerOk(s.history, peer.value);
      AcceptedAppend(s.history, e, id);
      if peer.value.isProven {
        ProvenAppend(s.history, e, id);
      }
      CountIsOk(l, s, e, peer.value.(findNodeRequest := Some(FindNodeRequest(0, now))));
    }
  }

  lemma PongIsOk(l: Local, s: State, step: Step)
    requires DiscoveryOk(l, s) && Enabled(l, s, step) && (step.CheckPong? || step.CommitPong?)
    ensures DiscoveryOk(l, Next(l, s, step))
  {
    if step.CheckPong? {
      var peer, e := GetByNodeId(l, s.table, step.id), PongEchoed(step.id, step.echo);
      FoundHasId(l, s.table, step.id);
      if peer.Some? && peer.value.lastPingHash == Some(step.echo) {
        EventIsOk(l, s, e);
        assert PeerOk(s.history, peer.value);
        var i :| 0 <= i < |s.history| && s.history[i] == PingRecorded(step.id, step.echo);
        assert (s.history + [e])[i] == PingRecorded(step.id, step.echo) && (s.history + [e])[|s.history|] == e;
        assert ProvenBy(s.history + [e], step.id);
      }
    } else {
      var peer := GetByNodeId(l, s.table, s.checkedPong.value);
      FoundHasId(l, s.table, s.checkedPong.value);
      if peer.Some? {
        assert PeerOk(s.history, peer.value);
        SetPeersOk(l, s.table, s.history, Answered(peer.value, step.now));
      }
    }
  }

  lemma TurnIsOk(l: Local, s: State, id: NodeId, hash: Option<nat>, now: nat)
    requires DiscoveryOk(l, s) && s.revalidation.Checking?
    ensures DiscoveryOk(l, TakeTurn(l, s, id, hash, now))
  {
    var peer := GetByNodeId(l, s.table, id);
    if peer.Some? {
      assert PeerOk(s.history, peer.value);
      SetPeersOk(l, s.table, s.history, Revalidated(peer.value));
      var turned := s.(table := SetPeer(l, s.table, Revalidated(peer.value)),
                       revalidation := Checking(s.revalidation.awaiting - {id}));
      ReplacePeersOk(l, turned.table, s.history, id);
      var successor := Successor(l, turned.table, id);
      if successor.Some? {
        PingIsOk(l, turned.(table := Replace(l, turned.table, id)), successor.value.node.nodeId, hash, now, false);
      }
    }
  }

  /** Every step of every task keeps the invariant. */
  lemma StepIsOk(l: Local, s: State, step: Step)
    requires DiscoveryOk(l, s) && Enabled(l, s, step)
    ensures DiscoveryOk(l, Next(l, s, step))
  {
    match step
    case InsertNode(node, now) => InsertPeersOk(l, s.table, s.history, node, now);
    case RecordPing(id, hash, now) => PingIsOk(l, s, id, hash, now, false);
    case CheckPong(_, _, _) => PongIsOk(l, s, step);
    case CommitPong(_) => PongIsOk(l, s, step);
    case Neighbors(id, nodes, hashes, expired, now) => NeighborsIsOk(l, s, id, nodes, hashes, expired, now);
    case AskNeighbors(id, now) => AskIsOk(l, s, id, now);
    case RevalidationTurn(id, hash, now) => TurnIsOk(l, s, id, hash, now);
    case PingForRevalidation(hash, now) => PingIsOk(l, s, s.revalidation.toPing[0], hash, now, true);
    case ConnectionFailed(id) => ReplacePeersOk(l, s.table, s.history, id);
    case _ =>
  }

  // ---------------------------------------------------------------- runs

  ghost function Initial(): State {
    State(seq(NUMBER_OF_BUCKETS, _ => Bucket([], [])), None, Checking({}), [])
  }

  /** A finite interleaving of the tasks, from any state. */
  ghost predicate Run(l: Local, states: seq<State>, steps: seq<Step>) {
    && |states| == |steps| + 1
    && (forall k :: 0 <= k < |steps| ==> StepsTo(l, states[k], steps[k], states[k + 1]))
  }

  ghost predicate StepsTo(l: Local, s: State, step: Step, s': State) {
    TableSized(s) && Enabled(l, s, step) && s' == Next(l, s, step)
  }

  lemma {:induction false} RunIsOk(l: Local, states: seq<State>, steps: seq<Step>, k: nat)
    requires Run(l, states, steps) && DiscoveryOk(l, states[0]) && k < |states|
    ensures DiscoveryOk(l, states[k])
  {
    if k > 0 {
      RunIsOk(l, states, steps, k - 1);
      assert StepsTo(l, states[k - 1], steps[k - 1], states[k]);
      StepIsOk(l, states[k - 1], steps[k - 1]);
    }
  }

  lemma InitialIsOk(l: Local)
    ensures DiscoveryOk(l, Initial())
  {
  }

  /** In every interleaving a proven peer once echoed, in an unexpired pong, a ping hash recorded for it before. */
  lemma ProvenPeerAnsweredPing(l: Local, states: seq<State>, steps: seq<Step>, k: nat, id: NodeId)
    requires Run(l, states, steps) && states[0] == Initial() && k < |states|
    requires TableSized(states[k]) && GetByNodeId(l, states[k].table, id).Some?
             && GetByNodeId(l, states[k].table, id).value.isProven
    ensures ProvenBy(states[k].history, id)
  {
    InitialIsOk(l);
    RunIsOk(l, states, steps, k);
    FoundHasId(l, states[k].table, id);
    assert PeerOk(states[k].history, GetByNodeId(l, states[k].table, id).value);
  }

  /** All neighbours accepted from `id` in a stretch of history. */
  ghost function Accepted(history: seq<Event>, id: NodeId): nat {
    if history == [] then 0
    else
      var last := history[|history| - 1];
      Accepted(history[..|history| - 1], id) + if last.NeighborsAccepted? && last.id == id then last.count else 0
  }

  /** In every interleaving at most sixteen neighbours are accepted from one request to the next. */
  lemma NeighborsPerRequest(l: Local, states: seq<State>, steps: seq<Step>, k: nat, id: NodeId, i: nat, j: nat)
    requires Run(l, states, steps) && states[0] == Initial() && k < |states|
    requires i < j <= |states[k].history| && states[k].history[i] == Asked(id)
    requires forall m :: i < m < j ==> states[k].history[m] != Asked(id)
    ensures Accepted(states[k].history[i + 1..j], id) <= MAX_NODES_PER_BUCKET
  {
    InitialIsOk(l);
    RunIsOk(l, states, steps, k);
    AcceptedSinceIsAccepted(states[k].history, id, i, j);
  }

  lemma {:induction false} AcceptedSinceIsAccepted(history: seq<Event>, id: NodeId, i: nat, j: nat)
    requires i < j <= |history| && history[i] == Asked(id)
    requires forall m :: i < m < j ==> history[m] != Asked(id)
    ensures AcceptedSince(history[..j], id) == Accepted(history[i + 1..j], id)
    decreases j
  {
    assert history[..j][..j - 1] == history[..j - 1];
    if j > i + 1 {
      AcceptedSinceIsAccepted(history, id, i, j - 1);
      assert history[i + 1..j][..j - i - 2] == history[i + 1..j - 1];
    }
  }

  // ---------------------------------------------------------------- ids awaiting revalidation

  ghost predicate Found(l: Local, s: State, id: NodeId)
    requires TableSized(s)
  {
    GetByNodeId(l, s.table, id).Some?
  }

  /** The ids the revalidation task will still look up. */
  ghost function Pending(s: State): set<NodeId> {
    match s.revalidation
    case Checking(awaiting) => awaiting
    case Pinging(toPing, marked) => (set id | id in toPing) + marked
    case Panicked => {}
  }

  ghost predicate AllPresent(l: Local, s: State)
    requires TableSized(s)
  {
    s.revalidation != Panicked && forall id :: id in Pending(s) ==> Found(l, s, id)
  }

  /** A connection breaks to a peer whose revalidation is under way. */
  ghost predicate Disrupts(s: State, step: Step) {
    step.ConnectionFailed? && step.id in Pending(s)
  }

  ghost predicate Expires(l: Local, s: State, step: Step, id: NodeId)
    requires TableSized(s)
  {
    && step.RevalidationTurn? && step.id == id
    && GetByNodeId(l, s.table, id).Some? && Revalidated(GetByNodeId(l, s.table, id).value).liveness == 0
  }

  lemma PingKeepsFound(l: Local, s: State, id: NodeId, hash: Option<nat>, now: nat, revalidation: bool, other: NodeId)
    requires DiscoveryOk(l, s)
    ensures Found(l, Ping(l, s, id, hash, now, revalidation), other) <==> Found(l, s, other)
  {
    var peer := GetByNodeId(l, s.table, id);
    if peer.Some? {
      var pinged := if revalidation then PingedForRevalidation(peer.value, hash, now)
                    else Pinged(peer.value, hash, now);
      SetPeerIsOk(l, s.table, pinged, other);
    }
  }

  /** Inserting a node makes it a peer exactly when `Inserts` says so, and loses nobody. */
  lemma InsertOneFinds(l: Local, s: State, node: Node, hash: Option<nat>, now: nat, id: NodeId)
    requires DiscoveryOk(l, s)
    ensures Found(l, InsertOne(l, s, node, hash, now), id) <==>
            Found(l, s, id) || (node.nodeId == id && Inserts(l, s.table, node))
  {
    InsertPeersOk(l, s.table, s.history, node, now);
    InsertKeepsPeers(l, s.table, node, now, id);
    PingKeepsFound(l, s.(table := Insert(l, s.table, node, now)), node.nodeId, hash, now, false, id);
  }

  /** One of the nodes has this id and becomes a peer when its turn comes. */
  ghost predicate Gains(l: Local, s: State, nodes: seq<Node>, hashes: seq<Option<nat>>, now: nat, id: NodeId)
    requires TableSized(s) && |hashes| == |nodes|
    decreases |nodes|
  {
    && nodes != []
    && ((nodes[0].nodeId == id && Inserts(l, s.table, nodes[0]))
        || Gains(l, InsertOne(l, s, nodes[0], hashes[0], now), nodes[1..], hashes[1..], now, id))
  }

  lemma {:induction false} InsertAllFinds(l: Local, s: State, nodes: seq<Node>, hashes: seq<Option<nat>>, now: nat,
                                          id: NodeId)
    requires DiscoveryOk(l, s) && |hashes| == |nodes|
    ensures Found(l, InsertAll(l, s, nodes, hashes, now), id) <==>
            Found(l, s, id) || Gains(l, s, nodes, hashes, now, id)
    decreases |nodes|
  {
    if nodes != [] {
      InsertOneIsOk(l, s, nodes[0], hashes[0], now);
      InsertOneFinds(l, s, nodes[0], hashes[0], now, id);
      InsertAllFinds(l, InsertOne(l, s, nodes[0], hashes[0], now), nodes[1..], hashes[1..], now, id);
    }
  }

  lemma ReplaceKeepsFound(l: Local, t: Table, id: NodeId, other: NodeId)
    requires TableOk(l, t)
    ensures GetByNodeId(l, Replace(l, t, id), id).None?
    ensures other != id && GetByNodeId(l, t, other).Some? ==> GetByNodeId(l, Replace(l, t, id), other).Some?
  {
    ReplaceIsOk(l, t, id);
    ReplaceRemovesOne(l, t, id, other);
    GetAgreesWithScan(l, t, other);
    GetAgreesWithScan(l, Replace(l, t, id), other);
    GetAgreesWithScan(l, Replace(l, t, id), id);
  }

  /** The message makes this id a peer. */
  ghost predicate MessageGains(l: Local, s: State, from: NodeId, nodes: seq<Node>, hashes: seq<Option<nat>>,
                               expired: bool, now: nat, id: NodeId)
    requires TableSized(s) && |hashes| == |nodes|
  {
    var accepted := Accepting(l, s, from, |nodes|, expired, now);
    accepted.Some? && Gains(l, accepted.value, nodes, hashes, now, id)
  }

  lemma NeighborsFind(l: Local, s: State, from: NodeId, nodes: seq<Node>, hashes: seq<Option<nat>>,
                      expired: bool, now: nat, id: NodeId)
    requires DiscoveryOk(l, s) && |hashes| == |nodes|
    ensures Found(l, ReceiveNeighbors(l, s, from, nodes, hashes, expired, now), id) <==>
            Found(l, s, id) || MessageGains(l, s, from, nodes, hashes, expired, now, id)
  {
    var accepted := Accepting(l, s, from, |nodes|, expired, now);
    if accepted.Some? {
      AcceptingIsOk(l, s, from, |nodes|, expired, now, id);
      InsertAllFinds(l, accepted.value, nodes, hashes, now, id);
    } else {
      ForgettingIsOk(l, s, from, expired, now, id);
    }
  }

  lemma TurnKeepsFound(l: Local, s: State, id: NodeId, hash: Option<nat>, now: nat, other: NodeId)
    requires DiscoveryOk(l, s) && s.revalidation.Checking? && Found(l, s, other)
    ensures Found(l, TakeTurn(l, s, id, hash, now), other) <==> !Expires(l, s, RevalidationTurn(id, hash, now), other)
  {
    var peer := GetByNodeId(l, s.table, id);
    FoundHasId(l, s.table, id);
    if peer.Some? {
      assert PeerOk(s.history, peer.value);
      SetPeersOk(l, s.table, s.history, Revalidated(peer.value));
      SetPeerIsOk(l, s.table, Revalidated(peer.value), other);
      var turned := s.(table := SetPeer(l, s.table, Revalidated(peer.value)),
                       revalidation := Checking(s.revalidation.awaiting - {id}));
      ReplacePeersOk(l, turned.table, s.history, id);
      ReplaceKeepsFound(l, turned.table, id, other);
      var successor := Successor(l, turned.table, id);
      if successor.Some? {
        PingKeepsFound(l, turned.(table := Replace(l, turned.table, id)), successor.value.node.nodeId, hash, now, false,
                       other);
      }
    }
  }

  /** A peer leaves the table exactly when its own connection fails or its own turn ends its life. */
  lemma StepKeepsFound(l: Local, s: State, step: Step, id: NodeId)
    requires DiscoveryOk(l, s) && Enabled(l, s, step) && Found(l, s, id)
    ensures TableSized(Next(l, s, step))
    ensures Found(l, Next(l, s, step), id) <==> step != ConnectionFailed(id) && !Expires(l, s, step, id)
  {
    StepIsOk(l, s, step);
    match step
    case InsertNode(node, now) => InsertKeepsPeers(l, s.table, node, now, id);
    case RecordPing(other, hash, now) => PingKeepsFound(l, s, other, hash, now, false, id);
    case CommitPong(now) =>
      var peer := GetByNodeId(l, s.table, s.checkedPong.value);
      if peer.Some? {
        SetPeerIsOk(l, s.table, Answered(peer.value, now), id);
      }
    case Neighbors(from, nodes, hashes, expired, now) => NeighborsFind(l, s, from, nodes, hashes, expired, now, id);
    case AskNeighbors(other, now) =>
      var peer := GetByNodeId(l, s.table, other);
      if peer.Some? {
        SetPeerIsOk(l, s.table, peer.value.(findNodeRequest := Some(FindNodeRequest(0, now))), id);
      }
    case RevalidationTurn(other, hash, now) => TurnKeepsFound(l, s, other, hash, now, id);
    case PingForRevalidation(hash, now) => PingKeepsFound(l, s, s.revalidation.toPing[0], hash, now, true, id);
    case ConnectionFailed(other) => ReplaceKeepsFound(l, s.table, other, id);
    case _ =>
  }

  /** From a state where every pending id is in the table, the next one is such a state exactly without a disruption. */
  lemma StepKeepsPresent(l: Local, s: State, step: Step)
    requires DiscoveryOk(l, s) && Enabled(l, s, step) && AllPresent(l, s)
    ensures TableSized(Next(l, s, step))
    ensures AllPresent(l, Next(l, s, step)) <==> !Disrupts(s, step)
  {
    StepIsOk(l, s, step);
    var s' := Next(l, s, step);
    PendingOnlyFromTable(l, s, step);
    if Disrupts(s, step) {
      StepKeepsFound(l, s, step, step.id);
      assert step.id in Pending(s');
    } else {
      forall id | id in Pending(s') ensures Found(l, s', id) {
        StepKeepsFound(l, s, step, id);
      }
    }
  }

  /** Only ids found in the table become pending, a disrupted id stays pending, and a turn settles its id. */
  lemma PendingOnlyFromTable(l: Local, s: State, step: Step)
    requires DiscoveryOk(l, s) && Enabled(l, s, step) && AllPresent(l, s)
    ensures Next(l, s, step).revalidation != Panicked
    ensures forall id :: id in Pending(Next(l, s, step)) ==> Found(l, s, id)
    ensures step.ConnectionFailed? ==> Pending(Next(l, s, step)) == Pending(s)
    ensures step.RevalidationTurn? ==> step.id !in Pending(Next(l, s, step))
  {
    if step.SelectForRevalidation? {
      forall id | id in step.ids ensures Found(l, s, id) {
        GetAgreesWithScan(l, s.table, id);
      }
    } else if step.RevalidationTurn? {
      assert Found(l, s, step.id);
    } else if !step.PingForRevalidation? && !step.RevalidationTick? {
      OthersKeepRevalidation(l, s, step);
    }
  }

  predicate OfRevalidation(step: Step) {
    step.RevalidationTurn? || step.SelectForRevalidation? || step.PingForRevalidation? || step.RevalidationTick?
  }

  lemma OthersKeepRevalidation(l: Local, s: State, step: Step)
    requires TableSized(s) && Enabled(l, s, step) && !OfRevalidation(step)
    ensures Next(l, s, step).revalidation == s.revalidation
  {
    if step.Neighbors? {
      NeighborsKeepRevalidation(l, s, step.id, step.nodes, step.hashes, step.expired, step.now);
    }
  }

  lemma NeighborsKeepRevalidation(l: Local, s: State, from: NodeId, nodes: seq<Node>, hashes: seq<Option<nat>>,
                                  expired: bool, now: nat)
    requires TableSized(s) && |hashes| == |nodes|
    ensures ReceiveNeighbors(l, s, from, nodes, hashes, expired, now).revalidation == s.revalidation
  {
    var accepted := Accepting(l, s, from, |nodes|, expired, now);
    if accepted.Some? {
      InsertAllKeepsRevalidation(l, accepted.value, nodes, hashes, now);
    }
  }

  lemma {:induction false} InsertAllKeepsRevalidation(l: Local, s: State, nodes: seq<Node>, hashes: seq<Option<nat>>,
                                                      now: nat)
    requires TableSized(s) && |hashes| == |nodes|
    ensures InsertAll(l, s, nodes, hashes, now).revalidation == s.revalidation
    decreases |nodes|
  {
    if nodes != [] {
      InsertAllKeepsRevalidation(l, InsertOne(l, s, nodes[0], hashes[0], now), nodes[1..], hashes[1..], now);
    }
  }

  /**
    Over every interleaving: every id awaiting revalidation is in the table at every moment
    exactly when no connection to such an id fails.
   */
  lemma PendingStaysPresent(l: Local, states: seq<State>, steps: seq<Step>)
    requires Run(l, states, steps) && states[0] == Initial()
    ensures forall k :: 0 <= k < |states| ==> TableSized(states[k])
    ensures (forall k :: 0 <= k < |states| ==> AllPresent(l, states[k])) <==>
            (forall k :: 0 <= k < |steps| ==> !Disrupts(states[k], steps[k]))
  {
    InitialIsOk(l);
    forall k | 0 <= k < |states| ensures DiscoveryOk(l, states[k]) {
      RunIsOk(l, states, steps, k);
    }
    if forall k :: 0 <= k < |states| ==> AllPresent(l, states[k]) {
      forall k | 0 <= k < |steps| ensures !Disrupts(states[k], steps[k]) {
        assert StepsTo(l, states[k], steps[k], states[k + 1]);
        StepKeepsPresent(l, states[k], steps[k]);
      }
    }
    if forall k :: 0 <= k < |steps| ==> !Disrupts(states[k], steps[k]) {
      forall k | 0 <= k < |states| ensures AllPresent(l, states[k]) {
        UndisruptedIsPresent(l, states, steps, k);
      }
    }
  }

  lemma {:induction false} UndisruptedIsPresent(l: Local, states: seq<State>, steps: seq<Step>, k: nat)
    requires Run(l, states, steps) && states[0] == Initial() && k < |states|
    requires forall m :: 0 <= m < k ==> !Disrupts(states[m], steps[m])
    ensures DiscoveryOk(l, states[k]) && AllPresent(l, states[k])
  {
    InitialIsOk(l);
    RunIsOk(l, states, steps, k);
    if k > 0 {
      UndisruptedIsPresent(l, states, steps, k - 1);
      assert StepsTo(l, states[k - 1], steps[k - 1], states[k]);
      StepKeepsPresent(l, states[k - 1], steps[k - 1]);
    }
  }

  // ---------------------------------------------------------------- when the revalidation task panics

  ghost predicate SuccessorIs(l: Local, t: Table, removed: NodeId, id: NodeId)
    requires |t| == NUMBER_OF_BUCKETS
  {
    Successor(l, t, removed).Some? && Successor(l, t, removed).value.node.nodeId == id
  }

  /** The step makes `id` a peer: by an insertion, or as the replacement of a removed peer. */
  ghost predicate Brings(l: Local, s: State, step: Step, id: NodeId)
    requires TableSized(s) && Enabled(l, s, step)
  {
    match step
    case InsertNode(node, _) => node.nodeId == id && Inserts(l, s.table, node)
    case Neighbors(from, nodes, hashes, expired, now) => MessageGains(l, s, from, nodes, hashes, expired, now, id)
    case RevalidationTurn(other, _, _) => Expires(l, s, step, other) && SuccessorIs(l, s.table, other, id)
    case ConnectionFailed(other) => SuccessorIs(l, s.table, other, id)
    case _ => false
  }

  /** A replacement that takes a removed peer's slot is found there. */
  lemma SuccessorArrives(l: Local, t: Table, removed: NodeId, id: NodeId)
    requires TableOk(l, t) && GetByNodeId(l, t, id).None?
    ensures GetByNodeId(l, Replace(l, t, removed), id).Some? <==> SuccessorIs(l, t, removed, id)
  {
    var t' := Replace(l, t, removed);
    ReplaceFinds(l, t, removed, id);
    ReplaceIsOk(l, t, removed);
    FoundHasId(l, t', id);
    if SuccessorIs(l, t, removed, id) {
      var n := BucketOf(l, removed);
      var i := IndexOf(t[n].peers, removed);
      assert t'[n].peers[i].node.nodeId == id;
      GetAgreesWithScan(l, t', id);
    }
  }

  lemma SetPeerKeepsSuccessor(l: Local, t: Table, peer: PeerData, removed: NodeId)
    requires TableOk(l, t)
    ensures Successor(l, SetPeer(l, t, peer), removed) == Successor(l, t, removed)
  {
    var n := BucketOf(l, peer.node.nodeId);
    var peers, i := t[n].peers, IndexOf(t[n].peers, peer.node.nodeId);
    if i < |peers| {
      SameIdsSameIndex(peers, peers[i := peer], removed);
    }
  }

  lemma TurnBrings(l: Local, s: State, id: NodeId, hash: Option<nat>, now: nat, other: NodeId)
    requires DiscoveryOk(l, s) && s.revalidation.Checking? && !Found(l, s, other)
    ensures Found(l, TakeTurn(l, s, id, hash, now), other) <==>
            Expires(l, s, RevalidationTurn(id, hash, now), id) && SuccessorIs(l, s.table, id, other)
  {
    var peer := GetByNodeId(l, s.table, id);
    FoundHasId(l, s.table, id);
    if peer.Some? {
      assert PeerOk(s.history, peer.value);
      SetPeersOk(l, s.table, s.history, Revalidated(peer.value));
      SetPeerIsOk(l, s.table, Revalidated(peer.value), other);
      SetPeerKeepsSuccessor(l, s.table, Revalidated(peer.value), id);
      var turned := s.(table := SetPeer(l, s.table, Revalidated(peer.value)),
                       revalidation := Checking(s.revalidation.awaiting - {id}));
      ReplacePeersOk(l, turned.table, s.history, id);
      SuccessorArrives(l, turned.table, id, other);
      var successor := Successor(l, turned.table, id);
      if successor.Some? {
        var replaced := turned.(table := Replace(l, turned.table, id));
        PingKeepsFound(l, replaced, successor.value.node.nodeId, hash, now, false, other);
      }
    }
  }

  /** An id that is no peer becomes one exactly by a step that brings it. */
  lemma StepBringsFound(l: Local, s: State, step: Step, id: NodeId)
    requires DiscoveryOk(l, s) && Enabled(l, s, step) && !Found(l, s, id)
    ensures TableSized(Next(l, s, step))
    ensures Found(l, Next(l, s, step), id) <==> Brings(l, s, step, id)
  {
    StepIsOk(l, s, step);
    match step
    case InsertNode(node, now) => InsertKeepsPeers(l, s.table, node, now, id);
    case RecordPing(other, hash, now) => PingKeepsFound(l, s, other, hash, now, false, id);
    case CommitPong(now) =>
      var peer := GetByNodeId(l, s.table, s.checkedPong.value);
      if peer.Some? {
        SetPeerIsOk(l, s.table, Answered(peer.value, now), id);
      }
    case Neighbors(from, nodes, hashes, expired, now) => NeighborsFind(l, s, from, nodes, hashes, expired, now, id);
    case AskNeighbors(other, now) =>
      var peer := GetByNodeId(l, s.table, other);
      if peer.Some? {
        SetPeerIsOk(l, s.table, peer.value.(findNodeRequest := Some(FindNodeRequest(0, now))), id);
      }
    case RevalidationTurn(other, hash, now) => TurnBrings(l, s, other, hash, now, id);
    case PingForRevalidation(hash, now) => PingKeepsFound(l, s, s.revalidation.toPing[0], hash, now, true, id);
    case ConnectionFailed(other) => SuccessorArrives(l, s.table, other, id);
    case _ =>
  }

  predicate TurnOf(step: Step, id: NodeId) {
    step.RevalidationTurn? && step.id == id
  }

  /** An id becomes pending by being selected from the table, and stops by its turn only. */
  lemma PendingMoves(l: Local, s: State, step: Step, id: NodeId)
    requires DiscoveryOk(l, s) && Enabled(l, s, step)
    requires s.revalidation != Panicked && Next(l, s, step).revalidation != Panicked
    ensures id in Pending(Next(l, s, step)) && id !in Pending(s) ==> step.SelectForRevalidation? && Found(l, s, id)
    ensures id in Pending(Next(l, s, step)) ==> !TurnOf(step, id)
  {
    if step.SelectForRevalidation? {
      GetAgreesWithScan(l, s.table, id);
    } else if !OfRevalidation(step) {
      OthersKeepRevalidation(l, s, step);
    }
  }

  ghost predicate BringsAt(l: Local, s: State, step: Step, id: NodeId) {
    TableSized(s) && Enabled(l, s, step) && Brings(l, s, step, id)
  }

  /** Between `j` and `t` something makes the id of the failed connection `j` a peer again. */
  ghost predicate Mended(l: Local, states: seq<State>, steps: seq<Step>, j: nat, t: nat)
    requires j < t < |steps| < |states| && steps[j].ConnectionFailed?
  {
    exists m :: j < m < t && BringsAt(l, states[m], steps[m], steps[j].id)
  }

  /** `t` is the next turn of the pending id whose connection fails at `j`. */
  ghost predicate TurnAfterFailure(states: seq<State>, steps: seq<Step>, j: nat, t: nat)
    requires j < t < |steps| < |states|
  {
    && Disrupts(states[j], steps[j]) && TurnOf(steps[t], steps[j].id)
    && (forall m :: j < m < t ==> !TurnOf(steps[m], steps[j].id))
  }

  ghost predicate FailuresMended(l: Local, states: seq<State>, steps: seq<Step>)
    requires |states| == |steps| + 1
  {
    forall j: nat, t: nat :: j < t < |steps| && TurnAfterFailure(states, steps, j, t) ==> Mended(l, states, steps, j, t)
  }

  /** One step back from a pending id that is not in the table: its connection failed, or it was not there before. */
  ghost predicate AbsentBefore(l: Local, s: State, step: Step, s': State, id: NodeId) {
    && TableSized(s) && TableSized(s')
    && (id in Pending(s') && !Found(l, s', id) ==>
          && !TurnOf(step, id)
          && (Found(l, s, id) ==> Disrupts(s, step) && step.id == id)
          && (!Found(l, s, id) ==> id in Pending(s) && !BringsAt(l, s, step, id)))
  }

  lemma StepsBack(l: Local, s: State, step: Step, s': State, id: NodeId)
    requires DiscoveryOk(l, s) && StepsTo(l, s, step, s')
    requires s.revalidation != Panicked && s'.revalidation != Panicked
    ensures AbsentBefore(l, s, step, s', id)
  {
    PendingMoves(l, s, step, id);
    if Found(l, s, id) {
      StepKeepsFound(l, s, step, id);
    } else {
      StepBringsFound(l, s, step, id);
    }
  }

  /** Whenever a pending id is not in the table, its connection failed and nothing happened to it since. */
  lemma {:induction false} AbsentHasCause(l: Local, states: seq<State>, steps: seq<Step>, k: nat, id: NodeId)
    returns (j: nat)
    requires k <= |steps| && |states| == |steps| + 1 && id !in Pending(states[0])
    requires forall m :: 0 <= m < k ==> AbsentBefore(l, states[m], steps[m], states[m + 1], id)
    requires TableSized(states[k]) && id in Pending(states[k]) && !Found(l, states[k], id)
    ensures j < k && Disrupts(states[j], steps[j]) && steps[j].id == id
    ensures forall m :: j < m < k ==> !TurnOf(steps[m], id) && !BringsAt(l, states[m], steps[m], id)
    decreases k
  {
    j := k - 1;
    assert AbsentBefore(l, states[j], steps[j], states[j + 1], id);
    if !Found(l, states[j], id) {
      j := AbsentHasCause(l, states, steps, j, id);
    }
  }

  lemma Arrival(l: Local, s: State, step: Step, s': State, id: NodeId)
    requires DiscoveryOk(l, s) && StepsTo(l, s, step, s') && TableSized(s')
    requires !Found(l, s, id) && Found(l, s', id)
    ensures BringsAt(l, s, step, id)
  {
    StepBringsFound(l, s, step, id);
  }

  /** Between a moment without the id and a later one with it there is a step that brings it. */
  lemma {:induction false} SomethingBrings(l: Local, states: seq<State>, steps: seq<Step>, a: nat, t: nat, id: NodeId)
    returns (m: nat)
    requires Run(l, states, steps) && DiscoveryOk(l, states[0]) && a <= t < |states|
    requires TableSized(states[a]) && TableSized(states[t]) && !Found(l, states[a], id) && Found(l, states[t], id)
    ensures a <= m < t && BringsAt(l, states[m], steps[m], id)
    decreases t - a
  {
    m := t - 1;
    RunIsOk(l, states, steps, m);
    assert StepsTo(l, states[m], steps[m], states[t]);
    if Found(l, states[m], id) {
      m := SomethingBrings(l, states, steps, a, m, id);
    } else {
      Arrival(l, states[m], steps[m], states[t], id);
    }
  }

  /** A run that never panics has mended every failure by the next turn of its id. */
  lemma SafeIsMended(l: Local, states: seq<State>, steps: seq<Step>, j: nat, t: nat)
    requires Run(l, states, steps) && states[0] == Initial()
    requires forall k :: 0 <= k < |states| ==> states[k].revalidation != Panicked
    requires j < t < |steps| && TurnAfterFailure(states, steps, j, t)
    ensures Mended(l, states, steps, j, t)
  {
    var id := steps[j].id;
    InitialIsOk(l);
    RunIsOk(l, states, steps, j);
    RunIsOk(l, states, steps, j + 1);
    RunIsOk(l, states, steps, t);
    assert StepsTo(l, states[j], steps[j], states[j + 1]) && StepsTo(l, states[t], steps[t], states[t + 1]);
    ReplaceKeepsFound(l, states[j].table, id, id);
    var m := SomethingBrings(l, states, steps, j + 1, t, id);
  }

  lemma PanicIsAbsentTurn(l: Local, s: State, step: Step)
    requires DiscoveryOk(l, s) && Enabled(l, s, step) && s.revalidation != Panicked
    requires Next(l, s, step).revalidation == Panicked
    ensures step.RevalidationTurn? && step.id in Pending(s) && !Found(l, s, step.id)
  {
    if !OfRevalidation(step) {
      OthersKeepRevalidation(l, s, step);
    }
  }

  /** The first panic of a run is a turn whose failure was not mended. */
  lemma FirstPanicIsUnmended(l: Local, states: seq<State>, steps: seq<Step>, k: nat)
    requires Run(l, states, steps) && states[0] == Initial() && k < |steps|
    requires forall m :: 0 <= m <= k ==> states[m].revalidation != Panicked
    requires states[k + 1].revalidation == Panicked
    ensures !FailuresMended(l, states, steps)
  {
    InitialIsOk(l);
    RunIsOk(l, states, steps, k);
    assert StepsTo(l, states[k], steps[k], states[k + 1]);
    PanicIsAbsentTurn(l, states[k], steps[k]);
    var id := steps[k].id;
    forall m | 0 <= m < k ensures AbsentBefore(l, states[m], steps[m], states[m + 1], id) {
      RunIsOk(l, states, steps, m);
      StepsBack(l, states[m], steps[m], states[m + 1], id);
    }
    var j := AbsentHasCause(l, states, steps, k, id);
    assert TurnAfterFailure(states, steps, j, k) && !Mended(l, states, steps, j, k);
  }

  lemma {:induction false} MendedIsSafe(l: Local, states: seq<State>, steps: seq<Step>, k: nat)
    requires Run(l, states, steps) && states[0] == Initial() && k < |states|
    requires FailuresMended(l, states, steps)
    ensures forall m :: 0 <= m <= k ==> states[m].revalidation != Panicked
  {
    if k > 0 {
      MendedIsSafe(l, states, steps, k - 1);
      if states[k].revalidation == Panicked {
        FirstPanicIsUnmended(l, states, steps, k - 1);
      }
    }
  }

  /**
    Over every interleaving the revalidation task never panics exactly when every failed
    connection to a pending id is followed, before that id's turn, by a step that makes it a peer
    again.
   */
  lemma NeverPanicsIffMended(l: Local, states: seq<State>, steps: seq<Step>)
    requires Run(l, states, steps) && states[0] == Initial()
    ensures (forall k :: 0 <= k < |states| ==> states[k].revalidation != Panicked) <==> FailuresMended(l, states, steps)
  {
    if forall k :: 0 <= k < |states| ==> states[k].revalidation != Panicked {
      forall j: nat, t: nat | j < t < |steps| && TurnAfterFailure(states, steps, j, t)
        ensures Mended(l, states, steps, j, t)
      {
        SafeIsMended(l, states, steps, j, t);
      }
    }
    if FailuresMended(l, states, steps) {
      MendedIsSafe(l, states, steps, |steps|);
    }
  }

  /** What the selection of the oldest pongs returns may be selected for revalidation. */
  lemma SelectedAreInTable(t: Table, peers: seq<PeerData>, dropped: seq<PeerData>, pong: PeerData -> nat, p: PeerData)
    requires KeepsSmallest(AllPeers(t), peers, dropped, pong) && p in peers
    ensures InTable(t, p.node.nodeId)
  {
    assert p in multiset(peers);
    assert p in multiset(AllPeers(t));
    ListedIsInTable(t, p);
  }

  lemma {:induction false} ListedIsInTable(t: Table, p: PeerData)
    requires p in AllPeers(t)
    ensures InTable(t, p.node.nodeId)
  {
    var front, last := t[..|t| - 1], t[|t| - 1].peers;
    if p in last {
      var i :| 0 <= i < |last| && last[i] == p;
      assert t[|t| - 1].peers[i].node.nodeId == p.node.nodeId;
    } else {
      ListedIsInTable(front, p);
      var n, i :| 0 <= n < |front| && 0 <= i < |front[n].peers| && front[n].peers[i].node.nodeId == p.node.nodeId;
      assert t[n].peers[i].node.nodeId == p.node.nodeId;
    }
  }

  /** The condition is needed: whenever a connection fails just before its id's turn, the turn panics. */
  lemma DisruptedTurnPanics(l: Local, s: State, id: NodeId, hash: Option<nat>, now: nat)
    requires TableOk(l, s.table) && s.revalidation.Checking? && id in s.revalidation.awaiting
    ensures StepsTo(l, s, ConnectionFailed(id), Next(l, s, ConnectionFailed(id)))
    ensures var failed := Next(l, s, ConnectionFailed(id));
            StepsTo(l, failed, RevalidationTurn(id, hash, now), failed.(revalidation := Panicked))
  {
    ReplaceKeepsFound(l, s.table, id, id);
  }

  /** Unless the node became a peer again in between: an inserting step is enough. */
  lemma ReinsertedTurnIsSafe(l: Local, s: State, node: Node, hash: Option<nat>, now: nat)
    requires DiscoveryOk(l, s) && s.revalidation.Checking? && node.nodeId in s.revalidation.awaiting
    requires Inserts(l, Replace(l, s.table, node.nodeId), node)
    ensures var failed := Next(l, s, ConnectionFailed(node.nodeId));
            var mended := Next(l, failed, InsertNode(node, now));
            && Disrupts(s, ConnectionFailed(node.nodeId))
            && StepsTo(l, failed, InsertNode(node, now), mended)
            && Enabled(l, mended, RevalidationTurn(node.nodeId, hash, now))
            && Next(l, mended, RevalidationTurn(node.nodeId, hash, now)).revalidation.Checking?
  {
    var failed := Next(l, s, ConnectionFailed(node.nodeId));
    StepIsOk(l, s, ConnectionFailed(node.nodeId));
    InsertKeepsPeers(l, failed.table, node, now, node.nodeId);
  }

  lemma AppendRun(l: Local, states: seq<State>, steps: seq<Step>, step: Step, s: State)
    requires Run(l, states, steps) && StepsTo(l, states[|steps|], step, s)
    ensures Run(l, states + [s], steps + [step])
  {
  }

  /** Any node can be inserted, pinged for revalidation and be awaiting its turn. */
  lemma AwaitingIsReachable(l: Local, node: Node, hash: nat, now: nat) returns (states: seq<State>, steps: seq<Step>)
    ensures Run(l, states, steps) && states[0] == Initial()
    ensures TableOk(l, states[|steps|].table) && states[|steps|].revalidation == Checking({node.nodeId})
  {
    var id := node.nodeId;
    InitialIsOk(l);
    var inserted := Next(l, Initial(), InsertNode(node, now));
    StepIsOk(l, Initial(), InsertNode(node, now));
    InsertKeepsPeers(l, Initial().table, node, now, id);
    GetAgreesWithScan(l, inserted.table, id);
    var selected := inserted.(revalidation := Pinging([id], {}));
    var pinged := Next(l, selected, PingForRevalidation(Some(hash), now));
    StepIsOk(l, selected, PingForRevalidation(Some(hash), now));
    assert pinged.revalidation == Pinging([], {id});
    var ticked := pinged.(revalidation := Checking({id}));
    AppendRun(l, [Initial()], [], InsertNode(node, now), inserted);
    AppendRun(l, [Initial(), inserted], [InsertNode(node, now)], SelectForRevalidation([id]), selected);
    states, steps := [Initial(), inserted, selected], [InsertNode(node, now), SelectForRevalidation([id])];
    AppendRun(l, states, steps, PingForRevalidation(Some(hash), now), pinged);
    states, steps := states + [pinged], steps + [PingForRevalidation(Some(hash), now)];
    AppendRun(l, states, steps, RevalidationTick, ticked);
    states, steps := states + [ticked], steps + [RevalidationTick];
  }

  lemma FailedConnectionPanics(l: Local, node: Node, hash: nat, now: nat) returns (states: seq<State>, steps: seq<Step>)
    ensures Run(l, states, steps) && states[0] == Initial()
    ensures states[|steps|].revalidation == Panicked
  {
    states, steps := AwaitingIsReachable(l, node, hash, now);
    var ticked := states[|steps|];
    DisruptedTurnPanics(l, ticked, node.nodeId, None, now);
    var failed := Next(l, ticked, ConnectionFailed(node.nodeId));
    AppendRun(l, states, steps, ConnectionFailed(node.nodeId), failed);
    states, steps := states + [failed], steps + [ConnectionFailed(node.nodeId)];
    AppendRun(l, states, steps, RevalidationTurn(node.nodeId, None, now), failed.(revalidation := Panicked));
    states, steps := states + [failed.(revalidation := Panicked)], steps + [RevalidationTurn(node.nodeId, None, now)];
  }
}
