/**
  The block tree and the canonical chain: adding blocks and applying fork choice updates.

  A `Chain` is the abstract value of the store: every block it holds by hash, the
  number-to-hash canonical map and the labelled block numbers. The simple specification of a
  fork choice update is "canonical = the ancestors of head"; `Store.ApplyForkChoice` reaches it
  by walking only down to the block where the new branch leaves the old chain.
 */
module ForkChoice {
  import opened Prelude
  import opened Types
  import HeaderRules

  /** What a node is configured with: the header hash, the genesis block, the forks and the merge threshold. */
  datatype World = World(
    hashOf: HeaderHash, genesis: BlockHeader, config: HeaderRules.ChainConfig, terminalTotalDifficulty: Option<nat>)

  ghost predicate CollisionFree(w: World) {
    forall a, b :: w.hashOf(a) == w.hashOf(b) ==> a == b
  }

  datatype ForkChoiceError =
    | StoreError
    | Syncing
    | InvalidHeadHash
    | NewHeadAlreadyCanonical
    | ElementNotFound
    | PreMergeBlock
    | Unordered
    | DisconnectedHead
    | DisconnectedFinalized
    | DisconnectedSafe

  datatype AddBlockError = ParentNotFound | InvalidBlock

  type Headers = map<Hash, BlockHeader>

  datatype Chain = Chain(
    headers: Headers,
    pending: Headers,
    canonical: map<nat, Hash>,
    latest: nat,
    safe: Option<nat>,
    finalized: Option<nat>,
    totalDifficulty: map<Hash, nat>,
    latestTotalDifficulty: Option<nat>)

  // ---------------------------------------------------------------- the block tree

  /** A stored block is keyed by its own hash and, unless it is genesis, its parent is stored one below it. */
  ghost predicate Placed(w: World, headers: Headers, h: Hash)
    requires h in headers
  {
    && w.hashOf(headers[h]) == h
    && w.genesis.number <= headers[h].number
    && (h != w.hashOf(w.genesis) ==>
          headers[h].parentHash in headers && headers[headers[h].parentHash].number + 1 == headers[h].number)
  }

  ghost predicate Tree(w: World, headers: Headers) {
    && CollisionFree(w)
    && w.hashOf(w.genesis) in headers
    && forall h {:trigger Placed(w, headers, h)} :: h in headers ==> Placed(w, headers, h)
  }

  /** The ancestors of `h` and `h` itself, by block number: the chain `h` is the head of. */
  ghost function Ancestors(w: World, headers: Headers, h: Hash): (m: map<nat, Hash>)
    requires Tree(w, headers) && h in headers
    ensures w.genesis.number <= headers[h].number
    ensures forall n :: n in m <==> w.genesis.number <= n <= headers[h].number
    ensures m[headers[h].number] == h
    ensures m[w.genesis.number] == w.hashOf(w.genesis)
    ensures forall n :: n in m ==> m[n] in headers && headers[m[n]].number == n
    decreases headers[h].number
  {
    assert Placed(w, headers, h) && Placed(w, headers, w.hashOf(w.genesis));
    if h == w.hashOf(w.genesis) then map[headers[h].number := h]
    else Ancestors(w, headers, headers[h].parentHash)[headers[h].number := h]
  }

  /** Consecutive entries of an ancestor chain are parent and child. */
  lemma {:induction false} AncestorsAreLinked(w: World, headers: Headers, h: Hash, n: nat)
    requires Tree(w, headers) && h in headers
    requires w.genesis.number < n <= headers[h].number
    ensures var m := Ancestors(w, headers, h); headers[m[n]].parentHash == m[n - 1]
    decreases headers[h].number
  {
    assert Placed(w, headers, h) && Placed(w, headers, w.hashOf(w.genesis));
    if n < headers[h].number {
      AncestorsAreLinked(w, headers, headers[h].parentHash, n);
    }
  }

  predicate IsCanonical(canonical: map<nat, Hash>, number: nat, hash: Hash) {
    number in canonical && canonical[number] == hash
  }

  /** The canonical map is exactly the ancestor chain of the latest block. */
  ghost predicate Valid(w: World, c: Chain) {
    && Tree(w, c.headers)
    && c.latest in c.canonical
    && c.canonical[c.latest] in c.headers
    && c.headers[c.canonical[c.latest]].number == c.latest
    && c.canonical == Ancestors(w, c.headers, c.canonical[c.latest])
  }

  /** Two ancestor chains that agree at a number agree everywhere below it. */
  lemma AncestorsAgreeBelow(w: World, headers: Headers, a: Hash, b: Hash, n: nat, k: nat)
    requires Tree(w, headers) && a in headers && b in headers
    requires w.genesis.number <= k <= n <= headers[a].number && n <= headers[b].number
    requires Ancestors(w, headers, a)[n] == Ancestors(w, headers, b)[n]
    ensures Ancestors(w, headers, a)[k] == Ancestors(w, headers, b)[k]
  {
    forall m | k < m <= n ensures LinkedAt(headers, Ancestors(w, headers, a), m) {
      AncestorsAreLinked(w, headers, a, m);
    }
    forall m | k < m <= n ensures LinkedAt(headers, Ancestors(w, headers, b), m) {
      AncestorsAreLinked(w, headers, b, m);
    }
    LinkedAgreeBelow(headers, Ancestors(w, headers, a), Ancestors(w, headers, b), n, k);
  }

  /** The block at `n` has the one below it as its parent. */
  ghost predicate LinkedAt(headers: Headers, chain: map<nat, Hash>, n: nat) {
    0 < n && n in chain && n - 1 in chain && chain[n] in headers && headers[chain[n]].parentHash == chain[n - 1]
  }

  ghost predicate LinkedBetween(headers: Headers, chain: map<nat, Hash>, k: nat, n: nat) {
    forall m :: k < m <= n ==> LinkedAt(headers, chain, m)
  }

  lemma {:induction false} LinkedAgreeBelow(headers: Headers, a: map<nat, Hash>, b: map<nat, Hash>, n: nat, k: nat)
    requires k <= n && n in a && n in b && a[n] == b[n]
    requires LinkedBetween(headers, a, k, n) && LinkedBetween(headers, b, k, n)
    ensures k in a && k in b && a[k] == b[k]
    decreases n - k
  {
    if k < n {
      assert LinkedAt(headers, a, n) && LinkedAt(headers, b, n);
      LinkedAgreeBelow(headers, a, b, n - 1, k);
    }
  }

  /** Adding blocks on top of the tree does not move anybody's ancestors. */
  lemma {:induction false} AncestorsStable(w: World, small: Headers, large: Headers, h: Hash)
    requires Tree(w, small) && Tree(w, large)
    requires h in small && forall x :: x in small ==> x in large && large[x] == small[x]
    ensures Ancestors(w, small, h) == Ancestors(w, large, h)
    decreases small[h].number
  {
    assert Placed(w, small, h);
    if h != w.hashOf(w.genesis) {
      AncestorsStable(w, small, large, small[h].parentHash);
    }
  }

  // ---------------------------------------------------------------- the link

  /**
    `link` is the number that separates the new head's chain from the current canonical chain:
    below it the two coincide, from it up to a head that is not canonical they differ
    everywhere. For a head that is already canonical it is the head's own number.
   */
  ghost predicate IsLink(canonical: map<nat, Hash>, full: map<nat, Hash>, low: nat, top: nat, link: nat)
    requires forall n :: low <= n <= top ==> n in full
  {
    && low <= link <= top
    && (forall n :: low <= n < link ==> IsCanonical(canonical, n, full[n]))
    && (forall n :: link <= n <= top && IsCanonical(canonical, n, full[n]) ==> link == n == top)
  }

  /** Walking down from a number above which nothing is canonical ends at a link. */
  ghost function LinkFrom(canonical: map<nat, Hash>, full: map<nat, Hash>, low: nat, top: nat, n: nat): (link: nat)
    requires low <= n <= top && forall k :: low <= k <= top ==> k in full
    requires IsCanonical(canonical, low, full[low])
    requires forall i, k :: low <= i <= k <= top && IsCanonical(canonical, k, full[k]) ==>
             IsCanonical(canonical, i, full[i])
    requires n == top || forall k :: n <= k <= top ==> !IsCanonical(canonical, k, full[k])
    ensures IsLink(canonical, full, low, top, link)
  {
    if IsCanonical(canonical, n, full[n]) || IsCanonical(canonical, n - 1, full[n - 1]) then n
    else LinkFrom(canonical, full, low, top, n - 1)
  }

  lemma CanonicalBelow(w: World, c: Chain, head: Hash, n: nat, k: nat)
    requires Valid(w, c) && head in c.headers
    requires w.genesis.number <= k <= n <= c.headers[head].number
    requires IsCanonical(c.canonical, n, Ancestors(w, c.headers, head)[n])
    ensures IsCanonical(c.canonical, k, Ancestors(w, c.headers, head)[k])
  {
    AncestorsAgreeBelow(w, c.headers, head, c.canonical[c.latest], n, k);
  }

  ghost function LinkOf(w: World, c: Chain, head: Hash): (link: nat)
    requires Valid(w, c) && head in c.headers
    ensures IsLink(c.canonical, Ancestors(w, c.headers, head), w.genesis.number, c.headers[head].number, link)
  {
    var full, low, top := Ancestors(w, c.headers, head), w.genesis.number, c.headers[head].number;
    assert forall i, k :: low <= i <= k <= top && IsCanonical(c.canonical, k, full[k]) ==>
      IsCanonical(c.canonical, i, full[i]) by {
      forall i, k | low <= i <= k <= top && IsCanonical(c.canonical, k, full[k])
        ensures IsCanonical(c.canonical, i, full[i])
      {
        CanonicalBelow(w, c, head, k, i);
      }
    }
    LinkFrom(c.canonical, full, low, top, top)
  }

  /** The numbered blocks a reorganisation has to install below the head, highest first. */
  ghost predicate IsBranch(full: map<nat, Hash>, top: nat, link: nat, branch: seq<(nat, Hash)>)
    requires link <= top && forall n :: link <= n <= top ==> n in full
  {
    && |branch| == top - link
    && forall i :: 0 <= i < |branch| ==> branch[i] == (top - 1 - i, full[top - 1 - i])
  }

  /** Above a link nothing is canonical; right below it everything is. */
  lemma LinkIsNext(canonical: map<nat, Hash>, full: map<nat, Hash>, low: nat, top: nat, link: nat, n: nat)
    requires forall k :: low <= k <= top ==> k in full
    requires IsLink(canonical, full, low, top, link) && !IsCanonical(canonical, top, full[top])
    requires low < n <= top && link <= n
    ensures IsCanonical(canonical, n - 1, full[n - 1]) <==> link == n
  {
  }

  lemma BranchGrows(full: map<nat, Hash>, top: nat, n: nat, branch: seq<(nat, Hash)>)
    requires 0 < n <= top && forall k :: n - 1 <= k <= top ==> k in full
    requires IsBranch(full, top, n, branch)
    ensures IsBranch(full, top, n - 1, branch + [(n - 1, full[n - 1])])
  {
  }

  // ---------------------------------------------------------------- fork choice, specified

  function Stored(headers: Headers, h: Hash): Option<BlockHeader> {
    if h != ZERO_HASH && h in headers then Some(headers[h]) else None
  }

  /** The first block must be present when the second one is, and not above it. */
  function CheckOrder(a: Option<BlockHeader>, b: Option<BlockHeader>): Option<ForkChoiceError> {
    match (a, b)
    case (None, Some(_)) => Some(ElementNotFound)
    case (Some(x), Some(y)) => if x.number > y.number then Some(Unordered) else None
    case _ => Some(Syncing)
  }

  function TotalDifficultyCheck(td: map<Hash, nat>, ttd: Option<nat>, h: Hash,
                                head: BlockHeader): Option<ForkChoiceError> {
    if head.difficulty == 0 && head.number != 0 then None
    else if h !in td || ttd.None? then Some(StoreError)
    else if td[h] < ttd.value then Some(PreMergeBlock)
    else if head.number == 0 then None
    else if head.parentHash !in td || td[head.parentHash] >= ttd.value then Some(StoreError)
    else None
  }

  ghost predicate IsAncestor(w: World, headers: Headers, b: Hash, head: Hash)
    requires Tree(w, headers) && head in headers
  {
    b in headers && IsCanonical(Ancestors(w, headers, head), headers[b].number, b)
  }

  /** The old canonical block at exactly the number where the new branch starts. */
  ghost predicate Displaced(w: World, c: Chain, b: Hash, head: Hash)
    requires Valid(w, c) && head in c.headers
  {
    && !IsCanonical(c.canonical, c.headers[head].number, head)
    && IsCanonical(c.canonical, LinkOf(w, c, head), b)
  }

  ghost predicate Admitted(w: World, c: Chain, b: Hash, head: Hash)
    requires Valid(w, c) && head in c.headers
  {
    IsAncestor(w, c.headers, b, head) || Displaced(w, c, b, head)
  }

  /** The verdict on an update; `None` means it is applied. */
  ghost function Verdict(w: World, c: Chain, head: Hash, safe: Hash, finalized: Hash): Option<ForkChoiceError>
    requires Valid(w, c)
  {
    var headBlock, safeBlock, finalizedBlock :=
      Stored(c.headers, head), Stored(c.headers, safe), Stored(c.headers, finalized);
    if head == ZERO_HASH then Some(InvalidHeadHash)
    else if safe != ZERO_HASH && CheckOrder(safeBlock, headBlock).Some? then CheckOrder(safeBlock, headBlock)
    else if finalized != ZERO_HASH && safe != ZERO_HASH && CheckOrder(finalizedBlock, safeBlock).Some? then
      CheckOrder(finalizedBlock, safeBlock)
    else if headBlock.None? then Some(Syncing)
    else
      var difficulty := TotalDifficultyCheck(c.totalDifficulty, w.terminalTotalDifficulty, head, headBlock.value);
      if difficulty.Some? then difficulty
      else if IsCanonical(c.canonical, headBlock.value.number, head) && headBlock.value.number < c.latest then
        Some(NewHeadAlreadyCanonical)
      else if finalizedBlock.Some? && !Admitted(w, c, finalized, head) then Some(DisconnectedFinalized)
      else if safeBlock.Some? && !Admitted(w, c, safe, head) then Some(DisconnectedSafe)
      else None
  }

  /** The simple specification: the canonical map becomes the ancestors of head, all at once. */
  ghost function Update(w: World, c: Chain, head: Hash, safe: Hash, finalized: Hash): Chain
    requires Valid(w, c) && head in c.headers
  {
    var safeBlock, finalizedBlock := Stored(c.headers, safe), Stored(c.headers, finalized);
    c.(canonical := Ancestors(w, c.headers, head),
    latest := c.headers[head].number,
    safe := if safeBlock.Some? then Some(safeBlock.value.number) else c.safe,
    finalized := if finalizedBlock.Some? then Some(finalizedBlock.value.number) else c.finalized)
  }

  /**
    When a stored safe or finalized block is really on the new chain: exactly when it is not the
    block displaced at the link. The `<=` in the guard lets that one block through.
   */
  lemma AcceptedIsAncestorUnlessDisplaced(w: World, c: Chain, head: Hash, safe: Hash, finalized: Hash, b: Hash)
    requires Valid(w, c)
    requires Verdict(w, c, head, safe, finalized).None?
    requires b == safe || b == finalized
    requires Stored(c.headers, b).Some?
    ensures IsAncestor(w, c.headers, b, head) <==> !Displaced(w, c, b, head)
  {
  }

  /** The guard as the source writes it, in terms of the branch the walk returned. */
  predicate Guard(canonical: map<nat, Hash>, branch: seq<(nat, Hash)>, top: nat, head: Hash, number: nat, b: Hash) {
    var link := if branch == [] then top else branch[|branch| - 1].0;
    || (IsCanonical(canonical, number, b) && number <= link)
    || (number == top && b == head)
    || (number, b) in branch
  }

  lemma GuardIsAncestorOrAtLink(
    canonical: map<nat, Hash>, full: map<nat, Hash>, low: nat, top: nat, link: nat, branch: seq<(nat, Hash)>,
    number: nat, b: Hash)
    requires low <= number && forall n :: n in full <==> low <= n <= top
    requires IsLink(canonical, full, low, top, link) && IsBranch(full, top, link, branch)
    ensures Guard(canonical, branch, top, full[top], number, b) <==>
            IsCanonical(full, number, b) || (number == link && IsCanonical(canonical, link, b))
  {
    if IsCanonical(full, number, b) && link <= number < top {
      assert branch[top - 1 - number] == (number, b);
    }
  }

  lemma GuardMeansAdmitted(w: World, c: Chain, b: Hash, head: Hash, branch: seq<(nat, Hash)>)
    requires Valid(w, c) && head in c.headers && b in c.headers
    requires IsBranch(Ancestors(w, c.headers, head), c.headers[head].number, LinkOf(w, c, head), branch)
    ensures Guard(c.canonical, branch, c.headers[head].number, head, c.headers[b].number, b) <==>
            Admitted(w, c, b, head)
  {
    var full, top := Ancestors(w, c.headers, head), c.headers[head].number;
    var link := LinkOf(w, c, head);
    GuardIsAncestorOrAtLink(c.canonical, full, w.genesis.number, top, link, branch, c.headers[b].number, b);
    assert c.canonical == Ancestors(w, c.headers, c.canonical[c.latest]);
  }

  // ---------------------------------------------------------------- adding blocks

  /** The header checks against the parent; `executes` stands for execution and the checks after it. */
  function Added(w: World, c: Chain, header: BlockHeader, executes: bool): (Chain, Option<AddBlockError>) {
    var h := w.hashOf(header);
    if header.parentHash !in c.headers then (c.(pending := c.pending[h := header]), Some(ParentNotFound))
    else if HeaderRules.ValidateHeader(w.hashOf, w.config, header, c.headers[header.parentHash]).Some? || !executes
    then (c, Some(InvalidBlock))
    else
      var td := (if c.latestTotalDifficulty.Some? then c.latestTotalDifficulty.value else 0) + header.difficulty;
      (c.(headers := c.headers[h := header],
       totalDifficulty := c.totalDifficulty[h := td],
       latestTotalDifficulty := Some(td)), None)
  }

  /** A child of a stored block can be stored; storing a block again changes nothing. */
  lemma AddedIsTree(w: World, headers: Headers, header: BlockHeader)
    requires Tree(w, headers) && header.parentHash in headers && header.number == headers[header.parentHash].number + 1
    ensures Tree(w, headers[w.hashOf(header) := header])
    ensures forall h :: h in headers ==> headers[w.hashOf(header) := header][h] == headers[h]
  {
    var h, headers' := w.hashOf(header), headers[w.hashOf(header) := header];
    assert Placed(w, headers, header.parentHash) && Placed(w, headers, w.hashOf(w.genesis));
    assert h in headers ==> Placed(w, headers, h) && headers[h] == header;
    forall x | x in headers' ensures Placed(w, headers', x) {
      assert x in headers ==> Placed(w, headers, x);
    }
  }

  lemma AddedKeepsCanonical(w: World, c: Chain, header: BlockHeader, executes: bool)
    requires Valid(w, c)
    ensures var (c', error) := Added(w, c, header, executes);
            && Valid(w, c')
            && c'.canonical == c.canonical && c'.latest == c.latest
            && c'.safe == c.safe && c'.finalized == c.finalized
            && (forall h :: h in c.headers ==> h in c'.headers && c'.headers[h] == c.headers[h])
            && (error.Some? ==> c'.headers == c.headers)
  {
    var (c', error) := Added(w, c, header, executes);
    if error.None? {
      AddedIsTree(w, c.headers, header);
      AncestorsStable(w, c.headers, c'.headers, c.canonical[c.latest]);
    }
  }

  // ---------------------------------------------------------------- runs

  datatype Step =
    | AddBlock(header: BlockHeader, executes: bool)
    | UpdateForkChoice(head: Hash, safe: Hash, finalized: Hash)

  ghost function Next(w: World, c: Chain, step: Step): Chain
    requires Valid(w, c)
  {
    match step
    case AddBlock(header, executes) => Added(w, c, header, executes).0
    case UpdateForkChoice(head, safe, finalized) =>
      if Verdict(w, c, head, safe, finalized).Some? then c else Update(w, c, head, safe, finalized)
  }

  /** The store right after the genesis block was written. */
  function Initial(w: World): Chain {
    var h := w.hashOf(w.genesis);
    Chain(map[h := w.genesis], map[], map[w.genesis.number := h], w.genesis.number, None, None,
          map[h := w.genesis.difficulty], Some(w.genesis.difficulty))
  }

  lemma InitialIsValid(w: World)
    requires CollisionFree(w)
    ensures Valid(w, Initial(w))
  {
  }

  lemma UpdateIsValid(w: World, c: Chain, head: Hash, safe: Hash, finalized: Hash)
    requires Valid(w, c) && head in c.headers
    ensures Valid(w, Update(w, c, head, safe, finalized))
  {
  }

  lemma NextIsValid(w: World, c: Chain, step: Step)
    requires Valid(w, c)
    ensures Valid(w, Next(w, c, step))
  {
    if step.AddBlock? {
      AddedKeepsCanonical(w, c, step.header, step.executes);
    }
  }

  /** The state after a sequence of steps on a freshly initialised store. */
  ghost function Run(w: World, steps: seq<Step>): (c: Chain)
    requires CollisionFree(w)
    ensures Valid(w, c)
  {
    if steps == [] then
      InitialIsValid(w);
      Initial(w)
    else
      var before, step := Run(w, steps[..|steps| - 1]), steps[|steps| - 1];
      NextIsValid(w, before, step);
      Next(w, before, step)
  }

  /**
    In every reachable state the canonical map is gap-free and parent-linked from genesis to
    latest with nothing above it, and every stored block hangs off a stored parent.
   */
  lemma ReachableChainIsLinked(w: World, steps: seq<Step>, n: nat, h: Hash)
    requires CollisionFree(w)
    ensures var c := Run(w, steps);
            && (n in c.canonical <==> w.genesis.number <= n <= c.latest)
            && c.canonical[w.genesis.number] == w.hashOf(w.genesis)
            && (n in c.canonical ==> c.canonical[n] in c.headers && c.headers[c.canonical[n]].number == n)
            && (n in c.canonical && n > w.genesis.number ==>
                  n - 1 in c.canonical && c.headers[c.canonical[n]].parentHash == c.canonical[n - 1])
            && (h in c.headers && h != w.hashOf(w.genesis) ==>
                  c.headers[h].parentHash in c.headers
                    && c.headers[c.headers[h].parentHash].number + 1 == c.headers[h].number)
  {
    var c := Run(w, steps);
    assert c.canonical == Ancestors(w, c.headers, c.canonical[c.latest]);
    if h in c.headers {
      assert Placed(w, c.headers, h);
    }
    if w.genesis.number < n <= c.latest {
      AncestorsAreLinked(w, c.headers, c.canonical[c.latest], n);
    }
  }

  /**
    How one more step moves the canonical map: adding a block never does, a rejected update
    changes nothing at all, an accepted one installs exactly the ancestors of its head.
   */
  lemma StepMovesCanonical(w: World, steps: seq<Step>, step: Step)
    requires CollisionFree(w)
    ensures var (before, after) := (Run(w, steps), Run(w, steps + [step]));
            match step
            case AddBlock(_, _) => after.canonical == before.canonical && after.latest == before.latest
            case UpdateForkChoice(head, safe, finalized) =>
              if Verdict(w, before, head, safe, finalized).Some? then after == before
              else
                && head in after.headers && after.headers == before.headers
                && after.canonical == Ancestors(w, after.headers, head)
                && after.latest == after.headers[head].number
  {
  }

  /** Every stored block but genesis passed the header checks against the parent it names. */
  ghost predicate AllValidated(w: World, headers: Headers)
    requires Tree(w, headers)
  {
    forall h {:trigger Placed(w, headers, h)} :: h in headers && Placed(w, headers, h) && h != w.hashOf(w.genesis) ==>
      HeaderRules.ValidateHeader(w.hashOf, w.config, headers[h], headers[headers[h].parentHash]).None?
  }

  lemma {:induction false} ReachableBlocksAreValidated(w: World, steps: seq<Step>)
    requires CollisionFree(w)
    ensures AllValidated(w, Run(w, steps).headers)
    decreases |steps|
  {
    if steps != [] {
      var before, step := steps[..|steps| - 1], steps[|steps| - 1];
      ReachableBlocksAreValidated(w, before);
      var old', new' := Run(w, before).headers, Run(w, steps).headers;
      forall h | h in new' && h != w.hashOf(w.genesis) && Placed(w, new', h)
        ensures HeaderRules.ValidateHeader(w.hashOf, w.config, new'[h], new'[new'[h].parentHash]).None?
      {
        assert h in old' ==> Placed(w, old', h);
        if step.AddBlock? {
          AddedKeepsCanonical(w, Run(w, before), step.header, step.executes);
        }
      }
    }
  }

  /** The base fee floor for every block a run ever stores, on any branch. */
  lemma {:induction false} ReachableBaseFeeFloor(w: World, steps: seq<Step>, h: Hash)
    requires CollisionFree(w) && h in Run(w, steps).headers
    requires HeaderRules.EffectiveBaseFee(w.genesis) >= 7
    ensures HeaderRules.EffectiveBaseFee(Run(w, steps).headers[h]) >= 7
    decreases Run(w, steps).headers[h].number
  {
    var headers := Run(w, steps).headers;
    assert Placed(w, headers, h) && Placed(w, headers, w.hashOf(w.genesis));
    if h != w.hashOf(w.genesis) {
      var header, parent := headers[h], headers[headers[h].parentHash];
      ReachableBaseFeeFloor(w, steps, header.parentHash);
      ReachableBlocksAreValidated(w, steps);
      assert HeaderRules.ValidatedChain(w.hashOf, [parent, header]);
      HeaderRules.BaseFeeFloor(w.hashOf, [parent, header], 0, 1);
    }
  }

  /** A child of genesis started by the payload builder; the fee recipient tells siblings apart. */
  function Child(w: World, feeRecipient: Address): BlockHeader
    requires HeaderRules.CanStart(w.genesis)
  {
    var args := HeaderRules.BuildPayloadArgs(w.hashOf(w.genesis), w.genesis.timestamp + 1, feeRecipient, 0, Some(0));
    HeaderRules.StartedHeader(w.config, args, HeaderRules.Roots(0, 0, 0), w.genesis)
  }

  /** Two children of genesis: the first is made canonical, then the second replaces it. */
  function SiblingRun(w: World): (steps: seq<Step>)
    requires HeaderRules.CanStart(w.genesis)
    ensures |steps| == 4
  {
    var a, b := Child(w, 1), Child(w, 2);
    [AddBlock(a, true), AddBlock(b, true), UpdateForkChoice(w.hashOf(a), ZERO_HASH, ZERO_HASH),
     UpdateForkChoice(w.hashOf(b), w.hashOf(a), ZERO_HASH)]
  }

  lemma ChildIsValid(w: World, feeRecipient: Address)
    requires w.genesis.gasLimit >= 4997 && w.genesis.baseFeePerGas.Some? && HeaderRules.CanStart(w.genesis)
    ensures HeaderRules.ValidateHeader(w.hashOf, w.config, Child(w, feeRecipient), w.genesis).None?
  {
  }

  /** A reachable state in which a displaced block is accepted as safe although it is not an ancestor of head. */
  lemma DisplacedSafeIsAccepted(w: World)
    requires CollisionFree(w) && forall h :: w.hashOf(h) != ZERO_HASH
    requires w.genesis.gasLimit >= 4997 && w.genesis.baseFeePerGas.Some? && HeaderRules.CanStart(w.genesis)
    ensures var steps := SiblingRun(w);
            var (before, update, after) := (Run(w, steps[..3]), steps[3], Run(w, steps));
            && Verdict(w, before, update.head, update.safe, update.finalized).None?
            && update.head in before.headers
            && Displaced(w, before, update.safe, update.head)
            && !IsAncestor(w, before.headers, update.safe, update.head)
            && after.safe == Some(w.genesis.number + 1)
            && after.canonical[w.genesis.number + 1] != update.safe
  {
    var steps := SiblingRun(w);
    FirstSiblingIsCanonical(w);
    SiblingIsDisplaced(w, Run(w, steps[..3]));
    assert steps[..4] == steps;
    assert Run(w, steps) == Next(w, Run(w, steps[..3]), steps[3]);
  }

  /** The three blocks of the example: genesis and its two children. */
  function Siblings(w: World): Headers
    requires HeaderRules.CanStart(w.genesis)
  {
    var a, b := Child(w, 1), Child(w, 2);
    map[w.hashOf(w.genesis) := w.genesis, w.hashOf(a) := a, w.hashOf(b) := b]
  }

  lemma SiblingIsDisplaced(w: World, c: Chain)
    requires Valid(w, c) && forall h :: w.hashOf(h) != ZERO_HASH
    requires HeaderRules.CanStart(w.genesis)
    requires c.headers == Siblings(w) && c.latest == w.genesis.number + 1
             && c.canonical[c.latest] == w.hashOf(Child(w, 1))
    ensures var a, b := w.hashOf(Child(w, 1)), w.hashOf(Child(w, 2));
            && Verdict(w, c, b, a, ZERO_HASH).None?
            && Displaced(w, c, a, b) && !IsAncestor(w, c.headers, a, b)
  {
  }

  /** Both siblings are stored after two steps, and nothing else has changed. */
  lemma SiblingsAreStored(w: World)
    requires CollisionFree(w)
    requires w.genesis.gasLimit >= 4997 && w.genesis.baseFeePerGas.Some? && HeaderRules.CanStart(w.genesis)
    ensures var c := Run(w, SiblingRun(w)[..2]);
            && c.headers == Siblings(w)
            && c.canonical == map[w.genesis.number := w.hashOf(w.genesis)] && c.latest == w.genesis.number
  {
    var steps, a, b := SiblingRun(w), Child(w, 1), Child(w, 2);
    ChildIsValid(w, 1);
    ChildIsValid(w, 2);
    assert a != b && a != w.genesis && b != w.genesis;
    assert steps[..0] == [] && steps[..1][..0] == [] && steps[..2][..1] == steps[..1];
    var c0, c1 := Run(w, steps[..0]), Run(w, steps[..1]);
    assert c1 == Added(w, c0, a, true).0 && Run(w, steps[..2]) == Added(w, c1, b, true).0;
  }

  /** The third step makes the first sibling canonical. */
  lemma FirstSiblingIsCanonical(w: World)
    requires CollisionFree(w) && forall h :: w.hashOf(h) != ZERO_HASH
    requires w.genesis.gasLimit >= 4997 && w.genesis.baseFeePerGas.Some? && HeaderRules.CanStart(w.genesis)
    ensures var c := Run(w, SiblingRun(w)[..3]);
            && c.headers == Siblings(w)
            && c.latest == w.genesis.number + 1 && c.canonical[c.latest] == w.hashOf(Child(w, 1))
            && w.hashOf(Child(w, 1)) != w.hashOf(Child(w, 2))
  {
    var steps, a := SiblingRun(w), Child(w, 1);
    SiblingsAreStored(w);
    var c2 := Run(w, steps[..2]);
    assert steps[..3][..2] == steps[..2];
    FirstSiblingPasses(w, c2);
    assert Run(w, steps[..3]) == Update(w, c2, w.hashOf(a), ZERO_HASH, ZERO_HASH);
  }

  lemma FirstSiblingPasses(w: World, c: Chain)
    requires Valid(w, c) && forall h :: w.hashOf(h) != ZERO_HASH
    requires HeaderRules.CanStart(w.genesis)
    requires c.headers == Siblings(w) && c.canonical == map[w.genesis.number := w.hashOf(w.genesis)]
    ensures Child(w, 1) != Child(w, 2) && c.headers[w.hashOf(Child(w, 1))] == Child(w, 1)
    ensures Verdict(w, c, w.hashOf(Child(w, 1)), ZERO_HASH, ZERO_HASH).None?
  {
  }

  // ---------------------------------------------------------------- the store

  class Store {
    const w: World
    var headers: Headers
    var pending: Headers
    var canonical: map<nat, Hash>
    var latest: nat
    var safe: Option<nat>
    var finalized: Option<nat>
    var totalDifficulty: map<Hash, nat>
    var latestTotalDifficulty: Option<nat>

    ghost function View(): Chain
      reads this
    {
      Chain(headers, pending, canonical, latest, safe, finalized, totalDifficulty, latestTotalDifficulty)
    }

    constructor (w: World)
      requires CollisionFree(w)
      ensures this.w == w && View() == Initial(w) && Valid(w, View())
    {
      this.w := w;
      var h := w.hashOf(w.genesis);
      headers, pending := map[h := w.genesis], map[];
      canonical, latest := map[w.genesis.number := h], w.genesis.number;
      safe, finalized := None, None;
      totalDifficulty, latestTotalDifficulty := map[h := w.genesis.difficulty], Some(w.genesis.difficulty);
      new;
      InitialIsValid(w);
    }

    /** Receives a block; `executes` tells whether execution and the remaining checks succeed. */
    method AddBlock(header: BlockHeader, executes: bool) returns (error: Option<AddBlockError>)
      requires Valid(w, View())
      modifies this
      ensures (View(), error) == Added(w, old(View()), header, executes)
      ensures Valid(w, View()) && canonical == old(canonical)
    {
      AddedKeepsCanonical(w, View(), header, executes);
      var h := w.hashOf(header);
      if header.parentHash !in headers {
        pending := pending[h := header];
        return Some(ParentNotFound);
      }
      if HeaderRules.ValidateHeader(w.hashOf, w.config, header, headers[header.parentHash]).Some? || !executes {
        return Some(InvalidBlock);
      }
      var td := (if latestTotalDifficulty.Some? then latestTotalDifficulty.value else 0) + header.difficulty;
      headers := headers[h := header];
      totalDifficulty := totalDifficulty[h := td];
      latestTotalDifficulty := Some(td);
      return None;
    }

    /** Walks from `block` towards genesis until it meets the canonical chain. */
    method FindLinkWithCanonicalChain(block: BlockHeader) returns (r: Option<seq<(nat, Hash)>>)
      requires Valid(w, View())
      requires w.hashOf(block) in headers
      ensures r.Some?
      ensures headers[w.hashOf(block)] == block
      ensures IsBranch(Ancestors(w, headers, w.hashOf(block)), block.number, LinkOf(w, View(), w.hashOf(block)),
                       r.value)
    {
      var blockNumber, blockHash, header := block.number, w.hashOf(block), block;
      assert Placed(w, headers, blockHash);
      ghost var full, low, link := Ancestors(w, headers, blockHash), w.genesis.number, LinkOf(w, View(), blockHash);
      var branch: seq<(nat, Hash)> := [];
      if IsCanonical(canonical, blockNumber, blockHash) {
        return Some(branch);
      }
      while blockNumber > w.genesis.number
        invariant link <= blockNumber <= block.number
        invariant full[blockNumber] in headers && header == headers[full[blockNumber]]
        invariant IsBranch(full, block.number, blockNumber, branch)
      {
        AncestorsAreLinked(w, headers, blockHash, blockNumber);
        LinkIsNext(canonical, full, low, block.number, link, blockNumber);
        BranchGrows(full, block.number, blockNumber, branch);
        blockNumber := blockNumber - 1;
        var parentHash := header.parentHash;
        if parentHash !in headers {
          return None;
        }
        if IsCanonical(canonical, blockNumber, parentHash) {
          return Some(branch);
        }
        branch := branch + [(blockNumber, parentHash)];
        header := headers[parentHash];
      }
      return None;
    }

    /** The checks that decide an update, in the order they are made. */
    method CheckForkChoice(headHash: Hash, safeHash: Hash, finalizedHash: Hash)
      returns (r: Result<seq<(nat, Hash)>, ForkChoiceError>)
      requires Valid(w, View())
      ensures match Verdict(w, View(), headHash, safeHash, finalizedHash)
              case Some(e) => r == Err(e)
              case None =>
                && r.Ok?
                && IsBranch(Ancestors(w, headers, headHash), headers[headHash].number, LinkOf(w, View(), headHash),
                            r.value)
    {
      if headHash == ZERO_HASH {
        return Err(InvalidHeadHash);
      }
      var finalizedRes, safeRes, headRes :=
        Stored(headers, finalizedHash), Stored(headers, safeHash), Stored(headers, headHash);
      if safeHash != ZERO_HASH {
        var order := CheckOrder(safeRes, headRes);
        if order.Some? {
          return Err(order.value);
        }
      }
      if finalizedHash != ZERO_HASH && safeHash != ZERO_HASH {
        var order := CheckOrder(finalizedRes, safeRes);
        if order.Some? {
          return Err(order.value);
        }
      }
      if headRes.None? {
        return Err(Syncing);
      }
      var head := headRes.value;
      assert Placed(w, headers, headHash);
      var difficulty := TotalDifficultyCheck(totalDifficulty, w.terminalTotalDifficulty, headHash, head);
      if difficulty.Some? {
        return Err(difficulty.value);
      }
      if IsCanonical(canonical, head.number, headHash) && head.number < latest {
        return Err(NewHeadAlreadyCanonical);
      }
      var link := FindLinkWithCanonicalChain(head);
      if link.None? {
        return Err(DisconnectedHead);
      }
      var branch := link.value;
      if finalizedRes.Some? {
        GuardMeansAdmitted(w, View(), finalizedHash, headHash, branch);
        if !Guard(canonical, branch, head.number, headHash, finalizedRes.value.number, finalizedHash) {
          return Err(DisconnectedFinalized);
        }
      }
      if safeRes.Some? {
        GuardMeansAdmitted(w, View(), safeHash, headHash, branch);
        if !Guard(canonical, branch, head.number, headHash, safeRes.value.number, safeHash) {
          return Err(DisconnectedSafe);
        }
      }
      return Ok(branch);
    }

    method ApplyForkChoice(headHash: Hash, safeHash: Hash, finalizedHash: Hash)
      returns (r: Result<BlockHeader, ForkChoiceError>)
      requires Valid(w, View())
      modifies this
      ensures Valid(w, View())
      ensures match Verdict(w, old(View()), headHash, safeHash, finalizedHash)
              case Some(e) => r == Err(e) && View() == old(View())
              case None =>
                && headHash in old(headers) && r == Ok(old(headers)[headHash])
                && View() == Update(w, old(View()), headHash, safeHash, finalizedHash)
    {
      var check := CheckForkChoice(headHash, safeHash, finalizedHash);
      if check.Err? {
        return Err(check.error);
      }
      UpdateIsValid(w, View(), headHash, safeHash, finalizedHash);
      var head, finalizedRes, safeRes := headers[headHash], Stored(headers, finalizedHash), Stored(headers, safeHash);
      InstallBranch(headHash, head, check.value, Ancestors(w, headers, headHash), LinkOf(w, View(), headHash));
      if finalizedRes.Some? {
        finalized := Some(finalizedRes.value.number);
      }
      if safeRes.Some? {
        safe := Some(safeRes.value.number);
      }
      latest := head.number;
      return Ok(head);
    }

    /** Forgets the canonical blocks between a number and the latest one. */
    method RemoveAbove(top: nat)
      requires top < latest
      modifies this`canonical
      ensures forall n :: n in canonical <==> n in old(canonical) && !(top < n <= latest)
      ensures forall n :: n in canonical ==> canonical[n] == old(canonical)[n]
    {
      for number := top + 1 to latest + 1
        invariant forall n :: n in canonical <==> n in old(canonical) && !(top < n < number)
        invariant forall n :: n in canonical ==> canonical[n] == old(canonical)[n]
      {
        canonical := canonical - {number};
      }
    }

    /** Writes a branch below `top` over whatever was canonical there. */
    method WriteBranch(top: nat, branch: seq<(nat, Hash)>, ghost full: map<nat, Hash>, ghost link: nat)
      requires link <= top && forall n :: link <= n <= top ==> n in full
      requires IsBranch(full, top, link, branch)
      modifies this`canonical
      ensures forall n :: n in canonical <==> n in old(canonical) || link <= n < top
      ensures forall n :: n in canonical ==> canonical[n] == if link <= n < top then full[n] else old(canonical)[n]
    {
      for i := 0 to |branch|
        invariant forall n :: n in canonical <==> n in old(canonical) || top - i <= n < top
        invariant forall n :: n in canonical ==>
                  canonical[n] == if top - i <= n < top then full[n] else old(canonical)[n]
      {
        canonical := canonical[branch[i].0 := branch[i].1];
      }
    }

    /** The writes to the canonical map: the branch, the removal of everything above, the head. */
    method InstallBranch(headHash: Hash, head: BlockHeader, branch: seq<(nat, Hash)>, ghost full: map<nat, Hash>,
                         ghost link: nat)
      requires forall n :: n in canonical <==> w.genesis.number <= n <= latest
      requires forall n :: n in full <==> w.genesis.number <= n <= head.number
      requires w.genesis.number <= head.number && full[head.number] == headHash
      requires IsLink(canonical, full, w.genesis.number, head.number, link)
      requires IsBranch(full, head.number, link, branch)
      modifies this`canonical
      ensures canonical == full
    {
      WriteBranch(head.number, branch, full, link);
      if head.number < latest {
        RemoveAbove(head.number);
      }
      canonical := canonical[head.number := headHash];
    }
  }
}
