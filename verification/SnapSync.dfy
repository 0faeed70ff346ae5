/**
  Snap sync of the accounts: the server's answer to a range request, the client's loop that asks
  for one range after the other, and the fetcher of the accounts' bytecodes.
 */
module SnapSync {
  import opened Prelude
  import opened Types
  import opened RlpItems
  import opened RlpTypes

  const HASH_MAX: Hash := 0xffffffff_ffffffff_ffffffff_ffffffff_ffffffff_ffffffff_ffffffff_ffffffff
  const MAX_RESPONSE_BYTES: nat := 512 * 1024
  const EMPTY_TRIE_HASH: Hash := 0x56e81f17_1bcc55a6_ff8345e6_92c0f86e_5b48e01b_996cadc0_01622fb5_e363b421
  const EMPTY_KECCAK_HASH: Hash := 0xc5d24601_86f7233c_927e7db2_dcc703c0_e500b653_ca82273b_7bfad804_5d85a470

  datatype AccountState = AccountState(nonce: nat, balance: nat, storageRoot: Hash, codeHash: Hash)

  datatype AccountStateSlim = AccountStateSlim(nonce: nat, balance: nat, storageRoot: Bytes, codeHash: Bytes)

  datatype Entry = Entry(hash: Hash, account: AccountState)

  datatype AccountRangeUnit = AccountRangeUnit(hash: Hash, account: AccountStateSlim)

  // ---------------------------------------------------------------- slim accounts

  predicate Fits(a: AccountState) {
    a.nonce < U64_BOUND && a.balance < Pow256(32) && a.storageRoot < Pow256(32) && a.codeHash < Pow256(32)
  }

  ghost predicate AllFit(entries: seq<Entry>) {
    forall i :: 0 <= i < |entries| ==> Fits(entries[i].account)
  }

  function SlimHash(h: Hash, empty: Hash): (bs: Bytes)
    ensures |bs| == 0 || |bs| == 32
  {
    if h == empty then [] else FixedBE(h, 32)
  }

  function FullHash(bs: Bytes, empty: Hash): Hash
    requires |bs| == 0 || |bs| == 32
  {
    if bs == [] then empty else FromBE(bs)
  }

  function ToSlim(a: AccountState): AccountStateSlim {
    AccountStateSlim(a.nonce, a.balance, SlimHash(a.storageRoot, EMPTY_TRIE_HASH),
                     SlimHash(a.codeHash, EMPTY_KECCAK_HASH))
  }

  predicate Expandable(s: AccountStateSlim) {
    (|s.storageRoot| == 0 || |s.storageRoot| == 32) && (|s.codeHash| == 0 || |s.codeHash| == 32)
  }

  function FromSlim(s: AccountStateSlim): AccountState
    requires Expandable(s)
  {
    AccountState(s.nonce, s.balance, FullHash(s.storageRoot, EMPTY_TRIE_HASH), FullHash(s.codeHash, EMPTY_KECCAK_HASH))
  }

  /** What the slim form leaves out is put back. */
  lemma SlimRoundTrip(a: AccountState)
    requires Fits(a)
    ensures FromSlim(ToSlim(a)) == a
  {
    FixedRoundTrip(a.storageRoot, 32);
    FixedRoundTrip(a.codeHash, 32);
  }

  /** The fields of an encoded slim account, in order. */
  function SlimPayload(s: AccountStateSlim): Bytes {
    EncodeUint(s.nonce, 8) + EncodeBytes(MinimalBE(s.balance, 32)) + EncodeBytes(s.storageRoot)
      + EncodeBytes(s.codeHash)
  }

  /** The bytes one entry counts for in a response: its hash and its encoded slim account. */
  function EntrySize(a: AccountState): nat {
    32 + |EncodeList(SlimPayload(ToSlim(a)))|
  }

  // ---------------------------------------------------------------- the server

  ghost predicate Ascending(entries: seq<Entry>) {
    && (forall i, j :: 0 <= i < j < |entries| ==> entries[i].hash < entries[j].hash)
    && (forall i :: 0 <= i < |entries| ==> entries[i].hash <= HASH_MAX)
  }

  /** What the server's walk over its accounts picks, having used some bytes already. */
  function Serve(size: AccountState -> nat, entries: seq<Entry>, start: Hash, limit: Hash, budget: nat,
                 used: nat): seq<Entry> {
    if entries == [] then []
    else
      var e := entries[0];
      var taken, used' := if e.hash >= start then [e] else [], if e.hash >= start then used + size(e.account) else used;
      if e.hash >= limit || used' >= budget then taken
      else taken + Serve(size, entries[1..], start, limit, budget, used')
  }

  function Slimmed(entries: seq<Entry>): seq<AccountRangeUnit> {
    seq(|entries|, i requires 0 <= i < |entries| => AccountRangeUnit(entries[i].hash, ToSlim(entries[i].account)))
  }

  method ProcessAccountRange(size: AccountState -> nat, entries: seq<Entry>, start: Hash, limit: Hash, budget: nat)
    returns (accounts: seq<AccountRangeUnit>)
    ensures accounts == Slimmed(Serve(size, entries, start, limit, budget, 0))
  {
    accounts := [];
    var bytesUsed: nat := 0;
    ghost var picked: seq<Entry> := [];
    for i := 0 to |entries|
      invariant accounts == Slimmed(picked)
      invariant picked + Serve(size, entries[i..], start, limit, budget, bytesUsed) ==
                Serve(size, entries, start, limit, budget, 0)
    {
      var e := entries[i];
      ghost var rest := entries[i..];
      assert rest[0] == e && rest[1..] == entries[i + 1..];
      if e.hash >= start {
        bytesUsed := bytesUsed + size(e.account);
        accounts := accounts + [AccountRangeUnit(e.hash, ToSlim(e.account))];
        picked := picked + [e];
      }
      if e.hash >= limit || bytesUsed >= budget {
        break;
      }
    }
  }

  /** How many entries a response holds: the one that reaches the budget is the last. */
  function Held(size: AccountState -> nat, entries: seq<Entry>, budget: nat, used: nat): (n: nat)
    ensures n <= |entries| && (entries != [] ==> n >= 1)
  {
    if entries == [] then 0
    else if used + size(entries[0].account) >= budget then 1
    else 1 + Held(size, entries[1..], budget, used + size(entries[0].account))
  }

  /** From its start on, a response is a contiguous slice. */
  lemma {:induction false} ServedIsSlice(size: AccountState -> nat, entries: seq<Entry>, start: Hash, budget: nat,
                                         used: nat)
    requires Ascending(entries) && (entries != [] ==> start <= entries[0].hash)
    ensures Serve(size, entries, start, HASH_MAX, budget, used) == entries[..Held(size, entries, budget, used)]
    decreases |entries|
  {
    if entries != [] {
      var e, used' := entries[0], used + size(entries[0].account);
      if used' < budget {
        ServedIsSlice(size, entries[1..], start, budget, used');
        assert e.hash >= HASH_MAX ==> entries == [e];
        assert entries[..Held(size, entries, budget, used)] ==
          [e] + entries[1..][..Held(size, entries[1..], budget, used')];
      }
    }
  }

  /** Entries before the start are walked over for nothing. */
  lemma {:induction false} ServedSkips(size: AccountState -> nat, entries: seq<Entry>, start: Hash, budget: nat, k: nat)
    requires Ascending(entries) && k < |entries| && budget > 0
    requires forall i :: 0 <= i < k ==> entries[i].hash < start
    ensures Serve(size, entries, start, HASH_MAX, budget, 0) == Serve(size, entries[k..], start, HASH_MAX, budget, 0)
    decreases |entries|
  {
    if k > 0 {
      assert entries[0].hash < entries[k].hash <= HASH_MAX;
      ServedSkips(size, entries[1..], start, budget, k - 1);
      assert entries[1..][k - 1..] == entries[k..];
    }
  }

  /** An entry that fills the budget alone ends every response it is in. */
  lemma {:induction false} HeldStopsAt(size: AccountState -> nat, entries: seq<Entry>, budget: nat, used: nat, big: nat)
    requires big < |entries| && size(entries[big].account) >= budget
    ensures Held(size, entries, budget, used) <= big + 1
    decreases |entries|
  {
    if big > 0 {
      HeldStopsAt(size, entries[1..], budget, used + size(entries[0].account), big - 1);
    }
  }

  // ---------------------------------------------------------------- the client

  datatype SyncState = SyncState(start: Hash, accounts: map<Hash, AccountState>, storages: set<(Hash, Hash)>,
                                 done: bool)

  /** Inserting entries in order, as into the trie being rebuilt. */
  function Inserted(m: map<Hash, AccountState>, entries: seq<Entry>): map<Hash, AccountState> {
    if entries == [] then m
    else Inserted(m, entries[..|entries| - 1])[entries[|entries| - 1].hash := entries[|entries| - 1].account]
  }

  /** The storages to fetch: hash and root of every account that has one. */
  ghost function StoragesOf(entries: seq<Entry>): set<(Hash, Hash)> {
    set i | 0 <= i < |entries| && entries[i].account.storageRoot != EMPTY_TRIE_HASH ::
      (entries[i].hash, entries[i].account.storageRoot)
  }

  /** What verifying a range tells besides its validity: whether keys remain to its right. */
  predicate HasMore(entries: seq<Entry>, served: seq<Entry>) {
    served != [] && entries != [] && served[|served| - 1].hash < entries[|entries| - 1].hash
  }

  /** One answered request, checked against the server's whole account list. */
  ghost function Round(size: AccountState -> nat, entries: seq<Entry>, budget: nat, s: SyncState): SyncState {
    var served := Serve(size, entries, s.start, HASH_MAX, budget, 0);
    SyncState(if HasMore(entries, served) then served[|served| - 1].hash else s.start,
              Inserted(s.accounts, served), s.storages + StoragesOf(served), !HasMore(entries, served))
  }

  ghost function Started(): SyncState {
    SyncState(0, map[], {}, false)
  }

  ghost function Rounds(size: AccountState -> nat, entries: seq<Entry>, budget: nat, n: nat): SyncState {
    if n == 0 then Started()
    else
      var before := Rounds(size, entries, budget, n - 1);
      if before.done then before else Round(size, entries, budget, before)
  }

  /** The first `m` accounts are in; the next request starts at the last of them again. */
  ghost predicate Reached(entries: seq<Entry>, s: SyncState, m: nat) {
    && m <= |entries|
    && s.accounts == Inserted(map[], entries[..m]) && s.storages == StoragesOf(entries[..m])
    && (if s.done then m == |entries|
        else if m == 0 then s.start == 0
        else m < |entries| && s.start == entries[m - 1].hash)
  }

  function From(m: nat): nat {
    if m == 0 then 0 else m - 1
  }

  lemma {:induction false} InsertedConcat(m: map<Hash, AccountState>, a: seq<Entry>, b: seq<Entry>)
    ensures Inserted(m, a + b) == Inserted(Inserted(m, a), b)
    decreases |b|
  {
    if b == [] {
      assert a + b == a;
    } else {
      assert (a + b)[..|a + b| - 1] == a + b[..|b| - 1];
      InsertedConcat(m, a, b[..|b| - 1]);
    }
  }

  /** Receiving the last account a second time changes nothing. */
  lemma InsertedAgain(entries: seq<Entry>, m: nat, j: nat)
    requires m <= |entries| && From(m) <= j <= |entries| && m <= j
    ensures Inserted(Inserted(map[], entries[..m]), entries[From(m)..j]) == Inserted(map[], entries[..j])
  {
    if m == 0 {
      assert entries[From(m)..j] == entries[..j];
      assert entries[..m] == [];
    } else {
      var got, e := Inserted(map[], entries[..m]), entries[m - 1];
      assert entries[..m][..m - 1] == entries[..m - 1];
      assert got[e.hash := e.account] == got;
      assert [e] + entries[m..j] == entries[m - 1..j];
      InsertedConcat(got, [e], entries[m..j]);
      InsertedOne(got, e);
      InsertedConcat(map[], entries[..m], entries[m..j]);
      assert entries[..m] + entries[m..j] == entries[..j];
    }
  }

  lemma InsertedOne(m: map<Hash, AccountState>, e: Entry)
    ensures Inserted(m, [e]) == m[e.hash := e.account]
  {
  }

  lemma StoragesConcat(a: seq<Entry>, b: seq<Entry>, whole: seq<Entry>)
    requires forall e :: e in whole <==> e in a || e in b
    ensures StoragesOf(whole) == StoragesOf(a) + StoragesOf(b)
  {
    forall x | x in StoragesOf(whole) ensures x in StoragesOf(a) + StoragesOf(b) {
      var i :| 0 <= i < |whole| && whole[i].account.storageRoot != EMPTY_TRIE_HASH
        && x == (whole[i].hash, whole[i].account.storageRoot);
      StorageOfMember(if whole[i] in a then a else b, whole[i]);
    }
    forall x | x in StoragesOf(a) + StoragesOf(b) ensures x in StoragesOf(whole) {
      var part := if x in StoragesOf(a) then a else b;
      var i :| 0 <= i < |part| && part[i].account.storageRoot != EMPTY_TRIE_HASH
        && x == (part[i].hash, part[i].account.storageRoot);
      StorageOfMember(whole, part[i]);
    }
  }

  lemma StorageOfMember(entries: seq<Entry>, e: Entry)
    requires e in entries && e.account.storageRoot != EMPTY_TRIE_HASH
    ensures (e.hash, e.account.storageRoot) in StoragesOf(entries)
  {
  }

  /** A request for the entries from the `k`-th on is answered with a slice from there. */
  lemma ServedFrom(size: AccountState -> nat, entries: seq<Entry>, budget: nat, start: Hash, k: nat)
    requires Ascending(entries) && budget > 0 && k < |entries| && start <= entries[k].hash
    requires forall i :: 0 <= i < k ==> entries[i].hash < start
    ensures Serve(size, entries, start, HASH_MAX, budget, 0) == entries[k..k + Held(size, entries[k..], budget, 0)]
  {
    ServedSkips(size, entries, start, budget, k);
    ServedIsSlice(size, entries[k..], start, budget, 0);
  }

  /** The state after the entries from the `k`-th to before the `m`-th were received. */
  ghost function After(entries: seq<Entry>, s: SyncState, k: nat, m: nat): SyncState
    requires k < m <= |entries|
  {
    SyncState(if m < |entries| then entries[m - 1].hash else s.start, Inserted(s.accounts, entries[k..m]),
              s.storages + StoragesOf(entries[k..m]), m == |entries|)
  }

  /** Where a slice from the last known account on leads. */
  lemma SliceAdvances(entries: seq<Entry>, s: SyncState, m: nat, m': nat)
    requires Reached(entries, s, m) && !s.done && From(m) < m' <= |entries| && m <= m'
    ensures Reached(entries, After(entries, s, From(m), m'), m')
  {
    InsertedAgain(entries, m, m');
    StoragesConcat(entries[..m], entries[From(m)..m'], entries[..m']);
  }

  lemma LastOfSlice(entries: seq<Entry>, k: nat, m: nat)
    requires Ascending(entries) && k < m <= |entries|
    ensures entries[k..m][m - k - 1] == entries[m - 1]
    ensures HasMore(entries, entries[k..m]) <==> m < |entries|
  {
  }

  lemma RoundIsSlice(size: AccountState -> nat, entries: seq<Entry>, budget: nat, s: SyncState, k: nat)
    requires Ascending(entries) && budget > 0 && k < |entries|
    requires if k == 0 then s.start <= entries[k].hash else s.start == entries[k].hash
    ensures Round(size, entries, budget, s) == After(entries, s, k, k + Held(size, entries[k..], budget, 0))
  {
    var m := k + Held(size, entries[k..], budget, 0);
    ServedFrom(size, entries, budget, s.start, k);
    LastOfSlice(entries, k, m);
    assert Round(size, entries, budget, s).done == (m == |entries|);
  }

  /** Where a request starts once `m` accounts are in. */
  lemma StartsAt(entries: seq<Entry>, s: SyncState, m: nat)
    requires Reached(entries, s, m) && !s.done && entries != []
    ensures From(m) < |entries| && m <= |entries|
    ensures if From(m) == 0 then s.start <= entries[0].hash else s.start == entries[From(m)].hash
  {
  }

  lemma RoundReaches(size: AccountState -> nat, entries: seq<Entry>, budget: nat, s: SyncState, k: nat, m: nat)
    requires Ascending(entries) && budget > 0 && k < |entries| && m == k + Held(size, entries[k..], budget, 0)
    requires if k == 0 then s.start <= entries[k].hash else s.start == entries[k].hash
    requires Reached(entries, After(entries, s, k, m), m)
    ensures Reached(entries, Round(size, entries, budget, s), m)
  {
    RoundIsSlice(size, entries, budget, s, k);
    SameReached(entries, After(entries, s, k, m), Round(size, entries, budget, s), m);
  }

  /** What a request from the `m`-th account on is answered with, and where that leads. */
  lemma RoundAdvances(size: AccountState -> nat, entries: seq<Entry>, budget: nat, s: SyncState,
                      m: nat) returns (m': nat)
    requires Ascending(entries) && budget > 0 && Reached(entries, s, m) && !s.done
    ensures entries == [] ==> m' == 0
    ensures entries != [] ==> From(m) < |entries| && m' == From(m) + Held(size, entries[From(m)..], budget, 0)
    ensures m <= m' && Reached(entries, Round(size, entries, budget, s), m')
  {
    if entries == [] {
      m' := 0;
      EmptyIsDone(size, budget, s);
      SameReached(entries, Round(size, [], budget, s), Round(size, entries, budget, s), m');
    } else {
      StartsAt(entries, s, m);
      m' := From(m) + Held(size, entries[From(m)..], budget, 0);
      SliceAdvances(entries, s, m, m');
      RoundReaches(size, entries, budget, s, From(m), m');
    }
  }

  lemma SameReached(entries: seq<Entry>, s: SyncState, s': SyncState, m: nat)
    requires Reached(entries, s, m) && s' == s
    ensures Reached(entries, s', m)
  {
  }

  lemma EmptyIsDone(size: AccountState -> nat, budget: nat, s: SyncState)
    requires Reached([], s, 0)
    ensures Reached([], Round(size, [], budget, s), 0) && Round(size, [], budget, s).done
  {
  }

  /** Whatever the sizes, the accounts received so far are always the first ones of the server. */
  lemma {:induction false} AlwaysAPrefix(size: AccountState -> nat, entries: seq<Entry>, budget: nat,
                                         n: nat) returns (m: nat)
    requires Ascending(entries) && budget > 0
    ensures Reached(entries, Rounds(size, entries, budget, n), m)
  {
    if n == 0 {
      m := 0;
    } else {
      m := AlwaysAPrefix(size, entries, budget, n - 1);
      var before := Rounds(size, entries, budget, n - 1);
      if !before.done {
        m := RoundAdvances(size, entries, budget, before, m);
      }
    }
  }

  /** Every account but the last leaves room for another one. */
  predicate LeavesRoom(size: AccountState -> nat, entries: seq<Entry>, budget: nat) {
    forall i :: 0 <= i < |entries| - 1 ==> size(entries[i].account) < budget
  }

  /** With room, every request brings at least one new account. */
  lemma {:induction false} ProgressEveryRound(size: AccountState -> nat, entries: seq<Entry>, budget: nat,
                                              n: nat) returns (m: nat)
    requires Ascending(entries) && budget > 0 && LeavesRoom(size, entries, budget)
    ensures Reached(entries, Rounds(size, entries, budget, n), m)
    ensures Rounds(size, entries, budget, n).done || m >= Min(n, |entries|)
  {
    if n == 0 {
      m := 0;
    } else {
      var before := Rounds(size, entries, budget, n - 1);
      var after := Rounds(size, entries, budget, n);
      m := ProgressEveryRound(size, entries, budget, n - 1);
      if before.done {
        SameReached(entries, before, after, m);
      } else {
        m := RoundProgresses(size, entries, budget, before, m);
        SameReached(entries, Round(size, entries, budget, before), after, m);
      }
    }
  }

  lemma RoundProgresses(size: AccountState -> nat, entries: seq<Entry>, budget: nat, s: SyncState,
                        m: nat) returns (m': nat)
    requires Ascending(entries) && budget > 0 && LeavesRoom(size, entries, budget) && Reached(entries, s, m) && !s.done
    ensures Reached(entries, Round(size, entries, budget, s), m')
    ensures Round(size, entries, budget, s).done || m' > m
  {
    m' := RoundAdvances(size, entries, budget, s, m);
    if m > 0 {
      var rest := entries[From(m)..];
      assert rest[0] == entries[m - 1] && Held(size, rest[1..], budget, size(rest[0].account)) >= 1;
    }
  }

  /** Behind an account that fills a response alone, the loop asks for it again for ever. */
  lemma {:induction false} StuckAtBigAccount(size: AccountState -> nat, entries: seq<Entry>, budget: nat, big: nat,
                                             n: nat) returns (m: nat)
    requires Ascending(entries) && budget > 0 && big + 1 < |entries| && size(entries[big].account) >= budget
    ensures Reached(entries, Rounds(size, entries, budget, n), m)
    ensures m <= big + 1 && !Rounds(size, entries, budget, n).done
  {
    if n == 0 {
      m := 0;
    } else {
      m := StuckAtBigAccount(size, entries, budget, big, n - 1);
      var k := From(m);
      assert entries[k..][big - k] == entries[big];
      HeldStopsAt(size, entries[k..], budget, 0, big - k);
      m := RoundAdvances(size, entries, budget, Rounds(size, entries, budget, n - 1), m);
    }
  }

  /** The account loop ends exactly when every account but the last is smaller than a response. */
  lemma SyncEndsIffRoom(size: AccountState -> nat, entries: seq<Entry>, budget: nat)
    requires Ascending(entries) && budget > 0
    ensures (exists n :: Rounds(size, entries, budget, n).done) <==> LeavesRoom(size, entries, budget)
  {
    if LeavesRoom(size, entries, budget) {
      var n := |entries| + 1;
      var m := ProgressEveryRound(size, entries, budget, n);
      assert Rounds(size, entries, budget, n).done;
    } else {
      var big :| 0 <= big < |entries| - 1 && size(entries[big].account) >= budget;
      forall n: nat ensures !Rounds(size, entries, budget, n).done {
        var m := StuckAtBigAccount(size, entries, budget, big, n);
      }
    }
  }

  /** `entries` is the server's state in the order of its keys. */
  ghost predicate Lists(entries: seq<Entry>, state: map<Hash, AccountState>) {
    && Ascending(entries)
    && (forall i :: 0 <= i < |entries| ==> entries[i].hash in state && state[entries[i].hash] == entries[i].account)
    && (forall h :: h in state ==> exists i :: 0 <= i < |entries| && entries[i].hash == h)
  }

  lemma {:induction false} InsertedHas(entries: seq<Entry>, h: Hash)
    requires forall i, j :: 0 <= i < j < |entries| ==> entries[i].hash < entries[j].hash
    ensures h in Inserted(map[], entries) <==> exists i :: 0 <= i < |entries| && entries[i].hash == h
    ensures forall i :: 0 <= i < |entries| && entries[i].hash == h ==> Inserted(map[], entries)[h] == entries[i].account
    decreases |entries|
  {
    if entries != [] {
      var front, last := entries[..|entries| - 1], entries[|entries| - 1];
      InsertedHas(front, h);
      assert forall i :: 0 <= i < |front| ==> front[i] == entries[i];
      if h in Inserted(map[], front) {
        var i :| 0 <= i < |front| && front[i].hash == h;
        assert entries[i].hash == h;
      } else if h == last.hash {
        assert entries[|entries| - 1].hash == h;
      }
    }
  }

  /** A finished sync holds exactly the server's accounts, and has asked for exactly their storages. */
  lemma FinishedIsServerState(size: AccountState -> nat, entries: seq<Entry>, state: map<Hash, AccountState>,
                              budget: nat, n: nat)
    requires Lists(entries, state) && budget > 0 && Rounds(size, entries, budget, n).done
    ensures Rounds(size, entries, budget, n).accounts == state
    ensures Rounds(size, entries, budget, n).storages == StoragesOf(entries)
  {
    var m := AlwaysAPrefix(size, entries, budget, n);
    assert entries[..m] == entries;
    forall h ensures h in Inserted(map[], entries) <==> h in state {
      InsertedHas(entries, h);
    }
    forall h | h in state ensures Inserted(map[], entries)[h] == state[h] {
      InsertedHas(entries, h);
    }
  }

  /** With real account sizes the protocol's budget always leaves room. */
  lemma RealAccountsLeaveRoom(entries: seq<Entry>)
    ensures LeavesRoom(EntrySize, entries, MAX_RESPONSE_BYTES)
  {
  }

  /** Whether the store has a bytecode when the answer to the `n`-th request is processed. */
  type KnownCodes = (nat, Hash) -> bool

  ghost predicate HasCode(entries: seq<Entry>, c: Hash) {
    c != EMPTY_KECCAK_HASH && exists i :: 0 <= i < |entries| && entries[i].account.codeHash == c
  }

  /** The answer to the `n`-th request. */
  ghost function Answer(size: AccountState -> nat, entries: seq<Entry>, budget: nat, n: nat): seq<Entry> {
    Serve(size, entries, Rounds(size, entries, budget, n).start, HASH_MAX, budget, 0)
  }

  /** The `n`-th answer brings an account with this code, which the store does not have at that moment. */
  ghost predicate WantedAt(size: AccountState -> nat, entries: seq<Entry>, budget: nat, known: KnownCodes, n: nat,
                           c: Hash) {
    HasCode(Answer(size, entries, budget, n), c) && !known(n, c)
  }

  ghost predicate Wanted(size: AccountState -> nat, entries: seq<Entry>, budget: nat, known: KnownCodes, rounds: nat,
                         c: Hash) {
    exists n: nat :: n < rounds && WantedAt(size, entries, budget, known, n, c)
  }

  /** Exactly the wanted codes of these rounds are queued. */
  ghost predicate QueuedExactly(size: AccountState -> nat, entries: seq<Entry>, budget: nat, known: KnownCodes,
                                rounds: nat, queued: seq<Hash>) {
    forall c :: c in queued <==> Wanted(size, entries, budget, known, rounds, c)
  }

  /** One of these rounds brought the account. */
  ghost predicate Answered(size: AccountState -> nat, entries: seq<Entry>, budget: nat, rounds: nat, e: Entry) {
    exists n: nat :: n < rounds && e in Answer(size, entries, budget, n)
  }

  ghost predicate AllAnswered(size: AccountState -> nat, entries: seq<Entry>, budget: nat, rounds: nat,
                              accounts: map<Hash, AccountState>) {
    forall h :: h in accounts ==> Answered(size, entries, budget, rounds, Entry(h, accounts[h]))
  }

  lemma WantedNext(size: AccountState -> nat, entries: seq<Entry>, budget: nat, known: KnownCodes, n: nat, c: Hash)
    ensures Wanted(size, entries, budget, known, n + 1, c) <==>
            Wanted(size, entries, budget, known, n, c) || WantedAt(size, entries, budget, known, n, c)
  {
    if Wanted(size, entries, budget, known, n, c) {
      var k: nat :| k < n && WantedAt(size, entries, budget, known, k, c);
      assert k < n + 1;
    }
  }

  lemma QueuedNext(size: AccountState -> nat, entries: seq<Entry>, budget: nat, known: KnownCodes, n: nat,
                   queued: seq<Hash>, codeHashes: seq<Hash>)
    requires QueuedExactly(size, entries, budget, known, n, queued)
    requires forall c :: c in codeHashes <==> WantedAt(size, entries, budget, known, n, c)
    ensures QueuedExactly(size, entries, budget, known, n + 1, queued + codeHashes)
  {
    forall c ensures c in queued + codeHashes <==> Wanted(size, entries, budget, known, n + 1, c) {
      WantedNext(size, entries, budget, known, n, c);
    }
  }

  lemma {:induction false} InsertedFrom(m: map<Hash, AccountState>, served: seq<Entry>, h: Hash)
    requires h in Inserted(m, served)
    ensures (h in m && m[h] == Inserted(m, served)[h]) || Entry(h, Inserted(m, served)[h]) in served
  {
    if served != [] && served[|served| - 1].hash != h {
      InsertedFrom(m, served[..|served| - 1], h);
    }
  }

  lemma AnsweredNext(size: AccountState -> nat, entries: seq<Entry>, budget: nat, n: nat,
                     accounts: map<Hash, AccountState>)
    requires AllAnswered(size, entries, budget, n, accounts)
    ensures AllAnswered(size, entries, budget, n + 1, Inserted(accounts, Answer(size, entries, budget, n)))
  {
    var served := Answer(size, entries, budget, n);
    var accounts' := Inserted(accounts, served);
    forall h | h in accounts' ensures Answered(size, entries, budget, n + 1, Entry(h, accounts'[h])) {
      InsertedFrom(accounts, served, h);
      if Entry(h, accounts'[h]) !in served {
        var k: nat :| k < n && Entry(h, accounts[h]) in Answer(size, entries, budget, k);
        assert k < n + 1;
      }
    }
  }

  /** Adds a verified response to the accounts and collects the storages and bytecodes to fetch. */
  method StoreRange(units: seq<AccountRangeUnit>, accounts: map<Hash, AccountState>, storages: set<(Hash, Hash)>,
                    known: KnownCodes, n: nat, ghost served: seq<Entry>)
    returns (accounts': map<Hash, AccountState>, storages': set<(Hash, Hash)>, codeHashes: seq<Hash>)
    requires units == Slimmed(served) && AllFit(served)
    ensures accounts' == Inserted(accounts, served) && storages' == storages + StoragesOf(served)
    ensures forall c :: c in codeHashes <==> HasCode(served, c) && !known(n, c)
  {
    accounts', storages', codeHashes := accounts, storages, [];
    for i := 0 to |units|
      invariant accounts' == Inserted(accounts, served[..i]) && storages' == storages + StoragesOf(served[..i])
      invariant forall c :: c in codeHashes <==> HasCode(served[..i], c) && !known(n, c)
    {
      SlimRoundTrip(served[i].account);
      var account := FromSlim(units[i].account);
      assert served[..i + 1][..i] == served[..i];
      StoragesConcat(served[..i], [served[i]], served[..i + 1]);
      StoragesOfOne(served[i]);
      if account.codeHash != EMPTY_KECCAK_HASH && !known(n, account.codeHash) {
        codeHashes := codeHashes + [account.codeHash];
      }
      CodesAppend(served[..i], served[i], served[..i + 1]);
      accounts' := accounts'[units[i].hash := account];
      if account.storageRoot != EMPTY_TRIE_HASH {
        storages' := storages' + {(units[i].hash, account.storageRoot)};
      }
    }
    assert served[..|units|] == served;
  }

  lemma CodesAppend(entries: seq<Entry>, e: Entry, more: seq<Entry>)
    requires more == entries + [e]
    ensures forall c :: HasCode(more, c) <==> HasCode(entries, c) || (c == e.account.codeHash != EMPTY_KECCAK_HASH)
  {
    assert more[|entries|] == e;
    forall c | HasCode(entries, c) ensures HasCode(more, c) {
      var i :| 0 <= i < |entries| && entries[i].account.codeHash == c;
      assert more[i].account.codeHash == c;
    }
  }

  lemma StoragesOfOne(e: Entry)
    ensures StoragesOf([e]) ==
            if e.account.storageRoot != EMPTY_TRIE_HASH then {(e.hash, e.account.storageRoot)} else {}
  {
    if e.account.storageRoot != EMPTY_TRIE_HASH {
      StorageOfMember([e], e);
    }
  }

  /** One request and what the client does with its answer. */
  method RequestRange(size: AccountState -> nat, entries: seq<Entry>, budget: nat, start: Hash,
                      accounts: map<Hash, AccountState>, storages: set<(Hash, Hash)>, known: KnownCodes, n: nat)
    returns (start': Hash, accounts': map<Hash, AccountState>, storages': set<(Hash, Hash)>, done: bool,
             codeHashes: seq<Hash>)
    requires AllFit(entries)
    ensures SyncState(start', accounts', storages', done)
         == Round(size, entries, budget, SyncState(start, accounts, storages, false))
    ensures forall c :: c in codeHashes <==>
              HasCode(Serve(size, entries, start, HASH_MAX, budget, 0), c) && !known(n, c)
  {
    ghost var served := Serve(size, entries, start, HASH_MAX, budget, 0);
    ServedFit(size, entries, start, budget, 0);
    var units := ProcessAccountRange(size, entries, start, HASH_MAX, budget);
    var shouldContinue := units != [] && entries != [] && units[|units| - 1].hash < entries[|entries| - 1].hash;
    start' := if shouldContinue then units[|units| - 1].hash else start;
    accounts', storages', codeHashes := StoreRange(units, accounts, storages, known, n, served);
    done := !shouldContinue;
  }

  ghost predicate NoEmptyMessage(batches: seq<seq<Hash>>) {
    forall i :: 0 <= i < |batches| ==> batches[i] != []
  }

  lemma {:induction false} RequestedAppend(batches: seq<seq<Hash>>, batch: seq<Hash>)
    requires NoEmptyMessage(batches)
    ensures Requested(batches + [batch]) == Requested(batches) + batch
  {
    if batches == [] {
      assert batches + [batch] == [batch] && [batch][1..] == [];
      assert Requested([batch]) == batch;
    } else {
      assert (batches + [batch])[1..] == batches[1..] + [batch];
      RequestedAppend(batches[1..], batch);
    }
  }

  /**
    The client's loop against this server: whatever the server's accounts, it ends, with exactly
    them, after asking for exactly their storages. Every account came with some answer, and the
    codes queued for the fetcher are exactly those the store lacked when an answer brought them.
   */
  method RebuildState(size: AccountState -> nat, entries: seq<Entry>, budget: nat, known: KnownCodes,
                      ghost state: map<Hash, AccountState>)
    returns (accounts: map<Hash, AccountState>, storages: set<(Hash, Hash)>, batches: seq<seq<Hash>>,
             ghost rounds: nat)
    requires Lists(entries, state) && budget > 0 && LeavesRoom(size, entries, budget)
    requires AllFit(entries)
    ensures accounts == state && Rounds(size, entries, budget, rounds).done
    ensures forall x :: x in storages <==> x.0 in state && state[x.0].storageRoot == x.1 != EMPTY_TRIE_HASH
    ensures AllAnswered(size, entries, budget, rounds, state)
    ensures NoEmptyMessage(batches) && QueuedExactly(size, entries, budget, known, rounds, Requested(batches))
  {
    var start: Hash, done := 0, false;
    accounts, storages, batches := map[], {}, [];
    var n: nat := 0;
    ghost var m: nat := 0;
    while !done
      invariant SyncState(start, accounts, storages, done) == Rounds(size, entries, budget, n)
      invariant Reached(entries, Rounds(size, entries, budget, n), m)
      invariant AllAnswered(size, entries, budget, n, accounts)
      invariant NoEmptyMessage(batches) && QueuedExactly(size, entries, budget, known, n, Requested(batches))
      decreases if done then 0 else |entries| + 1 - m
    {
      m := RoundProgresses(size, entries, budget, SyncState(start, accounts, storages, done), m);
      AnsweredNext(size, entries, budget, n, accounts);
      var codeHashes;
      start, accounts, storages, done, codeHashes :=
        RequestRange(size, entries, budget, start, accounts, storages, known, n);
      QueuedNext(size, entries, budget, known, n, Requested(batches), codeHashes);
      batches := SendCodes(batches, codeHashes);
      n := n + 1;
    }
    FinishedIsServerState(size, entries, state, budget, n);
    StoragesOfState(entries, state);
    rounds := n;
  }

  /** A wanted code is the code of some account. */
  lemma WantedIsInState(size: AccountState -> nat, entries: seq<Entry>, budget: nat, known: KnownCodes, rounds: nat,
                        state: map<Hash, AccountState>, c: Hash)
    requires Lists(entries, state) && AllFit(entries) && Wanted(size, entries, budget, known, rounds, c)
    ensures StateHasCode(state, c)
  {
    var n: nat :| n < rounds && WantedAt(size, entries, budget, known, n, c);
    var served := Answer(size, entries, budget, n);
    ServedFit(size, entries, Rounds(size, entries, budget, n).start, budget, 0);
    var i :| 0 <= i < |served| && served[i].account.codeHash == c;
    assert served[i] in entries && served[i].hash in state;
  }

  ghost predicate StateHasCode(state: map<Hash, AccountState>, c: Hash) {
    c != EMPTY_KECCAK_HASH && exists h :: h in state && state[h].codeHash == c
  }

  /** Sends a response's code hashes to the fetcher, unless there are none. */
  method SendCodes(batches: seq<seq<Hash>>, codeHashes: seq<Hash>) returns (batches': seq<seq<Hash>>)
    requires NoEmptyMessage(batches)
    ensures NoEmptyMessage(batches') && Requested(batches') == Requested(batches) + codeHashes
  {
    if codeHashes == [] {
      assert Requested(batches) + [] == Requested(batches);
      return batches;
    }
    RequestedAppend(batches, codeHashes);
    return batches + [codeHashes];
  }

  /** When this account arrived its code was empty or in the store, or it has been fetched. */
  ghost predicate CodeArrived(size: AccountState -> nat, entries: seq<Entry>, budget: nat, known: KnownCodes,
                              rounds: nat, e: Entry, codes: map<Hash, Bytes>) {
    exists n: nat ::
      && n < rounds && e in Answer(size, entries, budget, n)
      && (e.account.codeHash == EMPTY_KECCAK_HASH || known(n, e.account.codeHash) || e.account.codeHash in codes)
  }

  lemma AnsweredCodeArrived(size: AccountState -> nat, entries: seq<Entry>, budget: nat, known: KnownCodes,
                            rounds: nat, e: Entry, codes: map<Hash, Bytes>)
    requires Answered(size, entries, budget, rounds, e)
    requires forall c :: c in codes <==> Wanted(size, entries, budget, known, rounds, c)
    ensures CodeArrived(size, entries, budget, known, rounds, e, codes)
  {
    var n: nat :| n < rounds && e in Answer(size, entries, budget, n);
    var c := e.account.codeHash;
    if c != EMPTY_KECCAK_HASH && !known(n, c) {
      assert HasCode(Answer(size, entries, budget, n), c);
      assert WantedAt(size, entries, budget, known, n, c);
    }
  }

  /**
    The account loop and the bytecode fetcher together: in the end every account's bytecode is
    empty, fetched, or was in the store at the round that brought the account, and exactly the
    codes that were missing when they were met are fetched.
   */
  method FetchSnapState(size: AccountState -> nat, entries: seq<Entry>, budget: nat, known: KnownCodes,
                        reply: CodeReplies, ghost state: map<Hash, AccountState>)
    returns (accounts: map<Hash, AccountState>, storages: set<(Hash, Hash)>, codes: map<Hash, Bytes>,
             ghost rounds: nat)
    requires Lists(entries, state) && budget > 0 && LeavesRoom(size, entries, budget)
    requires AllFit(entries) && ValidReplies(reply)
    ensures accounts == state && Rounds(size, entries, budget, rounds).done
    ensures forall x :: x in storages <==> x.0 in state && state[x.0].storageRoot == x.1 != EMPTY_TRIE_HASH
    ensures forall h :: h in state ==>
              CodeArrived(size, entries, budget, known, rounds, Entry(h, state[h]), codes)
    ensures forall c :: c in codes <==> Wanted(size, entries, budget, known, rounds, c)
    ensures forall c :: c in codes ==> StateHasCode(state, c)
  {
    var batches;
    accounts, storages, batches, rounds := RebuildState(size, entries, budget, known, state);
    RequestedAppend(batches, []);
    assert Requested(batches) + [] == Requested(batches);
    ghost var stored;
    codes, stored := BytecodeFetcher(reply, batches + [[]]);
    assert forall c :: c in codes <==> c in Requested(batches);
    forall h | h in state ensures CodeArrived(size, entries, budget, known, rounds, Entry(h, state[h]), codes) {
      AnsweredCodeArrived(size, entries, budget, known, rounds, Entry(h, state[h]), codes);
    }
    forall c | c in codes ensures StateHasCode(state, c) {
      WantedIsInState(size, entries, budget, known, rounds, state, c);
    }
  }

  lemma {:induction false} ServedFit(size: AccountState -> nat, entries: seq<Entry>, start: Hash, budget: nat,
                                     used: nat)
    requires AllFit(entries)
    ensures AllFit(Serve(size, entries, start, HASH_MAX, budget, used))
    ensures forall e :: e in Serve(size, entries, start, HASH_MAX, budget, used) ==> e in entries
    decreases |entries|
  {
    if entries != [] {
      var used' := if entries[0].hash >= start then used + size(entries[0].account) else used;
      ServedFit(size, entries[1..], start, budget, used');
    }
  }

  lemma StoragesOfState(entries: seq<Entry>, state: map<Hash, AccountState>)
    requires Lists(entries, state)
    ensures forall x :: x in StoragesOf(entries) <==> x.0 in state && state[x.0].storageRoot == x.1 != EMPTY_TRIE_HASH
  {
  }

  // ---------------------------------------------------------------- bytecodes

  const BATCH_SIZE: nat := 200

  /** A peer's valid answer to its `n`-th question: some bytecodes, at most one per hash. */
  type CodeReplies = (nat, seq<Hash>) -> seq<Bytes>

  ghost predicate ValidReplies(reply: CodeReplies) {
    forall n: nat, batch: seq<Hash> :: batch != [] ==> 1 <= |reply(n, batch)| <= |batch|
  }

  /** The hashes that come before the first empty message. */
  function Requested(messages: seq<seq<Hash>>): seq<Hash> {
    if messages == [] || messages[0] == [] then [] else messages[0] + Requested(messages[1..])
  }

  function HashesIn(hashes: seq<Hash>): set<Hash> {
    set h | h in hashes
  }

  /** The first `k` bytecodes of an answer stored under the first `k` hashes of the batch. */
  function Filed(codes: map<Hash, Bytes>, batch: seq<Hash>, bytecodes: seq<Bytes>, k: nat): map<Hash, Bytes>
    requires k <= |bytecodes| && k <= |batch|
  {
    if k == 0 then codes else Filed(codes, batch, bytecodes, k - 1)[batch[k - 1] := bytecodes[k - 1]]
  }

  lemma {:induction false} FiledKeys(codes: map<Hash, Bytes>, batch: seq<Hash>, bytecodes: seq<Bytes>, k: nat)
    requires k <= |bytecodes| && k <= |batch|
    ensures Filed(codes, batch, bytecodes, k).Keys == codes.Keys + HashesIn(batch[..k])
  {
    if k > 0 {
      FiledKeys(codes, batch, bytecodes, k - 1);
      assert batch[..k] == batch[..k - 1] + [batch[k - 1]];
    }
  }

  /** Stores what was answered, in the batch's order, and returns the hashes left over. */
  method FetchBytecodeBatch(reply: CodeReplies, n: nat, batch: seq<Hash>, codes: map<Hash, Bytes>)
    returns (left: seq<Hash>, codes': map<Hash, Bytes>)
    requires ValidReplies(reply) && batch != []
    ensures left == batch[|reply(n, batch)|..] && |left| < |batch|
    ensures codes' == Filed(codes, batch, reply(n, batch), |reply(n, batch)|)
    ensures codes'.Keys == codes.Keys + HashesIn(batch[..|batch| - |left|])
  {
    var bytecodes := reply(n, batch);
    left, codes' := batch, codes;
    for i := 0 to |bytecodes|
      invariant left == batch[i..] && codes' == Filed(codes, batch, bytecodes, i)
    {
      codes' := codes'[left[0] := bytecodes[i]];
      left := left[1..];
    }
    FiledKeys(codes, batch, bytecodes, |bytecodes|);
  }

  /** Every requested hash is stored, none is lost between the queue and the batches. */
  method BytecodeFetcher(reply: CodeReplies, messages: seq<seq<Hash>>) returns (codes: map<Hash, Bytes>,
                         ghost stored: seq<Hash>)
    requires ValidReplies(reply)
    ensures codes.Keys == HashesIn(Requested(messages))
    ensures multiset(stored) == multiset(Requested(messages))
  {
    var pending: seq<Hash>, next := [], 0;
    var n: nat := 0;
    codes, stored := map[], [];
    ghost var queued: seq<Hash> := [];
    while next < |messages| && messages[next] != []
      invariant next <= |messages|
      invariant QueuedUpTo(messages, next, queued)
      invariant Conserved(stored, pending, queued)
      invariant codes.Keys == HashesIn(stored)
    {
      NextMessage(messages, next, queued);
      QueuedIsConserved(stored, pending, queued, messages[next]);
      pending, queued := pending + messages[next], queued + messages[next];
      next := next + 1;
      pending, codes, n, stored := DrainWhile(reply, n, BATCH_SIZE, pending, codes, stored, queued);
    }
    NothingLeft(messages, next, queued);
    pending, codes, n, stored := DrainWhile(reply, n, 1, pending, codes, stored, queued);
    DrainedIsConserved(stored, pending, queued);
  }

  /** Every queued hash is stored or still pending, as often as it was queued. */
  ghost predicate Conserved(stored: seq<Hash>, pending: seq<Hash>, queued: seq<Hash>) {
    multiset(stored + pending) == multiset(queued)
  }

  ghost predicate QueuedUpTo(messages: seq<seq<Hash>>, next: nat, queued: seq<Hash>)
    requires next <= |messages|
  {
    queued + Requested(messages[next..]) == Requested(messages)
  }

  lemma NextMessage(messages: seq<seq<Hash>>, next: nat, queued: seq<Hash>)
    requires next < |messages| && messages[next] != [] && QueuedUpTo(messages, next, queued)
    ensures QueuedUpTo(messages, next + 1, queued + messages[next])
  {
    assert messages[next..][1..] == messages[next + 1..];
    assert queued + (messages[next] + Requested(messages[next + 1..])) ==
           queued + messages[next] + Requested(messages[next + 1..]);
  }

  lemma NothingLeft(messages: seq<seq<Hash>>, next: nat, queued: seq<Hash>)
    requires next <= |messages| && QueuedUpTo(messages, next, queued)
    requires next < |messages| ==> messages[next] == []
    ensures queued == Requested(messages)
  {
  }

  lemma QueuedIsConserved(stored: seq<Hash>, pending: seq<Hash>, queued: seq<Hash>, message: seq<Hash>)
    requires Conserved(stored, pending, queued)
    ensures Conserved(stored, pending + message, queued + message)
  {
  }

  lemma SameHashes(a: seq<Hash>, b: seq<Hash>)
    requires multiset(a) == multiset(b)
    ensures HashesIn(a) == HashesIn(b)
  {
    forall h ensures h in a <==> h in b {
      assert h in multiset(a) <==> h in multiset(b);
    }
  }

  lemma DrainedIsConserved(stored: seq<Hash>, pending: seq<Hash>, queued: seq<Hash>)
    requires Conserved(stored, pending, queued) && pending == []
    ensures multiset(stored) == multiset(queued) && HashesIn(stored) == HashesIn(queued)
  {
    assert stored + pending == stored;
    SameHashes(stored, queued);
  }

  /** Fetches batches until fewer than `least` hashes are pending; what is left over is queued again. */
  method DrainWhile(reply: CodeReplies, n: nat, least: nat, pending: seq<Hash>, codes: map<Hash, Bytes>,
                    ghost stored: seq<Hash>,
                    ghost queued: seq<Hash>)
    returns (pending': seq<Hash>, codes': map<Hash, Bytes>, n': nat, ghost stored': seq<Hash>)
    requires ValidReplies(reply) && 1 <= least <= BATCH_SIZE && codes.Keys == HashesIn(stored)
    requires Conserved(stored, pending, queued)
    ensures |pending'| < least && codes'.Keys == HashesIn(stored')
    ensures Conserved(stored', pending', queued)
  {
    pending', codes', n', stored' := pending, codes, n, stored;
    while |pending'| >= least
      invariant codes'.Keys == HashesIn(stored') && Conserved(stored', pending', queued)
      decreases |pending'|
    {
      var size := Min(BATCH_SIZE, |pending'|);
      var batch, rest := pending'[..size], pending'[size..];
      assert pending' == batch + rest;
      var left;
      left, codes' := FetchBytecodeBatch(reply, n', batch, codes');
      ghost var fetched := batch[..|batch| - |left|];
      assert batch == fetched + left;
      FetchedIsConserved(stored', rest, fetched, left);
      pending', n', stored' := rest + left, n' + 1, stored' + fetched;
    }
  }

  lemma FetchedIsConserved(stored: seq<Hash>, rest: seq<Hash>, fetched: seq<Hash>, left: seq<Hash>)
    ensures multiset((stored + fetched) + (rest + left)) == multiset(stored + ((fetched + left) + rest))
  {
  }
}
