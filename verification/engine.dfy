/**
 The sync engine: the header chain, the stored tables and the wallet, and the
 operations that move them together (internal/sync).
 */
module Engines {
  import opened Basics
  import opened Transactions
  import opened Ledger
  import opened Wallets
  import opened Locators
  import opened Chains
  import opened Scans
  import opened Stores
  import opened SyncState
  import opened PeerAnswers
  import opened Steps

  class Engine {
    const env: Env
    const chain: Chain
    const store: Store
    const wallet: Wallet
    const filterStart: nat
    var anchorPrev: Hash
    var anchorSet: bool
    ghost var resume: int
    ghost var anchor: Hash
    ghost var original: map<int, FilterData>

    ghost function Snapshot(): Tables
      reads chain`headers, store`filters, store`matches, store`transactions
    {
      Tables(chain.headers, store.filters, store.matches, store.transactions)
    }

    /** Memory and tables tell of the same chain. */
    ghost predicate Agrees()
      reads chain`headers, store`headers, store`filters, store`matches, store`transactions
    {
      HeadersMatch(store.headers, chain.headers) && TablesAgree(Snapshot(), env)
    }

    /** The wallet state is the one the tables give. */
    ghost predicate WalletCurrent()
      reads chain`headers, store`transactions, store`pending, wallet
    {
      && wallet.Valid()
      && wallet.Loaded(store.Transactions(), store.pending)
      && wallet.history == HistoryOf(chain.headers, store.Transactions(), store.pending, wallet.scriptIndex.Keys)
      && (forall i :: 0 <= i < |wallet.scripts| ==> wallet.scripts[i].script == env.scriptOf(wallet.scripts[i].address))
    }

    ghost predicate Assumptions()
    {
      IdealFilterHash(env) && HonestBlocks(env, chain.params, chain.hashOf)
    }

    ghost predicate Valid()
      reads this, chain, store`headers, store`filters, store`matches, store`transactions, store`pending, wallet
    {
      && Assumptions()
      && chain.Valid()
      && Agrees()
      && PendingApart(store.transactions, store.pending)
      && WalletCurrent()
      && FilterChain(store.filters, filterStart, resume, anchor, original, env)
    }

    constructor (env: Env, params: Params, hashOf: WireHeader -> Hash, store: Store, filterStart: nat)
      requires Sound(params, hashOf)
      ensures this.env == env && this.store == store && this.filterStart == filterStart
      ensures chain.Valid() && chain.headers == [] && chain.params == params && chain.hashOf == hashOf
      ensures wallet.Valid() && wallet.scripts == []
      ensures fresh(chain) && fresh(wallet)
    {
      this.env, this.store, this.filterStart := env, store, filterStart;
      chain := new Chain(params, hashOf);
      wallet := new Wallet();
      anchorPrev, anchorSet := ZERO_HASH, false;
      resume, anchor, original := filterStart, ZERO_HASH, map[];
    }

    /** Loads the stored headers into the empty chain, or stores the genesis
        block when there are none. Whatever chain the table holds is loaded. */
    method LoadHeaders(now: int, saveFails: bool, ghost held: seq<Header>) returns (ok: bool)
      requires chain.Valid() && chain.headers == []
      modifies chain, store`headers
      ensures chain.Valid()
      ensures held != [] && Linked(chain.params, chain.hashOf, held) && HeadersMatch(old(store.headers), held) ==>
                ok && chain.headers == held
      ensures old(store.headers) == map[] && CheckPoW(chain.params.genesis, chain.hashOf(chain.params.genesis)).None? && !saveFails ==>
                ok && chain.headers == [NewHeader(chain.hashOf, chain.params.genesis, 0)]
      ensures ok && old(store.headers) == map[] ==> HeadersMatch(store.headers, chain.headers) && chain.headers == [NewHeader(chain.hashOf, chain.params.genesis, 0)]
      ensures old(store.headers) != map[] ==> store.headers == old(store.headers)
      ensures ok && old(store.headers) != map[] ==> HoldsHeaders(store.headers, chain.headers)
    {
      ghost var table := store.headers;
      var heights := store.HeaderHeights();
      if |heights| == 0 {
        ok := StoreGenesis(now, saveFails);
      } else {
        ok := LoadRows(heights, held);
      }
    }

    /** Appends the stored headers, read in the order of their heights. */
    method LoadRows(heights: seq<int>, ghost held: seq<Header>) returns (ok: bool)
      requires chain.Valid() && chain.headers == []
      requires forall i, j :: 0 <= i < j < |heights| ==> heights[i] < heights[j]
      requires forall h :: h in heights <==> h in store.headers
      modifies chain
      ensures chain.Valid()
      ensures ok ==> HoldsHeaders(store.headers, chain.headers)
      ensures Linked(chain.params, chain.hashOf, held) && HeadersMatch(store.headers, held) ==> ok && chain.headers == held
    {
      ghost var isHeld := Linked(chain.params, chain.hashOf, held) && HeadersMatch(store.headers, held);
      if isHeld {
        HeldHeights(store.headers, held, heights);
      }
      assert LoadedUpTo(store.headers, heights, [], 0);
      hide HeadersMatch, Sound, Linked, IndexExact, LoadedUpTo, HoldsHeaders;
      ok := true;
      var next := 0;
      while ok && next < |heights|
        invariant chain.Valid() && next <= |heights|
        invariant ok ==> LoadedUpTo(store.headers, heights, chain.headers, next)
        invariant isHeld ==> ok && chain.headers == held[..next]
      {
        if heights[next] != next {
          ok := false;
        } else {
          ok := LoadHeader(heights, next, held);
        }
        next := next + 1;
      }
      if ok {
        CountedOff(store.headers, heights, chain.headers);
      }
    }

    /** Appends the stored header of the next height to the chain. */
    method LoadHeader(ghost heights: seq<int>, next: nat, ghost held: seq<Header>) returns (ok: bool)
      requires chain.Valid() && next in store.headers
      requires next < |heights| && heights[next] == next
      requires LoadedUpTo(store.headers, heights, chain.headers, next)
      modifies chain
      ensures chain.Valid()
      ensures ok ==> LoadedUpTo(store.headers, heights, chain.headers, next + 1)
      ensures Linked(chain.params, chain.hashOf, held) && HeadersMatch(store.headers, held) && next < |held| && old(chain.headers) == held[..next] ==>
                ok && chain.headers == held[..next + 1]
    {
      hide Sound, Linked, IndexExact, HeadersMatch, NewHeader, ToWire, WireFromHeader, LinksOn, Apply;
      if Linked(chain.params, chain.hashOf, held) && HeadersMatch(store.headers, held) && next < |held| {
        HeldLinksOn(chain.params, chain.hashOf, store.headers, held, next);
      }
      ghost var before := chain.headers;
      var w := WireFromHeader(store.headers[next]);
      ok := chain.AppendTrusted(w);
      if ok {
        assert chain.headers[..next] == before;
        LoadedOneMore(store.headers, heights, chain.hashOf, chain.headers, next);
      }
    }

    /** What an earlier run left in the tables, up to the filters stored. */
    ghost predicate Left(held: seq<Header>, from: int, anchor: Hash, original: map<int, FilterData>)
      reads store
    {
      PendingApart(store.transactions, store.pending)
      && if held == [] then
        store.headers == map[] && store.filters == map[] && store.matches == map[] && store.transactions == [] && from == filterStart
      else
        && Linked(chain.params, chain.hashOf, held) && HeadersMatch(store.headers, held)
        && TablesAgree(Tables(held, store.filters, store.matches, store.transactions), env)
        && FilterChain(store.filters, filterStart, from, anchor, original, env)
    }

    /** Loads the stored headers and the watched scripts and rebuilds the wallet:
        on the tables of an earlier run the same chain comes back. */
    method Init(scripts: seq<WatchScript>, now: int, saveFails: bool, ghost held: seq<Header>, ghost from: int,
        ghost link: Hash, ghost filters: map<int, FilterData>)
      returns (ok: bool)
      requires Assumptions() && chain.Valid() && chain.headers == [] && wallet.Valid() && wallet.scripts == []
      requires forall i :: 0 <= i < |scripts| ==> scripts[i].script == env.scriptOf(scripts[i].address)
      requires Left(held, from, link, filters)
      modifies this, chain, store`headers, wallet
      ensures ok ==> Valid() && resume == from && wallet.scripts == scripts && !anchorSet && anchorPrev == ZERO_HASH
      ensures held != [] ==> ok && chain.headers == held && store.headers == old(store.headers)
      ensures held == [] && ok ==> |chain.headers| == 1 && chain.headers[0].hash == chain.hashOf(chain.params.genesis)
    {
      hide Linked, HeadersMatch, FilterChain, IndexExact, Sound, Wallet.Loaded, IndexOk, IdealFilterHash, HonestBlocks, TablesAgree;
      hide HistoryOf, PendingApart;
      anchorPrev, anchorSet := ZERO_HASH, false;
      resume, anchor, original := from, link, filters;
      if held != [] {
        HeldOrNot(held);
      }
      ok := LoadHeaders(now, saveFails, held);
      LoadScripts(scripts);
      LoadWallet();
      if ok && held == [] {
        GenesisOnly();
      }
    }

    lemma HeldOrNot(held: seq<Header>)
      requires held != [] && HeadersMatch(store.headers, held)
      ensures store.headers != map[]
    {
      assert 0 in store.headers;
    }

    method LoadScripts(scripts: seq<WatchScript>)
      requires wallet.Valid() && wallet.scripts == []
      modifies wallet
      ensures wallet.Valid() && wallet.scripts == scripts
    {
      for i := 0 to |scripts|
        invariant wallet.Valid() && wallet.scripts == scripts[..i]
      {
        wallet.AddScript(scripts[i]);
      }
    }

    lemma GenesisOnly()
      requires |chain.headers| == 1 && store.filters == map[] && store.matches == map[] && store.transactions == []
      ensures TablesAgree(Snapshot(), env)
      ensures FilterChain(store.filters, filterStart, filterStart, anchor, original, env)
    {
    }

    /** Adds the genesis block to the empty chain and stores it. */
    method StoreGenesis(now: int, saveFails: bool) returns (ok: bool)
      requires chain.Valid() && chain.headers == [] && store.headers == map[]
      modifies chain, store`headers
      ensures chain.Valid()
      ensures CheckPoW(chain.params.genesis, chain.hashOf(chain.params.genesis)).None? && !saveFails ==>
                ok && chain.headers == [NewHeader(chain.hashOf, chain.params.genesis, 0)]
      ensures ok ==> HeadersMatch(store.headers, chain.headers) && chain.headers == [NewHeader(chain.hashOf, chain.params.genesis, 0)]
    {
      var rejected := chain.Add(chain.params.genesis, now);
      if rejected.Some? {
        return false;
      }
      var row := HeaderFromWire(chain.hashOf, chain.params.genesis, 0);
      assert row == StoredOf(chain.headers[0]);
      ok := store.SaveHeaders([row], saveFails);
      assert [row][..0] == [];
    }

    lemma ValidChain()
      requires Assumptions() && chain.Valid()
      ensures ValidBlocks(BlocksOf(env, chain.headers))
    {
      assert Linked(chain.params, chain.hashOf, chain.headers);
    }

    /** Once every block is scanned, with no payment below the filter start and
        no spending hidden in the block of its coin, the confirmed balance is
        the wallet's part of the ledger of the chain. */
    lemma ConfirmedIsLedger()
      requires Valid()
      requires ScannedTo(env, chain.headers, store.transactions, wallet.scriptIndex.Keys, filterStart, |chain.headers|)
      requires Quiet(BlocksOf(env, chain.headers), filterStart, wallet.scriptIndex.Keys)
      requires forall h, op :: filterStart <= h < |chain.headers| ==> !HidesSpend(BlocksOf(env, chain.headers), h, op, wallet.scriptIndex.Keys)
      ensures wallet.confirmedBalance == Sum(Watched(Utxo(AllTxs(BlocksOf(env, chain.headers))), wallet.scriptIndex.Keys))
    {
      var mine := wallet.scriptIndex.Keys;
      ValidChain();
      BalanceOfTables();
      assert chain.headers[..|chain.headers|] == chain.headers;
      hide ValidBlocks, BlocksOf, Quiet, Covers, HidesSpend, Valid, Unspent, Watched, Utxo, Sum, DistinctIds;
      BalanceExact(BlocksOf(env, chain.headers), filterStart, store.transactions, mine);
      RowsDistinct(BlocksOf(env, chain.headers), filterStart, store.transactions, mine);
      SortedTxs(ByHeight, store.transactions);
      DistinctInAnyOrder(TxsOf(store.transactions), TxsOf(store.Transactions()));
      OrderDoesNotMatter(TxsOf(store.transactions), TxsOf(store.Transactions()), mine);
    }

    /** What the wallet shows agrees: received less sent less fees over its
        history, the net amounts of the history, the two balances and the list
        of its coins, all but for the value of coins spent twice. */
    lemma FiguresAgree()
      requires Valid()
      ensures var all, stats := TxsOf(store.Transactions()) + PendingTxs(store.pending), StatsOf(wallet.history, SumValues(wallet.coins));
              && stats.received - stats.sent - stats.fees == SumEntries(wallet.history)
              && SumEntries(wallet.history) + TakenTwice(CoinMap(all, wallet.scriptIndex.Keys), AllIns(all)) ==
                 wallet.confirmedBalance + wallet.pendingBalance == SumValues(wallet.coins)
              && (NoDoubleSpend(all) ==> SumEntries(wallet.history) == wallet.confirmedBalance + wallet.pendingBalance)
    {
      ValidChain();
      hide Sound, Linked, IndexExact, FilterChain, ValidBlocks, BlocksOf, Wallet.Loaded, TimesOf, Entries, ById, HeadersMatch;
      SortedTxs(ByHeight, store.transactions);
      AllDistinct(chain.headers, env, store.transactions, store.Transactions(), store.pending);
      wallet.FiguresAgree(store.Transactions(), store.pending, BlockTimes(chain.headers));
    }

    lemma BalanceOfTables()
      requires Valid()
      ensures wallet.confirmedBalance == Sum(Unspent(TxsOf(store.Transactions()), wallet.scriptIndex.Keys))
    {
    }

    /** Rebuilds the wallet state from the tables. */
    method LoadWallet()
      requires wallet.Valid()
      requires forall i :: 0 <= i < |wallet.scripts| ==> wallet.scripts[i].script == env.scriptOf(wallet.scripts[i].address)
      modifies wallet
      ensures WalletCurrent()
      ensures wallet.scripts == old(wallet.scripts) && wallet.scriptIndex == old(wallet.scriptIndex)
    {
      wallet.Load(store.Transactions(), store.pending, BlockTimes(chain.headers));
    }

    // ------------------------------------------------------- headers and forks

    /** Goes back to a block of the chain: what lies above it is forgotten, in
        memory and in every table, and the wallet is rebuilt from the rest. */
    method RewindTo(fork: int)
      requires Valid() && -1 <= fork < |chain.headers|
      modifies this, chain, store`headers, store`filters, store`matches, store`transactions, wallet
      ensures Valid()
      ensures Snapshot() == RewindTables(old(Snapshot()), fork)
      ensures resume == Min(old(resume), Max(fork + 1, filterStart))
      ensures anchor == old(anchor) && original == old(original) && anchorPrev == old(anchorPrev) && anchorSet == old(anchorSet)
      ensures wallet.scripts == old(wallet.scripts) && wallet.scriptIndex == old(wallet.scriptIndex)
    {
      hide Agrees, Assumptions, FilterChain, PendingApart, RewindTables, Sound, Linked, IndexExact, IndexOk, Wallet.Loaded, HistoryOf;
      CutTables(fork);
      LoadWallet();
    }

    /** Cuts the chain and the tables at the height. */
    method CutTables(fork: int)
      requires Assumptions() && chain.Valid() && Agrees() && -1 <= fork < |chain.headers|
      requires PendingApart(store.transactions, store.pending) && FilterChain(store.filters, filterStart, resume, anchor, original, env)
      modifies this`resume, chain, store`headers, store`filters, store`matches, store`transactions
      ensures chain.Valid() && Agrees()
      ensures PendingApart(store.transactions, store.pending) && FilterChain(store.filters, filterStart, resume, anchor, original, env)
      ensures Snapshot() == RewindTables(old(Snapshot()), fork)
      ensures resume == Min(old(resume), Max(fork + 1, filterStart))
    {
      hide HeadersMatch, TablesAgree, FilterChain, IdealFilterHash, HonestBlocks, ValidBlocks, UpTo, MatchesUpTo, KeepUpTo, BlocksOf, PendingApart;
      hide Sound, Linked, IndexExact;
      ValidChain();
      HeadersRewound(store.headers, chain.headers, fork);
      TablesRewound(Snapshot(), env, fork);
      ChainRewound(store.filters, filterStart, resume, anchor, original, env, fork);
      ApartKept(store.transactions, fork, store.pending);
      chain.Truncate(fork);
      store.DeleteHeadersFrom(fork);
      store.DeleteFiltersFrom(fork);
      store.DeleteMatchesFrom(fork);
      store.DeleteTransactionsFrom(fork);
      resume := Min(resume, Max(fork + 1, filterStart));
    }

    /** Takes in a batch of headers. One that forks off below the tip first cuts the
        chain back to the fork. What is accepted, up to the first invalid header,
        is written at once; if that fails, the chain forgets it again. */
    method ExtendHeaders(batch: seq<WireHeader>, clock: int -> int, saveFails: bool) returns (outcome: Outcome)
      requires Valid() && batch != []
      modifies this, chain, store`headers, store`filters, store`matches, store`transactions, wallet
      ensures Valid()
      ensures (Snapshot(), outcome) == ExtendTables(chain.params, chain.hashOf, old(Snapshot()), batch, clock, saveFails)
      ensures BatchFared(chain.params, chain.hashOf, old(chain.headers), batch, clock, saveFails, chain.headers, outcome)
    {
      hide WalletCurrent, Assumptions, FilterChain, Sound, Linked, IndexExact, TablesAgree, HeadersMatch, RewindTables, ExtendStored, HeightOfHash, BatchFared;
      ExtendFares(chain.params, chain.hashOf, Snapshot(), batch, clock, saveFails);
      var first := batch[0].prevBlock;
      var fork := chain.HeightOf(first);
      if fork < 0 {
        outcome := UnknownParent;
      } else {
        SameHeight(chain.params, chain.hashOf, chain.headers, first, fork);
        RewindAtTip(Snapshot(), env);
        if fork < chain.Height() {
          RewindTo(fork);
        }
        assert Snapshot() == RewindTables(old(Snapshot()), fork);
        outcome := AppendBatch(batch, clock, saveFails);
      }
    }

    /** Validates and appends the batch at the tip, then stores what was accepted. */
    method AppendBatch(batch: seq<WireHeader>, clock: int -> int, saveFails: bool) returns (outcome: Outcome)
      requires Valid()
      modifies chain, store`headers
      ensures Valid()
      ensures (chain.headers, outcome) == ExtendStored(chain.params, chain.hashOf, old(chain.headers), batch, clock, saveFails)
    {
      hide Sound, IdealFilterHash, HonestBlocks, IndexExact, HeadersMatch, TablesAgree;
      hide FilterChain, PutHeaders, Extend, RowsOf, Linked, WalletCurrent, Assumptions;
      ghost var base := chain.headers;
      var rows: seq<StoredHeader>;
      rows, outcome := AddBatch(batch, clock);
      ghost var all := chain.headers;
      BatchMatches(store.headers, chain.params, chain.hashOf, base, all, rows);
      TablesExtended(old(Snapshot()), env, all);
      BatchLength(base, all, rows);
      var ok := store.SaveHeaders(rows, saveFails);
      if !ok {
        chain.Truncate(|chain.headers| - 1 - |rows|);
        outcome := SaveFailed;
      }
      assert HeadersMatch(store.headers, chain.headers);
      assert TablesAgree(Snapshot(), env);
      KeepsCurrent(base);
      assert FilterChain(store.filters, filterStart, resume, anchor, original, env);
    }

    /** More headers on top leave the wallet current. */
    twostate lemma KeepsCurrent(base: seq<Header>)
      requires old(WalletCurrent()) && old(TablesAgree(Snapshot(), env)) && base == old(chain.headers) <= chain.headers
      requires unchanged(wallet) && unchanged(store`transactions) && unchanged(store`pending)
      ensures WalletCurrent()
    {
      hide HistoryOf, IndexOk, Wallet.Loaded;
      HistoryKept(base, chain.headers, store.transactions, store.Transactions(), store.pending, wallet.scriptIndex.Keys);
    }

    /** Adds the headers of the batch until one is rejected. */
    method AddBatch(batch: seq<WireHeader>, clock: int -> int) returns (rows: seq<StoredHeader>, outcome: Outcome)
      requires chain.Valid()
      modifies chain
      ensures chain.Valid()
      ensures (chain.headers, outcome) == Extend(chain.params, chain.hashOf, old(chain.headers), batch, clock)
      ensures old(chain.headers) <= chain.headers && RowsOf(old(chain.headers), chain.headers, rows)
    {
      hide Sound, Linked, IndexExact, CheckHeader, Apply, StoredOf, NewHeader;
      rows, outcome := [], Stored;
      var n := 0;
      while n < |batch| && outcome == Stored
        invariant chain.Valid() && n <= |batch|
        invariant old(chain.headers) <= chain.headers
        invariant RowsOf(old(chain.headers), chain.headers, rows)
        invariant Extend(chain.params, chain.hashOf, old(chain.headers), batch, clock) ==
                  if outcome == Stored then Extend(chain.params, chain.hashOf, chain.headers, batch[n..], clock) else (chain.headers, outcome)
      {
        var rejected := chain.Add(batch[n], clock(|chain.headers|));
        if rejected.Some? {
          outcome := Rejected(rejected.value);
        } else {
          FromWireIsStored(chain.hashOf, batch[n], chain.Height());
          rows := rows + [HeaderFromWire(chain.hashOf, batch[n], chain.Height())];
          assert batch[n..][1..] == batch[n + 1..];
        }
        n := n + 1;
      }
    }

    // --------------------------------------------------------- wallet blocks

    /** Stores every transaction of the block that touches the wallet, the known
        outpoints being those before the block, and drops the unconfirmed
        transactions it confirms or conflicts with. Returns how many it stored. */
    method ProcessBlock(height: nat, block: Block) returns (found: nat)
      requires Valid() && height < |chain.headers| && block == env.blockOf(chain.headers[height].hash)
      modifies store`transactions, store`pending, wallet
      ensures Valid()
      ensures Snapshot() == ProcessTables(old(Snapshot()), env, old(wallet.outpoints).Keys, old(wallet.scriptIndex).Keys, height)
      ensures forall r :: r in store.pending <==>
                r in old(store.pending)
                && !Dropped(r.tx.id, block, old(wallet.pendingSpends), old(wallet.outpoints).Keys, old(wallet.scriptIndex).Keys)
      ensures wallet.scripts == old(wallet.scripts) && wallet.scriptIndex == old(wallet.scriptIndex)
      ensures found == CountRelevant(block, old(wallet.outpoints).Keys, old(wallet.scriptIndex).Keys)
      ensures DisjointInputs(PendingTxs(old(store.pending))) ==> DisjointInputs(PendingTxs(store.pending))
    {
      hide HeadersMatch, TablesAgree, FilterChain, IdealFilterHash, HonestBlocks, ValidBlocks, BlocksOf, DisjointInputs, DistinctRows;
      hide Sound, Linked, IndexExact, IndexOk, Wallet.Loaded, Dropped, ConflictsWith, Relevant, Process, HistoryOf, PendingApart;
      ghost var before, spends, known, mine := store.pending, wallet.pendingSpends, wallet.outpoints.Keys, wallet.scriptIndex.Keys;
      var hash := chain.headers[height].hash;
      ValidChain();
      TablesProcessed(Snapshot(), env, wallet.outpoints.Keys, wallet.scriptIndex.Keys, height);
      PendingIdsKnown();
      RowsDistinctIds();
      var changed: bool;
      found, changed := ProcessTxs(height, hash, block);
      StaysApart(old(store.transactions), before, height, spends, known, mine);
      if DisjointInputs(PendingTxs(before)) {
        FewerDisjoint(before, store.pending);
      }
      if changed {
        LoadWallet();
      }
    }

    lemma StaysApart(rows: seq<TxRow>, before: seq<PendingRow>, height: nat, spends: map<OutPoint, Hash>,
        known: set<OutPoint>, mine: set<Script>)
      requires Assumptions() && chain.Valid() && height < |chain.headers|
      requires DistinctRows(rows) && PendingApart(rows, before) && DistinctPending(store.pending)
      requires forall r :: r in store.pending ==>
                 r in before && !Dropped(r.tx.id, env.blockOf(chain.headers[height].hash), spends, known, mine)
      requires store.transactions == Process(rows, env.blockOf(chain.headers[height].hash), known, mine, height, chain.headers[height].hash)
      ensures PendingApart(store.transactions, store.pending)
    {
      ValidChain();
      hide ValidBlocks, BlocksOf, Process, Dropped, PendingApart, DistinctRows;
      ApartProcessed(chain.headers, env, rows, before, store.pending, height, spends, known, mine);
    }

    /** Of a valid state: the rows and the unconfirmed transactions have distinct ids. */
    lemma RowsDistinctIds()
      requires Valid()
      ensures DistinctRows(store.transactions) && DistinctPending(store.pending)
    {
    }

    lemma PendingIdsKnown()
      requires WalletCurrent()
      ensures forall r :: r in store.pending ==> r.tx.id in wallet.pendingIDs
    {
      forall r | r in store.pending
        ensures r.tx.id in wallet.pendingIDs
      {
        var n :| 0 <= n < |store.pending| && store.pending[n] == r;
        assert PendingTxs(store.pending)[n].id == r.tx.id;
      }
    }

    /** The loop over the block: the wallet is not reloaded before its end. */
    method ProcessTxs(height: nat, hash: Hash, block: Block) returns (found: nat, changed: bool)
      requires forall r :: r in store.pending ==> r.tx.id in wallet.pendingIDs
      requires DistinctPending(store.pending)
      modifies store`transactions, store`pending
      ensures DistinctPending(store.pending)
      ensures store.transactions == Process(old(store.transactions), block, wallet.outpoints.Keys, wallet.scriptIndex.Keys, height, hash)
      ensures forall r :: r in store.pending <==>
                r in old(store.pending) && !Dropped(r.tx.id, block, wallet.pendingSpends, wallet.outpoints.Keys, wallet.scriptIndex.Keys)
      ensures !changed ==> store.transactions == old(store.transactions) && store.pending == old(store.pending)
      ensures found == CountRelevant(block, wallet.outpoints.Keys, wallet.scriptIndex.Keys)
    {
      hide Dropped, ConflictsWith, Relevant, Save, StillNoted, DistinctPending;
      found, changed := 0, false;
      ghost var known, mine, noted := wallet.outpoints.Keys, wallet.scriptIndex.Keys, wallet.pendingSpends;
      var spends := wallet.pendingSpends;
      NotedAtFirst(noted, store.pending);
      NothingDropped(noted, known, mine);
      for n := 0 to |block|
        invariant store.transactions == Process(old(store.transactions), block[..n], known, mine, height, hash)
        invariant found == CountRelevant(block[..n], known, mine)
        invariant forall r :: r in store.pending <==> r in old(store.pending) && !Dropped(r.tx.id, block[..n], noted, known, mine)
        invariant StillNoted(noted, spends, store.pending) && DistinctPending(store.pending)
        invariant !changed ==> store.transactions == old(store.transactions) && store.pending == old(store.pending)
      {
        var tx := block[n];
        assert block[..n + 1][..n] == block[..n];
        ghost var before := store.pending;
        var dropped;
        spends, dropped := DropConflicts(tx, noted, spends);
        changed := changed || dropped;
        var relevant := DescribeTx(tx);
        ghost var between := store.pending;
        if relevant {
          store.SaveTransaction(TxRow(tx, height, hash));
          if tx.id in wallet.pendingIDs {
            WithoutPendingDistinct(store.pending, tx.id);
            store.DeletePending(tx.id);
          }
          found := found + 1;
          changed := true;
        }
        forall r
          ensures r in store.pending <==> r in old(store.pending) && !Dropped(r.tx.id, block[..n + 1], noted, known, mine)
          ensures r in store.pending ==> r in between
        {
          DroppedStep(r.tx.id, block, n, noted, known, mine);
          WithoutPendingMember(between, tx.id, r);
        }
        StillNotedFewer(noted, spends, between, store.pending);
      }
      assert block[..|block|] == block;
    }

    /** Drops the unconfirmed transactions noted to spend an input of tx. */
    method DropConflicts(tx: Tx, ghost noted: map<OutPoint, Hash>, spends: map<OutPoint, Hash>)
      returns (left: map<OutPoint, Hash>, dropped: bool)
      requires StillNoted(noted, spends, store.pending) && DistinctPending(store.pending)
      modifies store`pending
      ensures StillNoted(noted, left, store.pending) && DistinctPending(store.pending)
      ensures forall r :: r in store.pending <==> r in old(store.pending) && !ConflictsWith(r.tx.id, tx, noted)
      ensures !dropped ==> store.pending == old(store.pending)
    {
      left, dropped := spends, false;
      for i := 0 to |tx.ins|
        invariant StillNoted(noted, left, store.pending) && DistinctPending(store.pending)
        invariant forall r :: r in store.pending <==> r in old(store.pending) && !ConflictsUpTo(r.tx.id, tx, i, noted)
        invariant !dropped ==> store.pending == old(store.pending)
      {
        var op := tx.ins[i];
        ghost var before := store.pending;
        if op in left && left[op] != tx.id {
          var other := left[op];
          WithoutPendingDistinct(store.pending, other);
          store.DeletePending(other);
          left := left - {op};
          dropped := true;
          forall r
            ensures r in store.pending <==> r in before && r.tx.id != other
          {
            WithoutPendingMember(before, other, r);
          }
        }
      }
    }

    /** Whether the transaction spends a known outpoint or pays a watched script. */
    method DescribeTx(tx: Tx) returns (relevant: bool)
      ensures relevant == Relevant(tx, wallet.outpoints.Keys, wallet.scriptIndex.Keys)
    {
      relevant := false;
      for i := 0 to |tx.ins|
        invariant relevant <==> exists k :: 0 <= k < i && tx.ins[k] in wallet.outpoints
      {
        if tx.ins[i] in wallet.outpoints {
          relevant := true;
        }
      }
      ghost var spends := relevant;
      for i := 0 to |tx.outs|
        invariant relevant <==> spends || exists k :: 0 <= k < i && tx.outs[k].script in wallet.scriptIndex
      {
        if tx.outs[i].script in wallet.scriptIndex {
          relevant := true;
        }
      }
    }

    // ---------------------------------------------------------------- filters

    /** Makes the row of an accepted filter. If it holds watched scripts, or the
        block came with it, the block is processed and the matches are recorded;
        a block that is needed and cannot be had means no row. */
    method ApplyFilter(height: int, served: Served, prev: Hash) returns (row: Option<FilterRow>)
      requires Valid()
      modifies store`transactions, store`pending, store`matches, wallet
      ensures Valid()
      ensures wallet.scripts == old(wallet.scripts) && wallet.scriptIndex == old(wallet.scriptIndex)
      ensures row.Some? <==> Acceptable(env, chain.headers, wallet.scripts, height, served)
      ensures row.Some? ==> row.value == FilterRow(height, chain.headers[height].hash, env.chained(env.filterHash(served.data), prev))
      ensures Snapshot() == if row.Some? then AcceptTables(old(Snapshot()), env, wallet.scripts, old(wallet.outpoints).Keys, wallet.scriptIndex.Keys, height, served)
                            else old(Snapshot())
    {
      hide HeadersMatch, TablesAgree, FilterChain, IdealFilterHash, HonestBlocks, ValidBlocks, BlocksOf, Matched;
      hide Sound, Linked, IndexExact, IndexOk, Wallet.Loaded, Dropped, Process, PutMatches, HistoryOf, PendingApart, DisjointInputs;
      row := None;
      var hdr := chain.HeaderAt(height);
      if hdr.Some? && env.decodes(served.data) {
        var matched := MatchWatched(served.data, hdr.value.hash);
        if matched == [] || served.withBlock || served.reachable {
          MatchedWatched(wallet.scripts, served.data, hdr.value.hash);
          if matched != [] || served.withBlock {
            ProcessMatched(height, matched);
          }
          row := Some(FilterRow(height, hdr.value.hash, env.chained(env.filterHash(served.data), prev)));
        }
      }
    }

    /** Processes a block and records it as matched for the scripts. */
    method ProcessMatched(height: nat, matched: seq<WatchScript>)
      requires Valid() && height < |chain.headers|
      requires forall n :: 0 <= n < |matched| ==> matched[n].script == env.scriptOf(matched[n].address) && matched[n].script in wallet.scriptIndex
      modifies store`transactions, store`pending, store`matches, wallet
      ensures Valid()
      ensures wallet.scripts == old(wallet.scripts) && wallet.scriptIndex == old(wallet.scriptIndex)
      ensures Snapshot() == MatchTables(old(Snapshot()), env, old(wallet.outpoints).Keys, wallet.scriptIndex.Keys, height, matched)
    {
      hide HeadersMatch, TablesAgree, FilterChain, IdealFilterHash, HonestBlocks, ValidBlocks, BlocksOf;
      hide Sound, Linked, IndexExact, IndexOk, Wallet.Loaded, Dropped, Process, PutMatches, CountRelevant, HistoryOf, PendingApart, DisjointInputs;
      ValidChain();
      TablesMatched(Snapshot(), env, wallet.outpoints.Keys, wallet.scriptIndex.Keys, height, matched);
      var hash := chain.headers[height].hash;
      var found := ProcessBlock(height, env.blockOf(hash));
      SaveMatches(matched, height, hash);
    }

    lemma MatchedWatched(scripts: seq<WatchScript>, data: FilterData, hash: Hash)
      requires WalletCurrent() && scripts == wallet.scripts
      ensures forall n :: 0 <= n < |Matched(env, scripts, data, hash)| ==>
                var w := Matched(env, scripts, data, hash)[n]; w.script == env.scriptOf(w.address) && w.script in wallet.scriptIndex
    {
      var matched := Matched(env, scripts, data, hash);
      forall n | 0 <= n < |matched|
        ensures matched[n].script == env.scriptOf(matched[n].address) && matched[n].script in wallet.scriptIndex
      {
        MatchedMember(env, scripts, data, hash, matched[n]);
      }
    }

    method MatchWatched(data: FilterData, hash: Hash) returns (matched: seq<WatchScript>)
      ensures matched == Matched(env, wallet.scripts, data, hash)
    {
      matched := [];
      var scripts := wallet.scripts;
      for i := 0 to |scripts|
        invariant matched == Matched(env, scripts[..i], data, hash)
      {
        assert scripts[..i + 1][..i] == scripts[..i];
        if env.hit(data, hash, scripts[i].script) {
          matched := matched + [scripts[i]];
        }
      }
      assert scripts[..|scripts|] == scripts;
    }

    method SaveMatches(matched: seq<WatchScript>, height: int, hash: Hash)
      modifies store`matches
      ensures store.matches == PutMatches(old(store.matches), matched, height, hash)
    {
      for i := 0 to |matched|
        invariant store.matches == PutMatches(old(store.matches), matched[..i], height, hash)
      {
        assert matched[..i + 1][..i] == matched[..i];
        store.SaveMatch(MatchRow(height, hash, matched[i].address, matched[i].script));
      }
      assert matched[..|matched|] == matched;
    }

    /** What a filter is chained to: the null hash at genesis, the anchor at the
        filter start, anywhere else the stored header below. */
    function LinkAt(height: int): Option<Hash>
      reads this`anchorPrev, store
    {
      if height == 0 then Some(ZERO_HASH)
      else if height == filterStart then Some(anchorPrev)
      else store.FilterHeaderAt(height - 1)
    }

    method PrevFilterHeader(height: int) returns (prev: Option<Hash>)
      ensures prev == LinkAt(height)
    {
      if height == 0 {
        return Some(ZERO_HASH);
      }
      if height == filterStart {
        return Some(anchorPrev);
      }
      return store.FilterHeaderAt(height - 1);
    }

    ghost function Progressed(): Progress
      reads this`original, store`transactions
    {
      Progress(original, store.transactions)
    }

    /** The run of accepted filters from one height to another. */
    ghost predicate FedTo(feed: Feed, before: Progress, from: int, stop: int, end: int)
      reads this`original, chain`headers, store`transactions, wallet`scripts, wallet`scriptIndex
    {
      Fed(env, chain.headers, wallet.scripts, wallet.scriptIndex.Keys, filterStart, feed, before, from, Progressed(), stop, end)
    }

    /** Accepts count consecutive filters as fed and stores their rows in one
        database transaction. The filter headers are linked from the stored
        predecessor. Rows accepted before a failure are still stored. */
    method StoreFilters(fStart: int, count: nat, feed: Feed) returns (stored: nat, ok: bool)
      requires Valid() && fStart == resume
      modifies this`resume, this`anchor, this`original, store`filters, store`transactions, store`pending, store`matches, wallet
      ensures Valid()
      ensures wallet.scripts == old(wallet.scripts) && wallet.scriptIndex == old(wallet.scriptIndex)
      ensures resume == fStart + stored && (ok <==> stored == count)
      ensures FedTo(feed, old(Progressed()), fStart, resume, fStart + count)
    {
      hide Agrees, Sound, Linked, IndexExact, RowsChained, FilterChain, WalletCurrent, Assumptions;
      hide Stops, ScansOn, LinkBefore;
      var prev := PrevFilterHeader(fStart);
      LinkStored(prev);
      if resume == filterStart {
        ChainRestarts(store.filters, filterStart, anchor, prev.value, original, env);
        anchor := prev.value;
      }
      var rows: seq<FilterRow>;
      ghost var datas: seq<FilterData>;
      rows, datas, ok := AcceptFilters(fStart, count, feed, prev.value);
      stored := |rows|;
      StoreRows(rows, datas);
    }

    /** The loop of StoreFilters: accepts filters until one is not acceptable. */
    method AcceptFilters(fStart: int, count: nat, feed: Feed, prev: Hash)
      returns (rows: seq<FilterRow>, ghost datas: seq<FilterData>, ok: bool)
      requires Valid() && 0 <= fStart
      modifies store`transactions, store`pending, store`matches, wallet
      ensures Valid()
      ensures wallet.scripts == old(wallet.scripts) && wallet.scriptIndex == old(wallet.scriptIndex)
      ensures RowsChained(rows, datas, chain.headers, fStart, prev, env) && |datas| == |rows| <= count
      ensures forall k :: fStart <= k < fStart + |rows| ==> feed(k).Some? && datas[k - fStart] == feed(k).value.data
      ensures ok <==> |rows| == count
      ensures Stops(env, chain.headers, wallet.scripts, feed, fStart, fStart + |rows|, fStart + count)
      ensures ScansOn(env, chain.headers, wallet.scriptIndex.Keys, filterStart, feed, old(store.transactions), fStart, store.transactions, fStart + |rows|)
    {
      hide Agrees, Sound, Linked, IndexExact, RowsChained, FilterChain, WalletCurrent, Assumptions, Accepts;
      hide ScansOn, Stops;
      var last := prev;
      rows, datas := [], [];
      NoRowsChained(chain.headers, fStart, prev, env);
      StopsAtStart(env, chain.headers, wallet.scripts, feed, fStart);
      ScansNothing(env, chain.headers, wallet.scriptIndex.Keys, filterStart, feed, store.transactions, fStart);
      ok := true;
      while ok && |rows| < count
        invariant Valid()
        invariant wallet.scripts == old(wallet.scripts) && wallet.scriptIndex == old(wallet.scriptIndex)
        invariant |datas| == |rows| <= count
        invariant RowsChained(rows, datas, chain.headers, fStart, prev, env)
        invariant last == LinkOfRow(rows, |rows|, prev)
        invariant forall k :: fStart <= k < fStart + |rows| ==> feed(k).Some? && datas[k - fStart] == feed(k).value.data
        invariant Stops(env, chain.headers, wallet.scripts, feed, fStart, fStart + |rows|, fStart + if ok then |rows| else count)
        invariant !ok ==> |rows| < count
        invariant ScansOn(env, chain.headers, wallet.scriptIndex.Keys, filterStart, feed, old(store.transactions), fStart, store.transactions, fStart + |rows|)
        decreases ok, count - |rows|
      {
        var h := fStart + |rows|;
        ghost var between := store.transactions;
        StopsStep(env, chain.headers, wallet.scripts, feed, fStart, h, fStart + count);
        var row := AcceptOne(h, feed, last);
        ScansFurther(env, chain.headers, wallet.scriptIndex.Keys, filterStart, feed, old(store.transactions), fStart,
          between, h, store.transactions, h + if row.Some? then 1 else 0);
        if row.Some? {
          RowsChainedMore(rows, datas, chain.headers, fStart, prev, env, row.value, feed(h).value.data);
          rows, last := rows + [row.value], row.value.filterHeader;
          datas := datas + [feed(h).value.data];
        } else {
          ok := false;
        }
      }
    }

    /** Accepts the filter fed for a height, if it is acceptable. */
    method AcceptOne(h: int, feed: Feed, last: Hash) returns (row: Option<FilterRow>)
      requires Valid() && 0 <= h
      modifies store`transactions, store`pending, store`matches, wallet
      ensures Valid()
      ensures wallet.scripts == old(wallet.scripts) && wallet.scriptIndex == old(wallet.scriptIndex)
      ensures row.Some? <==> Accepts(env, chain.headers, wallet.scripts, feed, h)
      ensures row.Some? ==> feed(h).Some? && h < |chain.headers|
                            && row.value == FilterRow(h, chain.headers[h].hash, env.chained(env.filterHash(feed(h).value.data), last))
      ensures ScansOn(env, chain.headers, wallet.scriptIndex.Keys, filterStart, feed, old(store.transactions), h, store.transactions, h + if row.Some? then 1 else 0)
    {
      hide Agrees, IdealFilterHash, HonestBlocks, Matched, Truthful, Quiet, ScannedTo, ValidBlocks;
      hide Sound, Linked, IndexExact, IndexOk, CoinMap, AcceptTables, FilterChain, Assumptions, BlocksOf;
      hide Wallet.Loaded, HistoryOf, PendingApart, PendingTxs, TxsOf;
      row := None;
      if feed(h).Some? {
        ValidChain();
        KnownOutpoints();
        ghost var t, mine := Snapshot(), wallet.scriptIndex.Keys;
        if TruthFed(env, t.headers, mine, feed, h) && ScannedTo(env, t.headers, t.transactions, mine, filterStart, h) && Quiet(BlocksOf(env, t.headers), filterStart, mine) {
          AcceptScans(env, t, wallet.scripts, wallet.scriptIndex, store.Transactions(), PendingTxs(store.pending),
            filterStart, h, feed(h).value);
        }
        row := ApplyFilter(h, feed(h).value, last);
      }
    }

    lemma KnownOutpoints()
      requires WalletCurrent()
      ensures wallet.outpoints.Keys == CoinMap(TxsOf(store.Transactions()) + PendingTxs(store.pending), wallet.scriptIndex.Keys).Keys
    {
    }

    /** Stores the accepted rows, which continue the stored chain. */
    method StoreRows(rows: seq<FilterRow>, ghost datas: seq<FilterData>)
      requires Valid() && |datas| == |rows|
      requires RowsChained(rows, datas, chain.headers, resume, LinkBefore(store.filters, filterStart, resume, anchor), env)
      modifies this`resume, this`original, store`filters
      ensures Valid()
      ensures resume == old(resume) + |rows|
      ensures forall h :: old(resume) <= h < resume ==> h in original && original[h] == datas[h - old(resume)]
      ensures forall h :: h < old(resume) && h in old(original) ==> h in original && original[h] == old(original)[h]
    {
      hide HeadersMatch, FiltersAgree, MatchesAgree, TransactionsAgree, MatchesProcessed, FilterChain, LinkBefore, RowsChained;
      hide WalletCurrent, Assumptions, Sound, Linked, IndexExact, PutFilters, PutDatas;
      ghost var before := original;
      RowsExtend(store.filters, chain.headers, filterStart, resume, anchor, original, env, rows, datas);
      forall h
        ensures resume <= h < resume + |rows| ==> h in PutDatas(before, resume, datas) && PutDatas(before, resume, datas)[h] == datas[h - resume]
        ensures h < resume && h in before ==> h in PutDatas(before, resume, datas) && PutDatas(before, resume, datas)[h] == before[h]
      {
        PutDatasAt(before, resume, datas, h);
      }
      store.SaveFilters(rows);
      original := PutDatas(original, resume, datas);
      resume := resume + |rows|;
    }

    lemma LinkStored(prev: Option<Hash>)
      requires Valid()
      requires prev == LinkAt(resume)
      ensures resume >= filterStart && prev.Some?
      ensures resume > filterStart ==> prev.value == LinkBefore(store.filters, filterStart, resume, anchor)
    {
      ChainReaches(store.filters, filterStart, resume, anchor, original, env);
    }

    // ------------------------------------------------------ syncing the filters

    /** Checks the previous filter header a peer sent for the batch from a
        height. With no anchor set, the first batch is trusted for it. */
    method CheckFilterPrev(start: nat, got: Hash) returns (ok: bool)
      modifies this`anchorPrev
      ensures start == filterStart > 0 && !anchorSet ==> ok && anchorPrev == got
      ensures !(start == filterStart > 0 && !anchorSet) ==>
                anchorPrev == old(anchorPrev) && ok == LinksTo(start, LinkAt(start), chain.hashOf(chain.params.genesis), got)
      ensures ok <==> Continues(start, got)
    {
      if start == filterStart && filterStart > 0 {
        if anchorSet {
          return got == anchorPrev;
        }
        anchorPrev := got;
        return true;
      }
      var want := ZERO_HASH;
      if start > 0 {
        var stored := store.FilterHeaderAt(start - 1);
        if stored.None? {
          return false;
        }
        want := stored.value;
      }
      if got == want {
        return true;
      }
      return start == 0 && got == chain.hashOf(chain.params.genesis);
    }

    /** A batch from the height continues the stored chain: its previous header is
        the stored one below, the anchor at a filter start above 0, and at height 0
        the null hash or the genesis block's. */
    ghost predicate Continues(start: nat, prev: Hash)
      reads this`anchorPrev, store
    {
      if start == 0 then prev == ZERO_HASH || prev == chain.hashOf(chain.params.genesis)
      else if start == filterStart then prev == anchorPrev
      else start - 1 in store.filters && prev == store.filters[start - 1].filterHeader
    }

    /** Judges the peers' answers to a filter header request. While no anchor is
        set, the first batch sets it, by majority or by the first answer; then
        only the answers that link are kept. */
    method FilterHashes(start: nat, answers: seq<Answer>, needsPinned: bool) returns (kept: seq<nat>, ok: bool)
      modifies this`anchorPrev, this`anchorSet
      ensures answers != [] && start == filterStart > 0 && !old(anchorSet) ==> anchorSet && IsAnchor(answers, anchorPrev)
      ensures !(answers != [] && start == filterStart > 0 && !old(anchorSet)) ==> anchorSet == old(anchorSet) && anchorPrev == old(anchorPrev)
      ensures kept == Linking(start, LinkAt(start), chain.hashOf(chain.params.genesis), answers)
      ensures forall i: nat :: i in kept <==> i < |answers| && Continues(start, answers[i].prev)
      ensures forall i, j :: 0 <= i < j < |kept| ==> kept[i] < kept[j]
      ensures ok <==> Usable(kept, answers, needsPinned)
      ensures ok <==> kept != [] && (needsPinned ==> kept[0] < |answers| && answers[kept[0]].pinned)
    {
      hide IsAnchor, Linking, Usable;
      FixAnchor(start, answers);
      kept := LinkingPeers(start, answers);
      LinkingIs(start, LinkAt(start), chain.hashOf(chain.params.genesis), answers);
      ok := FirstUsable(kept, answers, needsPinned);
    }

    /** Above the filter start an answer continues the stored chain exactly when
        it names the header the stored filters chain to. */
    lemma ContinuesOriginals(start: nat, prev: Hash)
      requires Valid() && filterStart < start <= resume
      ensures forall h :: filterStart <= h < start ==> h in original
      ensures Continues(start, prev) <==> prev == ChainedTo(env, anchor, original, filterStart, start)
    {
      hide Agrees, WalletCurrent, PendingApart, Sound, Linked, IndexExact, Assumptions;
      StoredIsChained(store.filters, filterStart, resume, anchor, original, env, start);
    }

    method FixAnchor(start: nat, answers: seq<Answer>)
      modifies this`anchorPrev, this`anchorSet
      ensures answers != [] && start == filterStart > 0 && !old(anchorSet) ==> anchorSet && IsAnchor(answers, anchorPrev)
      ensures !(answers != [] && start == filterStart > 0 && !old(anchorSet)) ==>
                anchorSet == old(anchorSet) && anchorPrev == old(anchorPrev)
    {
      hide IsAnchor, IsMajority, Prevs;
      if |answers| > 0 && start == filterStart && filterStart > 0 && !anchorSet {
        var voted := MajorityAnchor(Prevs(answers));
        anchorPrev := if voted.Some? then voted.value else answers[0].prev;
        AnchorSettled(answers, voted);
        anchorSet := true;
      }
    }

    /** Checks the answers one by one, the anchor being fixed. */
    method LinkingPeers(start: nat, answers: seq<Answer>) returns (kept: seq<nat>)
      requires start == filterStart > 0 && answers != [] ==> anchorSet
      modifies this`anchorPrev
      ensures anchorPrev == old(anchorPrev)
      ensures kept == Linking(start, LinkAt(start), chain.hashOf(chain.params.genesis), answers)
    {
      ghost var genesis, link := chain.hashOf(chain.params.genesis), LinkAt(start);
      kept := [];
      for i := 0 to |answers|
        invariant anchorPrev == old(anchorPrev) && LinkAt(start) == link
        invariant kept == Linking(start, link, genesis, answers[..i])
      {
        assert answers[..i + 1][..i] == answers[..i];
        var links := CheckFilterPrev(start, answers[i].prev);
        if links {
          kept := kept + [i];
        }
      }
      assert answers[..|answers|] == answers;
    }

    method FirstUsable(kept: seq<nat>, answers: seq<Answer>, needsPinned: bool) returns (ok: bool)
      requires forall i :: 0 <= i < |kept| ==> kept[i] < |answers|
      ensures ok <==> Usable(kept, answers, needsPinned)
      ensures ok <==> kept != [] && (needsPinned ==> answers[kept[0]].pinned)
    {
      ok := |kept| > 0 && (!needsPinned || answers[kept[0]].pinned);
    }

    lemma ResumeIs(height: int)
      requires Valid()
      requires forall end :: Contiguous(store.filters.Keys, filterStart, end) ==> height == end
      ensures height == resume
      ensures filterStart <= resume <= Max(filterStart, |chain.headers|)
    {
      ChainReaches(store.filters, filterStart, resume, anchor, original, env);
    }

    /** Brings the filters of one filter header batch in, in smaller batches. */
    method SyncHeaderBatch(start: int, end: int, feed: Feed) returns (stored: nat, ok: bool)
      requires Valid() && start == resume && start <= end + 1
      modifies this`resume, this`anchor, this`original, store`filters, store`transactions, store`pending, store`matches, wallet
      ensures Valid()
      ensures wallet.scripts == old(wallet.scripts) && wallet.scriptIndex == old(wallet.scriptIndex)
      ensures resume == start + stored && (ok <==> resume == end + 1)
      ensures FedTo(feed, old(Progressed()), start, resume, end + 1)
    {
      hide Valid, Fed;
      var fStart := start;
      stored, ok := 0, true;
      FedNothing(env, chain.headers, wallet.scripts, wallet.scriptIndex.Keys, filterStart, feed, Progressed(), start);
      while ok && fStart <= end
        invariant Valid()
        invariant wallet.scripts == old(wallet.scripts) && wallet.scriptIndex == old(wallet.scriptIndex)
        invariant resume == start + stored <= end + 1 && (if ok then fStart == resume else resume < end + 1)
        invariant FedTo(feed, old(Progressed()), start, resume, if ok then resume else end + 1)
        decreases ok, end - fStart
      {
        var fEnd := Min(fStart + FILTER_BATCH - 1, end);
        ghost var between := Progressed();
        var n;
        n, ok := StoreFilters(fStart, fEnd - fStart + 1, feed);
        FedBounds(env, chain.headers, wallet.scripts, wallet.scriptIndex.Keys, filterStart, feed, between, fStart,
          Progressed(), resume, fEnd + 1);
        FedOn(env, chain.headers, wallet.scripts, wallet.scriptIndex.Keys, filterStart, feed, old(Progressed()), start, between, fStart, Progressed(), resume,
          fEnd + 1, if ok then resume else end + 1);
        stored := stored + n;
        fStart := fEnd + 1;
      }
    }

    /** No peer can be used for the batch at the resume height: none links to
        the stored chain, or the pinned peer is needed and is not the first that does. */
    ghost predicate NoneUsable(answers: seq<Answer>, needsPinned: bool)
      reads this`resume, this`anchorPrev, store
    {
      !Usable(Linking(resume, LinkAt(resume), chain.hashOf(chain.params.genesis), answers), answers, needsPinned)
    }

    /** One filter header request and the filters of its batch. */
    method SyncBatch(start: nat, end: int, feed: Feed, answers: seq<Answer>, needsPinned: bool,
        ghost before: Progress, ghost from: int) returns (stored: nat, result: SyncResult)
      requires Valid() && start == resume && start <= end < |chain.headers|
      requires FedTo(feed, before, from, start, start)
      modifies this, store`filters, store`transactions, store`pending, store`matches, wallet
      ensures Valid()
      ensures wallet.scripts == old(wallet.scripts) && wallet.scriptIndex == old(wallet.scriptIndex)
      ensures resume == start + stored
      ensures result == Synced ==> resume == end + 1
      ensures result == FilterRefused ==> start <= resume <= end
      ensures result == NoLinkingPeer ==> resume == start && NoneUsable(answers, needsPinned)
      ensures FedTo(feed, before, from, resume, if result == FilterRefused then |chain.headers| else resume)
    {
      hide Agrees, Sound, Linked, IndexExact, FilterChain, WalletCurrent, Assumptions, Fed, Usable, Linking, IsAnchor;
      ghost var between := Progressed();
      var kept, ok := FilterHashes(start, answers, needsPinned);
      assert Valid() && resume == start;
      if ok {
        stored, ok := SyncHeaderBatch(start, end, feed);
        FedBounds(env, chain.headers, wallet.scripts, wallet.scriptIndex.Keys, filterStart, feed, between, start,
          Progressed(), resume, end + 1);
        FedOn(env, chain.headers, wallet.scripts, wallet.scriptIndex.Keys, filterStart, feed, before, from, between, start, Progressed(), resume,
          end + 1, if ok then resume else |chain.headers|);
        result := if ok then Synced else FilterRefused;
      } else {
        stored, result := 0, NoLinkingPeer;
      }
    }

    /** Brings the filters from the resume height to the tip, in batches of one
        filter header request and smaller batches of filters. Returns how many
        filters were stored. */
    method SyncFilters(feed: Feed, answers: int -> seq<Answer>, needsPinned: int -> bool)
      returns (stored: nat, result: SyncResult)
      requires Valid()
      modifies this, store`filters, store`transactions, store`pending, store`matches, wallet
      ensures Valid()
      ensures wallet.scripts == old(wallet.scripts) && wallet.scriptIndex == old(wallet.scriptIndex)
      ensures resume == old(resume) + stored
      ensures result == Synced ==> resume == Max(old(resume), |chain.headers|)
      ensures result != Synced ==> resume < |chain.headers|
      ensures result == NoLinkingPeer ==> NoneUsable(answers(resume), needsPinned(resume))
      ensures FedTo(feed, old(Progressed()), old(resume), resume, if result == FilterRefused then |chain.headers| else resume)
    {
      hide Agrees, Sound, Linked, IndexExact, FilterChain, WalletCurrent, Assumptions, Fed;
      var start := store.FilterResumeHeight(filterStart);
      ResumeIs(start);
      var tip := chain.Height();
      FedNothing(env, chain.headers, wallet.scripts, wallet.scriptIndex.Keys, filterStart, feed, Progressed(), start);
      stored, result := 0, Synced;
      while start <= tip && result == Synced
        invariant Valid()
        invariant wallet.scripts == old(wallet.scripts) && wallet.scriptIndex == old(wallet.scriptIndex)
        invariant resume == old(resume) + stored <= Max(old(resume), |chain.headers|)
        invariant if result == Synced then start == resume else resume < |chain.headers|
        invariant result == NoLinkingPeer ==> NoneUsable(answers(resume), needsPinned(resume))
        invariant FedTo(feed, old(Progressed()), old(resume), resume, if result == FilterRefused then |chain.headers| else resume)
        decreases result == Synced, tip - start
      {
        var end := Min(start + FILTER_HEADER_BATCH - 1, tip);
        var n;
        n, result := SyncBatch(start, end, feed, answers(start), needsPinned(start), old(Progressed()), old(resume));
        stored, start := stored + n, end + 1;
      }
    }

    // --------------------------------------------------------- late addresses

    /** Adds a newly derived address to the watched scripts. When a stored
        transaction pays it already, its rescan is queued from the lowest height
        of such a payment. */
    method Watch(w: WatchScript) returns (queued: Option<Rescan>)
      requires Valid() && w.script == env.scriptOf(w.address)
      modifies store`rescans, wallet
      ensures Valid()
      ensures w.script in old(wallet.scriptIndex) ==>
                queued.None? && wallet.scripts == old(wallet.scripts) && wallet.scriptIndex == old(wallet.scriptIndex)
      ensures w.script !in old(wallet.scriptIndex) ==>
                && wallet.scripts == old(wallet.scripts) + [w] && w.script in wallet.scriptIndex
                && queued == if w.address in wallet.firstPaid then Some(Rescan(w.address, wallet.firstPaid[w.address])) else None
      ensures old(wallet.scriptIndex).Keys <= wallet.scriptIndex.Keys
      ensures store.rescans == if queued.Some? then Enqueue(old(store.rescans), queued.value) else old(store.rescans)
    {
      hide Agrees, FilterChain, Assumptions, Sound, Linked, IndexExact, IndexOk, Wallet.Loaded, Enqueue, HistoryOf, PendingApart;
      queued := None;
      if w.script !in wallet.scriptIndex {
        wallet.AddScript(w);
        LoadWallet();
        if w.address in wallet.firstPaid {
          queued := Some(Rescan(w.address, wallet.firstPaid[w.address]));
          store.AddRescan(queued.value);
        }
      }
    }

    lemma StoredIdsKnown()
      requires WalletCurrent()
      ensures forall r :: r in store.transactions ==> r.tx.id in wallet.confirmedIDs
    {
      hide *;
      LoadedIds();
      forall r | r in store.transactions
        ensures r.tx.id in wallet.confirmedIDs
      {
        ListedId(store.transactions, store.Transactions(), r);
      }
    }

    lemma LoadedIds()
      requires WalletCurrent()
      ensures wallet.confirmedIDs == Ids(TxsOf(store.Transactions()))
      ensures multiset(store.Transactions()) == multiset(store.transactions)
    {
      hide HistoryOf, IndexOk, FirstPaidOk, CoinMap, Ids, Unspent, Sum, SumValues;
    }

    static lemma ListedId(rows: seq<TxRow>, listed: seq<TxRow>, r: TxRow)
      requires multiset(listed) == multiset(rows) && r in rows
      ensures r.tx.id in Ids(TxsOf(listed))
    {
      assert r in multiset(listed);
      var n :| 0 <= n < |listed| && listed[n] == r;
      assert TxsOf(listed)[n].id == r.tx.id;
    }

    /** A new unconfirmed transaction has an id of its own, and keeps the inputs
        disjoint exactly when it shares none. */
    lemma AcceptedApart(tx: Tx, seenAt: int)
      requires PendingApart(store.transactions, store.pending) && tx.id != ZERO_HASH
      requires forall r :: r in store.transactions ==> r.tx.id != tx.id
      requires forall r :: r in store.pending ==> r.tx.id != tx.id
      ensures PendingApart(store.transactions, store.pending + [PendingRow(tx, seenAt)])
      ensures DisjointInputs(PendingTxs(store.pending)) ==>
                (DisjointInputs(PendingTxs(store.pending + [PendingRow(tx, seenAt)])) <==> !SharesInput(PendingTxs(store.pending), tx))
    {
      var pending, txs := store.pending, PendingTxs(store.pending);
      assert forall n :: 0 <= n < |pending| ==> pending[n] in pending;
      assert forall n :: 0 <= n < |store.transactions| ==> store.transactions[n] in store.transactions;
      assert PendingTxs(pending + [PendingRow(tx, seenAt)]) == txs + [tx];
      hide DisjointInputs, SharesInput;
      if DisjointInputs(txs) {
        OneMoreDisjoint(txs, tx);
      }
    }

    /** Stores a relayed unconfirmed transaction that is not known yet and
        touches the wallet. */
    method AcceptPending(tx: Tx, seenAt: int) returns (accepted: bool)
      requires Valid() && tx.id != ZERO_HASH
      modifies store`pending, wallet
      ensures Valid()
      ensures wallet.scripts == old(wallet.scripts) && wallet.scriptIndex == old(wallet.scriptIndex)
      ensures accepted <==> tx.id !in old(wallet.confirmedIDs) && tx.id !in old(wallet.pendingIDs)
                            && Relevant(tx, old(wallet.outpoints).Keys, old(wallet.scriptIndex).Keys)
      ensures store.pending == if accepted then old(store.pending) + [PendingRow(tx, seenAt)] else old(store.pending)
      ensures DisjointInputs(PendingTxs(old(store.pending))) ==>
                (DisjointInputs(PendingTxs(store.pending)) <==> !accepted || !SharesInput(PendingTxs(old(store.pending)), tx))
    {
      hide Agrees, FilterChain, Assumptions, Sound, Linked, IndexExact, IndexOk, Wallet.Loaded, Relevant, HistoryOf, DisjointInputs;
      hide PendingApart, PendingTxs, SharesInput;
      PendingIdsKnown();
      StoredIdsKnown();
      var relevant := DescribeTx(tx);
      accepted := tx.id !in wallet.confirmedIDs && tx.id !in wallet.pendingIDs && relevant;
      if accepted {
        assert forall n :: 0 <= n < |store.pending| ==> store.pending[n] in store.pending;
        AcceptedApart(tx, seenAt);
        store.SavePending(PendingRow(tx, seenAt));
        LoadWallet();
      }
    }
  }
}
